/**
 * The memory admission controller: a fixed capacity, the amount reserved for each
 * process identifier, and the total in use.
 */
module Memory {
  import opened ProcessControl

  /** The sum of the amounts in an allocation table. */
  ghost function Sum(m: map<int, int>): int
    decreases |m|
  {
    if forall k :: k !in m then 0
    else
      var k :| k in m;
      assert |m - {k}| < |m| by {
        assert (m - {k}).Keys == m.Keys - {k};
      }
      m[k] + Sum(m - {k})
  }

  /** Taking out any one entry takes out exactly its amount. */
  lemma {:induction false} SumRemove(m: map<int, int>, k: int)
    requires k in m
    ensures Sum(m - {k}) == Sum(m) - m[k]
    decreases |m|
  {
    var j :| j in m && Sum(m) == m[j] + Sum(m - {j});
    if j != k {
      assert (m - {j}).Keys == m.Keys - {j};
      assert (m - {k}).Keys == m.Keys - {k};
      SumRemove(m - {j}, k);
      SumRemove(m - {k}, j);
      assert m - {j} - {k} == m - {k} - {j};
    }
  }

  /** Adding an entry for a new key adds exactly its amount. */
  lemma SumPut(m: map<int, int>, k: int, v: int)
    requires k !in m
    ensures Sum(m[k := v]) == Sum(m) + v
  {
    SumRemove(m[k := v], k);
    assert m[k := v] - {k} == m;
  }

  /** A table of non-negative amounts has a non-negative sum. */
  lemma {:induction false} SumNonNegative(m: map<int, int>)
    requires forall pid :: pid in m ==> m[pid] >= 0
    ensures Sum(m) >= 0
    decreases |m|
  {
    if exists k :: k in m {
      var k :| k in m;
      assert (m - {k}).Keys == m.Keys - {k};
      SumRemove(m, k);
      SumNonNegative(m - {k});
    }
  }

  /**
   * Requests granted one after another, starting from used, each fit when its turn
   * comes: an allocator that waits for room never has to wait for any of them.
   */
  predicate FitsInOrder(used: int, requests: seq<int>, total: int)
    decreases |requests|
  {
    requests == [] || (used + requests[0] <= total && FitsInOrder(used + requests[0], requests[1..], total))
  }

  class MemoryManager {
    const totalMemory: int
    var allocationByPid: map<int, int>
    var usedMemory: int

    /**
     * The books balance: every reservation is non-negative, the used total is
     * their sum, and it does not exceed the capacity.
     */
    ghost predicate Valid()
      reads this
    {
      && (forall pid :: pid in allocationByPid ==> allocationByPid[pid] >= 0)
      && usedMemory == Sum(allocationByPid)
      && usedMemory <= totalMemory
    }

    constructor (totalMemory: int)
      ensures this.totalMemory == totalMemory
      ensures allocationByPid == map[] && usedMemory == 0
      ensures totalMemory >= 0 ==> Valid()
    {
      this.totalMemory := totalMemory;
      allocationByPid := map[];
      usedMemory := 0;
    }

    /**
     * allocateBlocking. The Java method waits until the request fits; the model
     * starts where that wait ends, so the fit is its precondition. The request is
     * reserved in full and recorded under the process identifier, replacing any
     * earlier entry for it; the books stay balanced when the identifier is new.
     */
    method AllocateBlocking(pcb: ProcessControlBlock)
      requires usedMemory + pcb.memoryRequired <= totalMemory
      modifies this
      ensures usedMemory == old(usedMemory) + pcb.memoryRequired
      ensures usedMemory <= totalMemory
      ensures allocationByPid == old(allocationByPid)[pcb.id := pcb.memoryRequired]
      ensures |allocationByPid| >= 1
      ensures |allocationByPid| == |old(allocationByPid)| + (if pcb.id in old(allocationByPid) then 0 else 1)
      ensures old(Valid()) && pcb.id !in old(allocationByPid) && pcb.memoryRequired >= 0 ==> Valid()
    {
      var requested := pcb.memoryRequired;
      usedMemory := usedMemory + requested;
      allocationByPid := allocationByPid[pcb.id := requested];
      if old(Valid()) && pcb.id !in old(allocationByPid) && requested >= 0 {
        SumPut(old(allocationByPid), pcb.id, requested);
      }
    }

    /**
     * release: nothing happens for an identifier without a reservation; otherwise
     * its entry goes and its amount is given back, the total clamped at zero.
     */
    method Release(pcb: ProcessControlBlock)
      modifies this
      ensures pcb.id !in old(allocationByPid) ==>
                allocationByPid == old(allocationByPid) && usedMemory == old(usedMemory)
      ensures pcb.id in old(allocationByPid) ==>
                && allocationByPid == old(allocationByPid) - {pcb.id}
                && usedMemory == (if old(usedMemory) - old(allocationByPid)[pcb.id] < 0 then 0
                                  else old(usedMemory) - old(allocationByPid)[pcb.id])
                && usedMemory >= 0
                && |allocationByPid| == |old(allocationByPid)| - 1
      ensures old(Valid()) ==> Valid()
    {
      if pcb.id in allocationByPid {
        var amount := allocationByPid[pcb.id];
        allocationByPid := allocationByPid - {pcb.id};
        assert allocationByPid.Keys == old(allocationByPid).Keys - {pcb.id};
        usedMemory := usedMemory - amount;
        if usedMemory < 0 {
          usedMemory := 0;
        }
        if old(Valid()) {
          SumRemove(old(allocationByPid), pcb.id);
          SumNonNegative(allocationByPid);
        }
      }
    }

    /** getUsedMemory. */
    function UsedMemory(): int
      reads this
    {
      usedMemory
    }

    /** getAllocatedProcessCount: the number of resident processes. */
    function AllocatedProcessCount(): nat
      reads this
    {
      |allocationByPid|
    }
  }
}
