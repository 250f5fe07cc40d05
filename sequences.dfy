/** Small facts about sequences used by the queues and working sets of the simulator. */
module Sequences {

  /** No element occurs twice. */
  predicate Distinct<T(==)>(s: seq<T>) {
    forall i, j :: 0 <= i < j < |s| ==> s[i] != s[j]
  }

  /** List.remove(index): the element at i is taken out, the others keep their order. */
  function RemoveAt<T>(s: seq<T>, i: nat): (r: seq<T>)
    requires i < |s|
    ensures |r| == |s| - 1
  {
    s[..i] + s[i + 1..]
  }

  /** The elements before i keep their place, those after it move up by one, and only s[i] is lost. */
  lemma RemoveAtSpec<T>(s: seq<T>, i: nat)
    requires i < |s|
    ensures forall k :: 0 <= k < i ==> RemoveAt(s, i)[k] == s[k]
    ensures forall k :: i <= k < |s| - 1 ==> RemoveAt(s, i)[k] == s[k + 1]
    ensures multiset(RemoveAt(s, i)) + multiset{s[i]} == multiset(s)
  {
    assert s == s[..i] + [s[i]] + s[i + 1..];
  }

  /** Every element of s is the one taken out or one left in. */
  lemma RemoveAtMembers<T>(s: seq<T>, i: nat)
    requires i < |s|
    ensures forall x :: x in s <==> x == s[i] || x in RemoveAt(s, i)
  {
    var r := RemoveAt(s, i);
    RemoveAtSpec(s, i);
    forall x | x in s
      ensures x == s[i] || x in r
    {
      var k :| 0 <= k < |s| && s[k] == x;
      if k < i {
        assert r[k] == x;
      } else if k > i {
        assert r[k - 1] == x;
      }
    }
  }

  /**
   * The working-set update of the priority scheduler: each element of incoming
   * is appended unless the list already holds it.
   */
  function AppendAbsent<T(==)>(s: seq<T>, incoming: seq<T>): seq<T>
    decreases |incoming|
  {
    if incoming == [] then s
    else AppendAbsent(if incoming[0] in s then s else s + [incoming[0]], incoming[1..])
  }

  /** The update keeps s as it is at the front and adds at most the incoming elements. */
  lemma {:induction false} AppendAbsentPrefix<T>(s: seq<T>, incoming: seq<T>)
    ensures var r := AppendAbsent(s, incoming);
      && |s| <= |r| <= |s| + |incoming|
      && r[..|s|] == s
    decreases |incoming|
  {
    if incoming != [] {
      var next := if incoming[0] in s then s else s + [incoming[0]];
      var r := AppendAbsent(next, incoming[1..]);
      AppendAbsentPrefix(next, incoming[1..]);
      assert next[..|s|] == s;
      assert r[..|next|][..|s|] == s;
    }
  }

  /** The update adds only incoming elements and misses none of them. */
  lemma {:induction false} AppendAbsentMembers<T>(s: seq<T>, incoming: seq<T>)
    ensures var r := AppendAbsent(s, incoming);
      && (forall k :: 0 <= k < |r| ==> r[k] in s || r[k] in incoming)
      && (forall k :: 0 <= k < |incoming| ==> incoming[k] in r)
    decreases |incoming|
  {
    if incoming != [] {
      var next := if incoming[0] in s then s else s + [incoming[0]];
      var r := AppendAbsent(next, incoming[1..]);
      AppendAbsentMembers(next, incoming[1..]);
      AppendAbsentPrefix(next, incoming[1..]);
      assert incoming[0] in next;
      assert incoming[0] in r by {
        var i :| 0 <= i < |next| && next[i] == incoming[0];
        assert r[..|next|][i] == incoming[0];
      }
      forall k | 0 <= k < |incoming|
        ensures incoming[k] in r
      {
        if k > 0 {
          assert incoming[k] == incoming[1..][k - 1];
        }
      }
    }
  }

  /** The update adds nothing twice: a list without duplicates stays without them. */
  lemma {:induction false} AppendAbsentNoDuplicates<T>(s: seq<T>, incoming: seq<T>)
    requires Distinct(s)
    ensures Distinct(AppendAbsent(s, incoming))
    decreases |incoming|
  {
    if incoming != [] {
      var next := if incoming[0] in s then s else s + [incoming[0]];
      AppendAbsentNoDuplicates(next, incoming[1..]);
    }
  }

  /** f applied to every element of s, in order. */
  function Map<A, B>(f: A -> B, s: seq<A>): (r: seq<B>)
    ensures |r| == |s|
    decreases |s|
  {
    if s == [] then [] else [f(s[0])] + Map(f, s[1..])
  }

  /** Element i of the mapped sequence is f of element i. */
  lemma {:induction false} MapAt<A, B>(f: A -> B, s: seq<A>, i: nat)
    requires i < |s|
    ensures Map(f, s)[i] == f(s[i])
    decreases |s|
  {
    if i > 0 {
      MapAt(f, s[1..], i - 1);
    }
  }

  /** A sequence that agrees with f on every element of s is the mapped sequence. */
  lemma {:induction false} MapOfEach<A, B>(f: A -> B, s: seq<A>, r: seq<B>)
    requires |r| == |s| && forall k :: 0 <= k < |s| ==> r[k] == f(s[k])
    ensures r == Map(f, s)
    decreases |s|
  {
    if s != [] {
      MapOfEach(f, s[1..], r[1..]);
      assert r == [r[0]] + r[1..];
    }
  }

  /** Taking an element out commutes with mapping. */
  lemma {:induction false} MapRemoveAt<A, B>(f: A -> B, s: seq<A>, i: nat)
    requires i < |s|
    ensures Map(f, RemoveAt(s, i)) == RemoveAt(Map(f, s), i)
    decreases |s|
  {
    if i == 0 {
      assert RemoveAt(s, i) == s[1..];
      assert RemoveAt(Map(f, s), i) == Map(f, s)[1..];
    } else {
      MapRemoveAt(f, s[1..], i - 1);
      assert RemoveAt(s, i) == [s[0]] + RemoveAt(s[1..], i - 1);
      assert RemoveAt(Map(f, s), i) == [f(s[0])] + RemoveAt(Map(f, s[1..]), i - 1);
    }
  }

  /** The front part of a sequence without repeats has none either. */
  lemma DistinctPrefix<T>(a: seq<T>, b: seq<T>)
    requires Distinct(a + b)
    ensures Distinct(a)
  {
    assert forall k :: 0 <= k < |a| ==> (a + b)[k] == a[k];
  }

  /** When nothing incoming is already there or repeated, every element is appended. */
  lemma {:induction false} AppendAbsentDistinct<T>(s: seq<T>, incoming: seq<T>)
    requires Distinct(s + incoming)
    ensures AppendAbsent(s, incoming) == s + incoming
    decreases |incoming|
  {
    if incoming != [] {
      var x := incoming[0];
      assert (s + incoming)[|s|] == x;
      forall k | 0 <= k < |s|
        ensures s[k] != x
      {
        assert (s + incoming)[k] == s[k];
      }
      assert (s + [x]) + incoming[1..] == s + incoming;
      AppendAbsentDistinct(s + [x], incoming[1..]);
    }
  }

  /** The two parts of a sequence without repeats share no element. */
  lemma DistinctApart<T>(a: seq<T>, b: seq<T>)
    requires Distinct(a + b)
    ensures forall x :: x in a ==> x !in b
  {
    forall i, j | 0 <= i < |a| && 0 <= j < |b|
      ensures a[i] != b[j]
    {
      assert (a + b)[i] == a[i] && (a + b)[|a| + j] == b[j];
    }
  }

  /**
   * When two sequences map to the same multiset, each element of the first maps
   * to the image of some element of the second.
   */
  lemma MapPermutationHit<A, B>(f: A -> B, s: seq<A>, t: seq<A>, k: nat)
    requires multiset(Map(f, s)) == multiset(Map(f, t)) && k < |s|
    ensures exists j :: 0 <= j < |t| && f(t[j]) == f(s[k])
  {
    MapAt(f, s, k);
    assert f(s[k]) in multiset(Map(f, t));
    var j :| 0 <= j < |t| && Map(f, t)[j] == f(s[k]);
    MapAt(f, t, j);
  }

  /** Mapping a sequence with one more element in front. */
  lemma MapCons<A, B>(f: A -> B, x: A, s: seq<A>)
    ensures Map(f, [x] + s) == [f(x)] + Map(f, s)
  {
    assert ([x] + s)[1..] == s;
  }

  /** Mapping distributes over concatenation. */
  lemma {:induction false} MapConcat<A, B>(f: A -> B, s: seq<A>, t: seq<A>)
    ensures Map(f, s + t) == Map(f, s) + Map(f, t)
    decreases |s|
  {
    if s == [] {
      assert s + t == t;
    } else {
      assert (s + t)[1..] == s[1..] + t;
      MapConcat(f, s[1..], t);
    }
  }

}
