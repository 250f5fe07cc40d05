/**
 * The few pieces of Java's standard library that the simulator's core relies on,
 * written out with Java's semantics: 32-bit int bounds and wrap-around, integer
 * division rounding toward zero, Math.min, String.trim, String.split on a
 * single-character separator, Integer.parseInt and Integer.toString.
 */
module JavaLang {
  import opened Wrappers

  const INT_MIN: int := -0x8000_0000
  const INT_MAX: int := 0x7fff_ffff
  const TWO_TO_32: int := 0x1_0000_0000

  predicate InIntRange(x: int) {
    INT_MIN <= x <= INT_MAX
  }

  /** Two's-complement wrap-around of a mathematical integer into an int. */
  function Wrap32(x: int): (r: int)
    ensures InIntRange(r)
    ensures InIntRange(x) ==> r == x
    ensures (x - r) % TWO_TO_32 == 0
  {
    (x - INT_MIN) % TWO_TO_32 + INT_MIN
  }

  /** Math.min(int, int). */
  function Min(a: int, b: int): (m: int)
    ensures m <= a && m <= b
    ensures m == a || m == b
  {
    if a <= b then a else b
  }

  /** Java's int division by a positive divisor: the quotient is rounded toward zero. */
  function TruncDiv(a: int, b: int): (q: int)
    requires b > 0
    ensures a >= 0 ==> 0 <= a - q * b < b
    ensures a < 0 ==> -b < a - q * b <= 0
  {
    if a >= 0 then a / b else -((-a) / b)
  }

  // ---------------------------------------------------------------- String.trim

  /** String.trim() removes every leading and trailing character whose code is at most U+0020. */
  predicate Trimmable(c: char) {
    c <= ' '
  }

  /** String.trim(): the leading characters, then the trailing ones, go while they are trimmable. */
  function Trim(s: string): (r: string)
    ensures |r| <= |s|
    ensures r != [] ==> !Trimmable(r[0]) && !Trimmable(r[|r| - 1])
    ensures (s == [] || (!Trimmable(s[0]) && !Trimmable(s[|s| - 1]))) ==> r == s
    decreases |s|
  {
    if s != [] && Trimmable(s[0]) then Trim(s[1..])
    else if s != [] && Trimmable(s[|s| - 1]) then Trim(s[..|s| - 1])
    else s
  }

  /** Every character of s is trimmable. */
  predicate AllTrimmable(s: string) {
    forall k :: 0 <= k < |s| ==> Trimmable(s[k])
  }

  lemma AllTrimmableConcat(x: string, y: string)
    requires AllTrimmable(x) && AllTrimmable(y)
    ensures AllTrimmable(x + y)
  {
    assert forall k :: 0 <= k < |x + y| ==> (x + y)[k] == if k < |x| then x[k] else y[k - |x|];
  }

  /** r sits in s at a with only trimmable characters around it. */
  predicate Surrounded(s: string, a: nat, r: string) {
    && a + |r| <= |s|
    && s == s[..a] + r + s[a + |r|..]
    && AllTrimmable(s[..a]) && AllTrimmable(s[a + |r|..])
  }

  lemma SurroundedPrepend(c: char, t: string, b: nat, r: string)
    requires Trimmable(c) && Surrounded(t, b, r)
    ensures Surrounded([c] + t, b + 1, r)
  {
    var s := [c] + t;
    assert s[..b + 1] == [c] + t[..b];
    assert s[b + 1 + |r|..] == t[b + |r|..];
    AllTrimmableConcat([c], t[..b]);
  }

  lemma SurroundedAppend(t: string, c: char, a: nat, r: string)
    requires Trimmable(c) && Surrounded(t, a, r)
    ensures Surrounded(t + [c], a, r)
  {
    var s := t + [c];
    assert s[..a] == t[..a];
    assert s[a + |r|..] == t[a + |r|..] + [c];
    AllTrimmableConcat(t[a + |r|..], [c]);
  }

  /**
   * What trim keeps is a stretch of the text starting at a, and all that goes
   * before and after it is trimmable.
   */
  lemma {:induction false} TrimKeepsMiddle(s: string) returns (a: nat)
    ensures Surrounded(s, a, Trim(s))
    decreases |s|
  {
    if s != [] && Trimmable(s[0]) {
      var t := s[1..];
      var b := TrimKeepsMiddle(t);
      SurroundedPrepend(s[0], t, b, Trim(t));
      assert [s[0]] + t == s;
      assert Trim(s) == Trim(t);
      a := b + 1;
    } else if s != [] && Trimmable(s[|s| - 1]) {
      var t := s[..|s| - 1];
      a := TrimKeepsMiddle(t);
      SurroundedAppend(t, s[|s| - 1], a, Trim(t));
      assert t + [s[|s| - 1]] == s;
      assert Trim(s) == Trim(t);
    } else {
      a := 0;
      assert s[..0] == [] && s[|s|..] == [];
    }
  }

  // --------------------------------------------------------------- String.split

  /** The pieces joined back with the separator between them. */
  function Join(parts: seq<string>, sep: char): string
    requires parts != []
  {
    if |parts| == 1 then parts[0] else parts[0] + [sep] + Join(parts[1..], sep)
  }

  /** Two pieces joined. */
  lemma JoinTwo(a: string, b: string, sep: char)
    ensures Join([a, b], sep) == a + [sep] + b
  {
    assert [a, b][1..] == [b];
  }

  /** Three pieces joined. */
  lemma JoinThree(a: string, b: string, c: string, sep: char)
    ensures Join([a, b, c], sep) == a + [sep] + b + [sep] + c
  {
    assert [a, b, c][1..] == [b, c];
    JoinTwo(b, c, sep);
  }

  /** Every piece of s between separators, empty pieces included. */
  function SplitAll(s: string, sep: char): (parts: seq<string>)
    ensures parts != []
  {
    if s == [] then [[]]
    else
      var rest := SplitAll(s[1..], sep);
      if s[0] == sep then [[]] + rest
      else [[s[0]] + rest[0]] + rest[1..]
  }

  /** No piece of a split holds the separator. */
  lemma {:induction false} SplitAllSeparatorFree(s: string, sep: char)
    ensures forall i :: 0 <= i < |SplitAll(s, sep)| ==> sep !in SplitAll(s, sep)[i]
  {
    if s != [] {
      var rest := SplitAll(s[1..], sep);
      SplitAllSeparatorFree(s[1..], sep);
      if s[0] != sep {
        assert forall i :: 1 <= i < |SplitAll(s, sep)| ==> SplitAll(s, sep)[i] == rest[i];
      }
    }
  }

  /** The pieces of a split, joined back with the separator, give the text. */
  lemma {:induction false} SplitAllRejoins(s: string, sep: char)
    ensures Join(SplitAll(s, sep), sep) == s
  {
    if s != [] {
      var rest := SplitAll(s[1..], sep);
      SplitAllRejoins(s[1..], sep);
      if s[0] == sep {
        assert s == [sep] + s[1..];
        assert ([[]] + rest)[1..] == rest;
      } else {
        var parts := [[s[0]] + rest[0]] + rest[1..];
        assert parts[1..] == rest[1..];
        if |rest| == 1 {
          assert s == [s[0]] + s[1..];
        } else {
          assert Join(rest, sep) == rest[0] + [sep] + Join(rest[1..], sep);
          assert Join(parts, sep) == [s[0]] + Join(rest, sep);
        }
      }
    }
  }

  /** Removes the empty strings at the end of a split result. */
  function DropTrailingEmpty(parts: seq<string>): (r: seq<string>)
    ensures |r| <= |parts|
  {
    if parts != [] && parts[|parts| - 1] == [] then DropTrailingEmpty(parts[..|parts| - 1]) else parts
  }

  /** What is dropped is the empty pieces at the end, and what is kept ends in a non-empty one. */
  lemma {:induction false} DropTrailingEmptyKeepsPrefix(parts: seq<string>)
    ensures DropTrailingEmpty(parts) == parts[..|DropTrailingEmpty(parts)|]
    ensures DropTrailingEmpty(parts) != [] ==> DropTrailingEmpty(parts)[|DropTrailingEmpty(parts)| - 1] != []
    ensures forall i :: |DropTrailingEmpty(parts)| <= i < |parts| ==> parts[i] == []
    decreases |parts|
  {
    if parts != [] && parts[|parts| - 1] == [] {
      DropTrailingEmptyKeepsPrefix(parts[..|parts| - 1]);
    }
  }

  /**
   * String.split(sep) for a separator that is one ordinary character: the input
   * itself when the separator does not occur, otherwise every piece with the
   * trailing empty pieces removed.
   */
  function JavaSplit(s: string, sep: char): seq<string> {
    if sep !in s then [s] else DropTrailingEmpty(SplitAll(s, sep))
  }

  lemma {:induction false} SplitAllNoSeparator(s: string, sep: char)
    requires sep !in s
    ensures SplitAll(s, sep) == [s]
  {
    if s != [] {
      SplitAllNoSeparator(s[1..], sep);
      assert [s[0]] + s[1..] == s;
    }
  }

  lemma {:induction false} SplitAllAfterPiece(a: string, sep: char, b: string)
    requires sep !in a
    ensures SplitAll(a + [sep] + b, sep) == [a] + SplitAll(b, sep)
  {
    if a == [] {
      assert a + [sep] + b == [sep] + b;
      assert ([sep] + b)[1..] == b;
    } else {
      var s := a + [sep] + b;
      assert s[1..] == a[1..] + [sep] + b;
      SplitAllAfterPiece(a[1..], sep, b);
      assert [a[0]] + a[1..] == a;
    }
  }

  /** Splitting undoes joining when no piece contains the separator. */
  lemma {:induction false} SplitAllJoin(parts: seq<string>, sep: char)
    requires parts != []
    requires forall i :: 0 <= i < |parts| ==> sep !in parts[i]
    ensures SplitAll(Join(parts, sep), sep) == parts
  {
    if |parts| == 1 {
      SplitAllNoSeparator(parts[0], sep);
    } else {
      SplitAllJoin(parts[1..], sep);
      SplitAllAfterPiece(parts[0], sep, Join(parts[1..], sep));
      assert [parts[0]] + parts[1..] == parts;
    }
  }

  /** Splitting a join of non-empty, separator-free pieces (at least two) gives the pieces back. */
  lemma JavaSplitJoin(parts: seq<string>, sep: char)
    requires |parts| >= 2
    requires forall i :: 0 <= i < |parts| ==> sep !in parts[i] && parts[i] != []
    ensures JavaSplit(Join(parts, sep), sep) == parts
  {
    SplitAllJoin(parts, sep);
    var s := Join(parts, sep);
    assert s == parts[0] + [sep] + Join(parts[1..], sep);
    assert s[|parts[0]|] == sep;
  }

  // ------------------------------------------------- Integer.parseInt / toString

  predicate IsDigit(c: char) {
    '0' <= c <= '9'
  }

  predicate AllDigits(s: string) {
    forall k :: 0 <= k < |s| ==> IsDigit(s[k])
  }

  function DigitChar(d: nat): (c: char)
    requires d < 10
    ensures IsDigit(c)
  {
    ('0' as int + d) as char
  }

  /** The number a string of decimal digits denotes. */
  function DigitsValue(s: string): nat
    requires AllDigits(s)
  {
    if s == [] then 0 else DigitsValue(s[..|s| - 1]) * 10 + ((s[|s| - 1] as int) - ('0' as int))
  }

  /**
   * Integer.parseInt(s) for text made of ASCII characters: an optional '+' or '-'
   * followed by at least one decimal digit, denoting a value within int range;
   * None stands for the NumberFormatException thrown otherwise.
   */
  function ParseInt(s: string): (r: Option<int>)
    ensures r.Some? ==> InIntRange(r.value)
    ensures r.Some? ==> s != [] && (s[0] == '-' || s[0] == '+' || IsDigit(s[0]))
  {
    if s == [] then None
    else
      var digits := if s[0] == '-' || s[0] == '+' then s[1..] else s;
      if digits == [] || !AllDigits(digits) then None
      else
        var v: int := if s[0] == '-' then -(DigitsValue(digits) as int) else DigitsValue(digits);
        if InIntRange(v) then Some(v) else None
  }

  /** The decimal digits of n, without leading zeros. */
  function NatToString(n: nat): (r: string)
    ensures r != [] && AllDigits(r)
    ensures DigitsValue(r) == n
    ensures |r| > 1 ==> r[0] != '0'
  {
    if n < 10 then [DigitChar(n)]
    else
      var r := NatToString(n / 10) + [DigitChar(n % 10)];
      assert r[..|r| - 1] == NatToString(n / 10);
      r
  }

  /** 10 to the power d. */
  function Power10(d: nat): nat {
    if d == 0 then 1 else 10 * Power10(d - 1)
  }

  /** A natural number below 10^d has at most d digits. */
  lemma {:induction false} NatToStringLength(n: nat, d: nat)
    requires d >= 1 && n < Power10(d)
    ensures |NatToString(n)| <= d
    decreases d
  {
    if n >= 10 {
      assert d != 1;
      NatToStringLength(n / 10, d - 1);
    }
  }

  /** Integer.toString(n), the text Java's string concatenation produces for an int. */
  function IntToString(n: int): (r: string)
    ensures r != [] && !Trimmable(r[0]) && !Trimmable(r[|r| - 1])
    ensures forall k :: 0 <= k < |r| ==> r[k] == '-' || IsDigit(r[k])
  {
    if n < 0 then "-" + NatToString(-n) else NatToString(n)
  }

  /** Parsing the text of an int gives the int back. */
  lemma ParseIntToString(n: int)
    requires InIntRange(n)
    ensures ParseInt(IntToString(n)) == Some(n)
  {
    var s := IntToString(n);
    if n < 0 {
      assert s[1..] == NatToString(-n);
    } else {
      assert IsDigit(s[0]);
    }
  }
}
