/** Decimal text for numbers, as JavaScript's `String(n)` and `Array.prototype.join(',')`
    produce it for integer values, together with the reading-back functions that serve
    as their partners (a reference reader of these parts). */
module Decimal {
  import opened Wrappers

  predicate IsDigit(c: char) {
    '0' <= c <= '9'
  }

  predicate AllDigits(s: string) {
    forall i :: 0 <= i < |s| ==> IsDigit(s[i])
  }

  function DigitValue(c: char): (d: nat)
    requires IsDigit(c)
    ensures d < 10
  {
    c as int - '0' as int
  }

  function DigitChar(d: nat): (c: char)
    requires d < 10
    ensures IsDigit(c) && DigitValue(c) == d
  {
    ('0' as int + d) as char
  }

  /** Decimal digits of `n`, most significant first, without leading zeros. */
  function NatToString(n: nat): (s: string)
    ensures |s| > 0 && AllDigits(s)
    ensures s[0] == '0' ==> n == 0
  {
    if n < 10 then [DigitChar(n)] else NatToString(n / 10) + [DigitChar(n % 10)]
  }

  /** `String(n)` for an integer-valued number: an optional minus sign, then the digits. */
  function IntToString(i: int): (s: string)
    ensures |s| > 0 && ',' !in s
  {
    if i < 0 then "-" + NatToString(-i) else NatToString(i)
  }

  /** The value of a string of digits, read most significant first. */
  function DigitsValue(s: string): nat
    requires AllDigits(s)
  {
    if s == [] then 0 else DigitsValue(s[..|s| - 1]) * 10 + DigitValue(s[|s| - 1])
  }

  /** Reads an optionally signed decimal integer; anything else is rejected. */
  function ParseInt(s: string): Option<int> {
    if |s| > 1 && s[0] == '-' && AllDigits(s[1..]) then Some(-(DigitsValue(s[1..]) as int))
    else if |s| > 0 && AllDigits(s) then Some(DigitsValue(s))
    else None
  }

  lemma {:induction false} DigitsValueOfNat(n: nat)
    ensures DigitsValue(NatToString(n)) == n
  {
    if n >= 10 {
      var s := NatToString(n);
      assert s[..|s| - 1] == NatToString(n / 10);
      DigitsValueOfNat(n / 10);
    }
  }

  /** Reading back the text of any integer gives that integer. */
  lemma ParseIntToString(i: int)
    ensures ParseInt(IntToString(i)) == Some(i)
  {
    var s := IntToString(i);
    if i < 0 {
      assert s[1..] == NatToString(-i);
      DigitsValueOfNat(-i);
    } else {
      DigitsValueOfNat(i);
    }
  }

  /** `ids.join(',')`: the texts of the ids separated by commas, in order. */
  function JoinIds(ids: seq<int>): string {
    if ids == [] then ""
    else if |ids| == 1 then IntToString(ids[0])
    else IntToString(ids[0]) + "," + JoinIds(ids[1..])
  }

  /** `s.split(',')`: the comma-free pieces of `s`, always at least one. */
  function Split(s: string): (pieces: seq<string>)
    ensures |pieces| > 0
  {
    if s == [] then [""]
    else
      var rest := Split(s[1..]);
      if s[0] == ',' then [""] + rest else [[s[0]] + rest[0]] + rest[1..]
  }

  function ParseAll(pieces: seq<string>): Option<seq<int>> {
    if pieces == [] then Some([])
    else
      var head, tail := ParseInt(pieces[0]), ParseAll(pieces[1..]);
      if head.Some? && tail.Some? then Some([head.value] + tail.value) else None
  }

  /** Reads a comma-joined list of integers back. */
  function DecodeIds(s: string): Option<seq<int>> {
    ParseAll(Split(s))
  }

  lemma {:induction false} SplitPrefix(a: string, t: string)
    requires ',' !in a
    ensures Split(a + t) == [a + Split(t)[0]] + Split(t)[1..]
  {
    if a != [] {
      assert (a + t)[1..] == a[1..] + t;
      SplitPrefix(a[1..], t);
      assert [a[0]] + (a[1..] + Split(t)[0]) == a + Split(t)[0];
    } else {
      assert a + t == t;
      var pieces := Split(t);
      assert a + pieces[0] == pieces[0];
      assert pieces == [pieces[0]] + pieces[1..];
    }
  }

  lemma SplitSingle(a: string)
    requires ',' !in a
    ensures Split(a) == [a]
  {
    SplitPrefix(a, "");
    assert a + "" == a;
  }

  lemma SplitJoinStep(a: string, t: string)
    requires ',' !in a
    ensures Split(a + "," + t) == [a] + Split(t)
  {
    assert a + "," + t == a + ("," + t);
    SplitPrefix(a, "," + t);
    assert ("," + t)[1..] == t;
    assert a + "" == a;
  }

  /** Joining a non-empty list of ids and reading it back gives the same ids in the
      same order. */
  lemma {:induction false} DecodeJoinIds(ids: seq<int>)
    requires |ids| > 0
    ensures DecodeIds(JoinIds(ids)) == Some(ids)
  {
    var head := IntToString(ids[0]);
    ParseIntToString(ids[0]);
    if |ids| == 1 {
      SplitSingle(head);
      assert JoinIds(ids) == head;
      assert [head][1..] == [] && ParseAll([]) == Some([]);
      assert ids == [ids[0]] + [];
    } else {
      var tail := JoinIds(ids[1..]);
      SplitJoinStep(head, tail);
      DecodeJoinIds(ids[1..]);
      assert ([head] + Split(tail))[1..] == Split(tail);
      assert ids == [ids[0]] + ids[1..];
    }
  }
}
