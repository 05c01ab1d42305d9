// Decimal text of integers, as encoding/json and the time package write it.
module Decimal {

  datatype Option<+T> = None | Some(value: T) {
    predicate IsFailure() { None? }
    function PropagateFailure<U>(): Option<U>
      requires None?
    {
      None
    }
    function Extract(): T
      requires Some?
    {
      value
    }
  }

  predicate IsDigit(c: char) { '0' <= c <= '9' }

  predicate AllDigits(s: string) { forall i :: 0 <= i < |s| ==> IsDigit(s[i]) }

  function Digit(n: nat): (c: char)
    requires n < 10
    ensures IsDigit(c) && c as int - '0' as int == n
  {
    '0' + n as char
  }

  function Pow10(w: nat): (p: nat)
    ensures p > 0
  {
    if w == 0 then 1 else 10 * Pow10(w - 1)
  }

  /** The number a digit string denotes. */
  function Value(s: string): (n: nat)
    requires AllDigits(s)
  {
    if s == [] then 0 else 10 * Value(s[..|s| - 1]) + (s[|s| - 1] as int - '0' as int)
  }

  /** n in exactly w digits, zero-padded. */
  function Fixed(n: nat, w: nat): (s: string)
    requires n < Pow10(w)
    ensures |s| == w && AllDigits(s)
  {
    if w == 0 then [] else Fixed(n / 10, w - 1) + [Digit(n % 10)]
  }

  lemma {:induction false} ValueOfFixed(n: nat, w: nat)
    requires n < Pow10(w)
    ensures Value(Fixed(n, w)) == n
  {
    if w > 0 {
      ValueOfFixed(n / 10, w - 1);
      var s := Fixed(n, w);
      assert s[..|s| - 1] == Fixed(n / 10, w - 1);
    }
  }

  /** n without leading zeros. */
  function Natural(n: nat): (s: string)
    ensures s != [] && AllDigits(s)
  {
    if n < 10 then [Digit(n)] else Natural(n / 10) + [Digit(n % 10)]
  }

  lemma {:induction false} ValueOfNatural(n: nat)
    ensures Value(Natural(n)) == n
  {
    var s := Natural(n);
    if n < 10 {
      assert s[..|s| - 1] == [];
    } else {
      ValueOfNatural(n / 10);
      assert s[..|s| - 1] == Natural(n / 10);
    }
  }

  /** n in at least w digits (time.appendInt). */
  function Padded(n: nat, w: nat): (s: string)
    ensures AllDigits(s)
    ensures w > 0 ==> s != []
  {
    if n < Pow10(w) then Fixed(n, w) else Natural(n)
  }

  lemma ValueOfPadded(n: nat, w: nat)
    ensures Value(Padded(n, w)) == n
  {
    if n < Pow10(w) { ValueOfFixed(n, w); } else { ValueOfNatural(n); }
  }

  /** An integer in at least w digits, with a minus sign when negative. */
  function Signed(n: int, w: nat): (s: string)
    requires w > 0
  {
    if n < 0 then "-" + Padded(-n, w) else Padded(n, w)
  }

  /** strconv.Itoa. */
  function Itoa(n: int): (s: string) { Signed(n, 1) }

  /** The integer a signed digit string denotes. */
  function SignedValue(s: string): Option<int> {
    if s != [] && s[0] == '-' then
      if s[1..] != [] && AllDigits(s[1..]) then Some(-(Value(s[1..]) as int)) else None
    else
      if s != [] && AllDigits(s) then Some(Value(s)) else None
  }

  lemma SignedRoundTrip(n: int, w: nat)
    requires w > 0
    ensures SignedValue(Signed(n, w)) == Some(n)
  {
    var m := if n < 0 then -n else n;
    ValueOfPadded(m, w);
    if n < 0 {
      assert Signed(n, w)[1..] == Padded(m, w);
    } else {
      assert IsDigit(Signed(n, w)[0]);
    }
  }

  /** How many leading characters of s are digits. */
  function DigitRun(s: string): (k: nat)
    ensures k <= |s| && AllDigits(s[..k])
    ensures k < |s| ==> !IsDigit(s[k])
  {
    if s == [] || !IsDigit(s[0]) then 0
    else
      var k := DigitRun(s[1..]);
      assert forall i :: 0 <= i < k + 1 ==> IsDigit(s[i]) by {
        forall i | 0 <= i < k + 1 ensures IsDigit(s[i]) {
          if i > 0 { assert s[i] == s[1..][..k][i - 1]; }
        }
      }
      1 + k
  }

  /** Reads an integer from the start of s, returning it and what follows. */
  function ReadInt(s: string): (r: Option<(int, string)>)
    ensures r.Some? ==> |r.value.1| < |s|
  {
    var sign := if s != [] && s[0] == '-' then 1 else 0;
    var k := sign + DigitRun(s[sign..]);
    if k == sign then None else
    var v :- SignedValue(s[..k]);
    Some((v, s[k..]))
  }

  predicate StartsWithoutDigit(s: string) { s == [] || !IsDigit(s[0]) }

  lemma {:induction false} DigitRunOf(d: string, rest: string)
    requires AllDigits(d) && StartsWithoutDigit(rest)
    ensures DigitRun(d + rest) == |d|
  {
    if d == [] {
      assert d + rest == rest;
    } else {
      assert (d + rest)[0] == d[0] && (d + rest)[1..] == d[1..] + rest;
      DigitRunOf(d[1..], rest);
    }
  }

  /** Reading back a printed integer gives it and exactly what followed it. */
  lemma ReadIntRoundTrip(n: int, rest: string)
    requires StartsWithoutDigit(rest)
    ensures ReadInt(Itoa(n) + rest) == Some((n, rest))
  {
    var s := Itoa(n) + rest;
    var d := Padded(if n < 0 then -n else n, 1);
    SignedRoundTrip(n, 1);
    DigitRunOf(d, rest);
    if n < 0 {
      assert s[1..] == d + rest;
    } else {
      assert s[0] == d[0] && IsDigit(s[0]);
      assert s[0..] == d + rest;
    }
    assert s[..|Itoa(n)|] == Itoa(n);
    assert s[|Itoa(n)|..] == rest;
  }
}
