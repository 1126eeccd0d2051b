/** Printing an amount of factoshis as factoids (controlPanel/searchResultHandler.go:548-560). */
module Factoid {
  import opened Options

  const FACTOSHIS: nat := 100000000

  predicate IsDigit(c: char) {
    '0' <= c <= '9'
  }

  function Digit(d: nat): (c: char)
    requires d < 10
    ensures IsDigit(c) && DigitValue(c) == d
  {
    '0' + d as char
  }

  function DigitValue(c: char): nat
    requires IsDigit(c)
  {
    (c - '0') as nat
  }

  /** "%d" */
  function Decimal(n: nat): (s: string)
    ensures s != [] && AllDigits(s)
  {
    if n < 10 then [Digit(n)] else Decimal(n / 10) + [Digit(n % 10)]
  }

  /** "%0wd" of a number below 10 to the power of `w`. */
  function Padded(n: nat, w: nat): (s: string)
    ensures |s| == w && AllDigits(s)
  {
    if w == 0 then [] else Padded(n / 10, w - 1) + [Digit(n % 10)]
  }

  /** Without the zeros at the end. */
  function TrimZeros(s: string): (t: string)
    ensures t <= s
    ensures forall i :: |t| <= i < |s| ==> s[i] == '0'
    ensures t != [] ==> t[|t| - 1] != '0'
  {
    if s == [] || s[|s| - 1] != '0' then s else TrimZeros(s[..|s| - 1])
  }

  function FactoshiToFactoid(i: nat): string {
    var ds := Decimal(i / FACTOSHIS);
    var rs := TrimZeros(Padded(i % FACTOSHIS, 8));
    if |rs| > 0 then ds + "." + rs else ds
  }

  // ---------------------------------------------------------------- reading an amount

  predicate AllDigits(s: string) {
    forall i :: 0 <= i < |s| ==> IsDigit(s[i])
  }

  function Value(s: string): nat
    requires AllDigits(s)
  {
    if s == [] then 0 else Value(s[..|s| - 1]) * 10 + DigitValue(s[|s| - 1])
  }

  function Pow10(n: nat): nat {
    if n == 0 then 1 else 10 * Pow10(n - 1)
  }

  /** The position of the point, or the length. */
  function PointAt(s: string): (p: nat)
    ensures p <= |s|
    ensures forall i :: 0 <= i < p ==> s[i] != '.'
    ensures p < |s| ==> s[p] == '.'
  {
    if s == [] || s[0] == '.' then 0 else 1 + PointAt(s[1..])
  }

  /** Decimal places written out to the eighth. */
  function Eight(places: string): string
    requires |places| <= 8
  {
    places + seq(8 - |places|, _ => '0')
  }

  /** A decimal number with at most eight places, in units of the eighth place. */
  function Read(s: string): Option<nat> {
    var p := PointAt(s);
    if p == |s| then ReadParts(s, []) else if p + 1 == |s| then None else ReadParts(s[..p], s[p + 1..])
  }

  function ReadParts(whole: string, places: string): Option<nat> {
    if whole == [] || !AllDigits(whole) || !AllDigits(places) || |places| > 8 then None
    else Some(Value(whole) * FACTOSHIS + Value(Eight(places)))
  }

  lemma {:induction false} DecimalValue(n: nat)
    ensures Value(Decimal(n)) == n
  {
    if n < 10 {
      assert [Digit(n)][..0] == [];
    } else {
      DecimalValue(n / 10);
      assert Decimal(n)[..|Decimal(n)| - 1] == Decimal(n / 10);
    }
  }

  lemma {:induction false} PaddedValue(n: nat, w: nat)
    requires n < Pow10(w)
    ensures Value(Padded(n, w)) == n
    decreases w
  {
    if w > 0 {
      PaddedValue(n / 10, w - 1);
      assert Padded(n, w)[..w - 1] == Padded(n / 10, w - 1);
    }
  }

  lemma PointAfter(a: string, b: string)
    requires AllDigits(a)
    ensures PointAt(a + "." + b) == |a| && PointAt(a) == |a|
  {
    var s := a + "." + b;
    assert s[|a|] == '.';
    assert forall i :: 0 <= i < |a| ==> s[i] == a[i] && IsDigit(a[i]);
  }

  /** Reading a whole number and its places. */
  lemma ReadJoined(ds: string, rs: string)
    requires AllDigits(ds) && rs != []
    ensures PointAt(ds + "." + rs) == |ds|
    ensures Read(ds + "." + rs) == ReadParts(ds, rs)
  {
    PointAfter(ds, rs);
    var s := ds + "." + rs;
    assert s[..|ds|] == ds && s[|ds| + 1..] == rs;
  }

  lemma PlacesOf(r: nat)
    requires r < FACTOSHIS
    ensures Value(Eight(TrimZeros(Padded(r, 8)))) == r
    ensures TrimZeros(Padded(r, 8)) != [] <==> r != 0
  {
    var full := Padded(r, 8);
    var rs := TrimZeros(full);
    EightPlaces();
    PaddedValue(r, 8);
    assert Eight(rs) == full;
    if rs == [] {
      ZerosAreZero(full);
    } else {
      LastDigitCounts(full, |rs| - 1);
    }
  }

  /** Reading what was printed gives the amount back; the fraction has at most eight places and never
      ends in a zero, and there is a point exactly when there is a fraction. */
  lemma PrintedAmountReadsBack(i: nat)
    ensures Read(FactoshiToFactoid(i)) == Some(i)
    ensures var s := FactoshiToFactoid(i);
            && (PointAt(s) < |s| <==> i % FACTOSHIS != 0)
            && (PointAt(s) < |s| ==> PointAt(s) + 1 < |s| <= PointAt(s) + 9 && s[|s| - 1] != '0')
  {
    var ds, rs := Decimal(i / FACTOSHIS), TrimZeros(Padded(i % FACTOSHIS, 8));
    DecimalValue(i / FACTOSHIS);
    PlacesOf(i % FACTOSHIS);
    if rs == [] {
      PointAfter(ds, rs);
    } else {
      ReadJoined(ds, rs);
    }
    assert ReadParts(ds, rs) == Some(i);
  }

  lemma {:induction false} ZerosAreZero(s: string)
    requires forall i :: 0 <= i < |s| ==> s[i] == '0'
    ensures AllDigits(s) && Value(s) == 0
    decreases |s|
  {
    if s != [] {
      ZerosAreZero(s[..|s| - 1]);
    }
  }

  lemma {:induction false} LastDigitCounts(s: string, i: nat)
    requires AllDigits(s) && i < |s| && s[i] != '0'
    ensures Value(s) > 0
    decreases |s|
  {
    if i < |s| - 1 {
      LastDigitCounts(s[..|s| - 1], i);
    }
  }

  lemma EightPlaces()
    ensures Pow10(8) == FACTOSHIS
  {
    assert Pow10(2) == 100 && Pow10(4) == 10000 && Pow10(6) == 1000000;
  }
}
