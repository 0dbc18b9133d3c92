/** Positional notation, most significant digit first, in any base. */
module Radix {
  import opened Arith

  ghost predicate InBase(ds: seq<nat>, base: nat) {
    forall i :: 0 <= i < |ds| ==> ds[i] < base
  }

  function Value(ds: seq<nat>, base: nat): nat {
    if ds == [] then 0 else Value(ds[..|ds| - 1], base) * base + ds[|ds| - 1]
  }

  /** The digits of `n`, without leading zeros; zero has none. */
  function Digits(n: nat, base: nat): (ds: seq<nat>)
    requires base >= 2
    ensures InBase(ds, base)
    ensures ds != [] ==> ds[0] != 0
    ensures ds == [] <==> n == 0
  {
    if n == 0 then [] else
    QuotientShrinks(n, base);
    Digits(n / base, base) + [n % base]
  }

  lemma QuotientShrinks(n: nat, base: nat)
    requires n > 0 && base >= 2
    ensures n / base < n
    ensures n / base == 0 ==> n % base == n
  {
    var q := n / base;
    assert n == base * q + n % base;
    if q > 0 {
      assert base * q >= 2 * q;
    }
  }

  function LeadingZeros(ds: seq<nat>): (k: nat)
    ensures k <= |ds| && (k < |ds| ==> ds[k] != 0)
    ensures forall i :: 0 <= i < k ==> ds[i] == 0
  {
    if ds == [] || ds[0] != 0 then 0 else 1 + LeadingZeros(ds[1..])
  }

  function Zeros(k: nat): seq<nat> {
    seq(k, _ => 0)
  }

  lemma {:induction false} ValueOfDigits(n: nat, base: nat)
    requires base >= 2
    ensures Value(Digits(n, base), base) == n
    decreases n
  {
    hide Value;
    if n == 0 {
      ValueOfNothing(base);
    } else {
      QuotientShrinks(n, base);
      ValueOfDigits(n / base, base);
      ValueSnoc(Digits(n / base, base), n % base, base);
      DivideAndMultiply(n, base);
    }
  }

  lemma ValueOfNothing(base: nat)
    ensures Value([], base) == 0
  {
  }

  lemma ValueSnoc(ds: seq<nat>, d: nat, base: nat)
    ensures Value(ds + [d], base) == Value(ds, base) * base + d
  {
    assert (ds + [d])[..|ds + [d]| - 1] == ds;
  }

  lemma DivideAndMultiply(n: nat, base: nat)
    requires base > 0
    ensures n / base * base + n % base == n
  {
  }

  function Power(base: nat, k: nat): nat {
    if k == 0 then 1 else base * Power(base, k - 1)
  }

  /** Place by place from the left: a digit with `k` digits after it counts `base` to the `k`. */
  function PlaceValue(ds: seq<nat>, base: nat): nat {
    if ds == [] then 0 else ds[0] * Power(base, |ds| - 1) + PlaceValue(ds[1..], base)
  }

  lemma {:induction false} PlaceSnoc(ds: seq<nat>, d: nat, base: nat)
    ensures PlaceValue(ds + [d], base) == PlaceValue(ds, base) * base + d
  {
    hide Power;
    if ds == [] {
      assert [d][1..] == [];
      PowerZero(base);
    } else {
      var all := ds + [d];
      assert all[1..] == ds[1..] + [d];
      PlaceSnoc(ds[1..], d, base);
      PowerStep(base, |ds|);
      ShiftPlace(ds[0], Power(base, |ds| - 1), PlaceValue(ds[1..], base), base);
    }
  }

  lemma PowerZero(base: nat)
    ensures Power(base, 0) == 1
  {
  }

  lemma PowerStep(base: nat, k: nat)
    requires k > 0
    ensures Power(base, k) == base * Power(base, k - 1)
  {
  }

  lemma ShiftPlace(d: nat, p: nat, rest: nat, base: nat)
    ensures d * (base * p) + rest * base == (d * p + rest) * base
  {
    assert d * (base * p) == d * p * base;
  }

  /** The value of digits is their place value. */
  lemma {:induction false} ValueIsPlaceValue(ds: seq<nat>, base: nat)
    ensures Value(ds, base) == PlaceValue(ds, base)
    decreases |ds|
  {
    if ds != [] {
      var init, d := ds[..|ds| - 1], ds[|ds| - 1];
      ValueIsPlaceValue(init, base);
      PlaceSnoc(init, d, base);
      assert ds == init + [d];
    }
  }

  /** Reading digits and writing them again only drops the leading zeros. */
  lemma {:induction false} DigitsOfValue(ds: seq<nat>, base: nat)
    requires base >= 2 && InBase(ds, base)
    ensures Digits(Value(ds, base), base) == ds[LeadingZeros(ds)..]
    decreases |ds|
  {
    if ds != [] {
      hide LeadingZeros, Digits, Value;
      var init, d := ds[..|ds| - 1], ds[|ds| - 1];
      assert ds == init + [d];
      DigitsOfValue(init, base);
      OneMoreDigit(init, d, base);
    }
  }

  lemma OneMoreDigit(init: seq<nat>, d: nat, base: nat)
    requires base >= 2 && d < base && Digits(Value(init, base), base) == init[LeadingZeros(init)..]
    ensures Digits(Value(init + [d], base), base) == (init + [d])[LeadingZeros(init + [d])..]
  {
    hide LeadingZeros, Digits, Value, InBase;
    ValueSnoc(init, d, base);
    ValueZeroIff(init, base);
    DigitsSnoc(Value(init, base), d, base);
    DropZeros(init, d);
  }

  /** Dropping the leading zeros of a list with one more digit at its end. */
  lemma DropZeros(init: seq<nat>, d: nat)
    ensures var k := LeadingZeros(init);
            (init + [d])[LeadingZeros(init + [d])..] == if k == |init| && d == 0 then [] else init[k..] + [d]
  {
    hide LeadingZeros;
    var k := LeadingZeros(init);
    FirstNonZero(init, d);
    if k < |init| || d != 0 {
      SliceSnoc(init, d, k);
    }
  }

  lemma SliceSnoc(init: seq<nat>, d: nat, k: nat)
    requires k <= |init|
    ensures (init + [d])[k..] == init[k..] + [d]
  {
  }

  /** Only zeros are worth nothing. */
  lemma {:induction false} ValueZeroIff(ds: seq<nat>, base: nat)
    requires base >= 2
    ensures Value(ds, base) == 0 <==> LeadingZeros(ds) == |ds|
    decreases |ds|
  {
    hide LeadingZeros, Value;
    if ds == [] {
      ValueOfNothing(base);
    } else {
      var init, d := ds[..|ds| - 1], ds[|ds| - 1];
      assert ds == init + [d];
      ValueZeroIff(init, base);
      ValueSnoc(init, d, base);
      FirstNonZero(init, d);
      Grows(Value(init, base), base);
    }
  }

  lemma Grows(v: nat, base: nat)
    requires base > 0
    ensures v * base == 0 <==> v == 0
  {
    if v > 0 {
      MulGrows(v, base);
    }
  }

  lemma DigitsSnoc(v: nat, d: nat, base: nat)
    requires base >= 2 && d < base
    ensures Digits(v * base + d, base) == if v == 0 && d == 0 then [] else Digits(v, base) + [d]
  {
    DivModUnique(v * base + d, base, v, d);
    if v > 0 {
      MulGrows(v, base);
    }
  }

  lemma LeadingZerosIs(ds: seq<nat>, k: nat)
    requires k <= |ds| && (k < |ds| ==> ds[k] != 0)
    requires forall i :: 0 <= i < k ==> ds[i] == 0
    ensures LeadingZeros(ds) == k
  {
  }

  lemma FirstNonZero(init: seq<nat>, d: nat)
    ensures var k := LeadingZeros(init);
            LeadingZeros(init + [d]) == if k < |init| || d != 0 then k else k + 1
  {
    var k := LeadingZeros(init);
    LeadingZerosIs(init + [d], if k < |init| || d != 0 then k else k + 1);
  }

  lemma {:induction false} ValueIgnoresZeros(k: nat, ds: seq<nat>, base: nat)
    ensures Value(Zeros(k) + ds, base) == Value(ds, base)
    decreases |ds|, k
  {
    hide Value;
    if ds != [] {
      var init, d := ds[..|ds| - 1], ds[|ds| - 1];
      ValueIgnoresZeros(k, init, base);
      ValueSnoc(init, d, base);
      ValueSnoc(Zeros(k) + init, d, base);
      assert ds == init + [d] && Zeros(k) + ds == Zeros(k) + init + [d];
    } else if k > 0 {
      ValueIgnoresZeros(k - 1, ds, base);
      ValueSnoc(Zeros(k - 1), 0, base);
      ValueOfNothing(base);
      assert Zeros(k) + ds == Zeros(k - 1) + [0] && Zeros(k - 1) + ds == Zeros(k - 1);
    }
  }

  /** Change of base that keeps one leading zero for each leading zero. */
  function Convert(ds: seq<nat>, base: nat, base': nat): seq<nat>
    requires base' >= 2
  {
    Zeros(LeadingZeros(ds)) + Digits(Value(ds, base), base')
  }

  lemma ConvertBack(ds: seq<nat>, base: nat, base': nat)
    requires base >= 2 && base' >= 2 && InBase(ds, base)
    ensures InBase(Convert(ds, base, base'), base')
    ensures Convert(Convert(ds, base, base'), base', base) == ds
  {
    hide Value, Digits, LeadingZeros;
    var k, n := LeadingZeros(ds), Value(ds, base);
    var out := Convert(ds, base, base');
    LeadingZerosIs(out, k);
    ValueIgnoresZeros(k, Digits(n, base'), base');
    ValueOfDigits(n, base');
    DigitsOfValue(ds, base);
    assert ds == Zeros(k) + ds[k..];
  }

  // ---- fixed-width big-endian bytes, as the runtime writes them ----

  function BitLength(n: nat): nat {
    if n == 0 then 0 else 1 + BitLength(n / 2)
  }

  /** `len` big-endian bytes; the caller must leave room for all of `n`. */
  function ToBytes(n: nat, len: nat): seq<nat>
    decreases len
  {
    if len == 0 then [] else ToBytes(n / 256, len - 1) + [n % 256]
  }

  lemma EightHalvings(n: nat)
    ensures n / 2 / 2 / 2 / 2 / 2 / 2 / 2 / 2 == n / 256
  {
  }

  lemma BitLengthStep(n: nat)
    requires n >= 256
    ensures BitLength(n) == 8 + BitLength(n / 256)
  {
    EightHalvings(n);
    var a := n / 2; var b := a / 2; var c := b / 2; var d := c / 2;
    var e := d / 2; var f := e / 2; var g := f / 2; var h := g / 2;
    assert BitLength(n) == 4 + BitLength(d) by {
      assert BitLength(n) == 2 + BitLength(b);
      assert BitLength(b) == 2 + BitLength(d);
    }
    assert BitLength(d) == 4 + BitLength(h) by {
      assert BitLength(d) == 2 + BitLength(f);
      assert BitLength(f) == 2 + BitLength(h);
    }
  }

  lemma BitLengthSmall(n: nat)
    requires 0 < n < 256
    ensures 1 <= BitLength(n) <= 8
  {
    var b := n / 2 / 2;
    var d := b / 2 / 2;
    var f := d / 2 / 2;
    assert BitLength(f / 2) <= 1;
    assert BitLength(f) <= 2;
    assert BitLength(d) <= 4;
    assert BitLength(b) <= 6;
  }

  /** Rounding the bit length up to whole bytes leaves exactly the digits in base 256. */
  lemma {:induction false} MinimalBytes(n: nat)
    ensures (BitLength(n) + 7) / 8 == |Digits(n, 256)|
    ensures ToBytes(n, (BitLength(n) + 7) / 8) == Digits(n, 256)
    decreases n
  {
    if n >= 256 {
      BitLengthStep(n);
      MinimalBytes(n / 256);
    } else if n > 0 {
      BitLengthSmall(n);
      assert Digits(n, 256) == Digits(0, 256) + [n];
      assert ToBytes(n, 1) == ToBytes(0, 0) + [n];
    }
  }
}
