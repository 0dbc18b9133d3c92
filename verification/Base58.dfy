/** The hand-written base58 encoder and decoder of the IDL generator. */
module Base58 {
  import opened Basics
  import opened Radix

  const B58: string := "123456789" + "ABCDEFGHJKLMNPQRSTUVWXYZ" + "abcdefghijkmnopqrstuvwxyz"

  /** Position of the first occurrence, or the length when there is none. */
  function IndexIn(s: string, c: char): (i: nat)
    ensures i <= |s| && (i < |s| ==> s[i] == c) && (i == |s| ==> c !in s)
    ensures forall j :: 0 <= j < i ==> s[j] != c
  {
    if s == [] || s[0] == c then 0 else 1 + IndexIn(s[1..], c)
  }

  predicate OverAlphabet(text: string) {
    forall i :: 0 <= i < |text| ==> text[i] in B58
  }

  function Spell(ds: seq<nat>): string
    requires InBase(ds, 58)
    ensures |Spell(ds)| == |ds|
  {
    seq(|ds|, i requires 0 <= i < |ds| => B58[ds[i]])
  }

  function Unspell(text: string): (ds: seq<nat>)
    requires OverAlphabet(text)
    ensures InBase(ds, 58) && |ds| == |text|
  {
    seq(|text|, i requires 0 <= i < |text| => IndexIn(B58, text[i]))
  }

  function Encode(raw: seq<Byte>): string {
    Spell(Convert(raw, 256, 58))
  }

  /** `None` stands for the exception a character outside the alphabet raises. */
  function Decode(text: string): Option<seq<Byte>> {
    if !OverAlphabet(text) then None else
    var ds := Unspell(text);
    var out := Convert(ds, 58, 256);
    ConvertBack(ds, 58, 256);
    Some(seq(|out|, i requires 0 <= i < |out| => out[i]))
  }

  predicate Increasing(s: string) {
    forall i :: 0 <= i < |s| - 1 ==> s[i] < s[i + 1]
  }

  lemma {:induction false} IncreasingAt(s: string, i: nat, j: nat)
    requires Increasing(s) && i < j < |s|
    ensures s[i] < s[j]
    decreases j
  {
    if i < j - 1 {
      IncreasingAt(s, i, j - 1);
    }
  }

  /** The alphabet is strictly increasing, so no character occurs twice. */
  lemma AlphabetPosition(i: nat)
    requires i < 58
    ensures |B58| == 58 && IndexIn(B58, B58[i]) == i
  {
    assert Increasing("123456789" + "ABCDEFGHJKLMNPQRSTUVWXYZ");
    assert Increasing(B58);
    var j := IndexIn(B58, B58[i]);
    if j < i {
      IncreasingAt(B58, j, i);
    }
  }

  lemma UnspellSpell(ds: seq<nat>)
    requires InBase(ds, 58)
    ensures OverAlphabet(Spell(ds)) && Unspell(Spell(ds)) == ds
  {
    forall i | 0 <= i < |ds|
      ensures Spell(ds)[i] in B58 && IndexIn(B58, Spell(ds)[i]) == ds[i]
    {
      AlphabetPosition(ds[i]);
    }
  }

  lemma SpellUnspell(text: string)
    requires OverAlphabet(text)
    ensures Spell(Unspell(text)) == text
  {
  }

  /** Decoding an encoding gives back every byte string, leading zeros included. */
  lemma DecodeEncode(raw: seq<Byte>)
    ensures Decode(Encode(raw)) == Some(raw)
  {
    hide Convert;
    ConvertBack(raw, 256, 58);
    UnspellSpell(Convert(raw, 256, 58));
    assert Decode(Encode(raw)).value == raw;
  }

  /** Encoding a decoding gives back every text over the alphabet; other texts are refused. */
  lemma EncodeDecode(text: string)
    ensures Decode(text).None? <==> !OverAlphabet(text)
    ensures Decode(text).Some? ==> Encode(Decode(text).value) == text
  {
    if OverAlphabet(text) {
      var ds := Unspell(text);
      ConvertBack(ds, 58, 256);
      assert Decode(text).value == Convert(ds, 58, 256);
      SpellUnspell(text);
    }
  }

  /** Which letter stands for a digit: the digits and letters in order, without 0, I, O and l. */
  lemma LetterOf(d: nat)
    requires d < 58
    ensures |B58| == 58
    ensures B58[d] as int == (if d < 9 then '1' as int + d else if d < 17 then 'A' as int + d - 9
                              else if d < 22 then 'J' as int + d - 17 else if d < 33 then 'P' as int + d - 22
                              else if d < 44 then 'a' as int + d - 33 else 'm' as int + d - 44)
  {
    if d < 33 {
      CapitalOf(d);
    } else {
      SmallOf(d - 33);
    }
  }

  lemma CapitalOf(d: nat)
    requires d < 33
    ensures ("123456789" + "ABCDEFGHJKLMNPQRSTUVWXYZ")[d] as int
         == (if d < 9 then '1' as int + d else if d < 17 then 'A' as int + d - 9
             else if d < 22 then 'J' as int + d - 17 else 'P' as int + d - 22)
  {
  }

  lemma SmallOf(k: nat)
    requires k < 25
    ensures "abcdefghijkmnopqrstuvwxyz"[k] as int == (if k < 11 then 'a' as int + k else 'm' as int + k - 11)
  {
  }

  /** An encoding is a number in base 58: a one for every leading zero byte, and then, with no one in front,
    * the digits of the number that the bytes are in base 256. */
  lemma EncodingIsANumber(raw: seq<Byte>)
    ensures var text, k := Encode(raw), LeadingZeros(raw);
            && OverAlphabet(text) && k <= |text| && (forall i :: 0 <= i < k ==> text[i] == '1')
            && (k < |text| ==> text[k] != '1')
            && PlaceValue(Unspell(text), 58) == PlaceValue(raw, 256)
  {
    hide Value, Digits, LeadingZeros, B58;
    var k, n := LeadingZeros(raw), Value(raw, 256);
    var ds := Convert(raw, 256, 58);
    ConvertBack(raw, 256, 58);
    UnspellSpell(ds);
    ValueIgnoresZeros(k, Digits(n, 58), 58);
    ValueOfDigits(n, 58);
    ValueIsPlaceValue(ds, 58);
    ValueIsPlaceValue(raw, 256);
    FirstLetter();
    if k < |ds| {
      AlphabetPosition(ds[k]);
      OnlyOneMeansZero(B58[ds[k]]);
    }
  }

  // ---- the loops of the source ----

  method EncodeLoop(raw: seq<Byte>) returns (out: string)
    ensures out == Encode(raw)
  {
    hide Value, Digits;
    var n := Value(raw, 256);
    ghost var all := Digits(n, 58);
    out := WriteDigits(n);
    assert Zeros(0) + all == all;
    var i := 0;
    while i < |raw| && raw[i] == 0
      invariant i <= |raw| && forall j :: 0 <= j < i ==> raw[j] == 0
      invariant out == Spell(Zeros(i) + all)
    {
      SpellCons(0, Zeros(i) + all);
      FirstLetter();
      out := "1" + out;
      assert Zeros(i + 1) + all == [0] + (Zeros(i) + all);
      i := i + 1;
    }
    LeadingZerosIs(raw, i);
  }

  /** The divmod loop: digits from the right, each put in front. */
  method WriteDigits(number: nat) returns (out: string)
    ensures out == Spell(Digits(number, 58))
  {
    var n := number;
    ghost var written: seq<nat> := [];
    out := "";
    while n != 0
      invariant InBase(written, 58) && out == Spell(written)
      invariant Digits(n, 58) + written == Digits(number, 58)
    {
      QuotientShrinks(n, 58);
      var r := n % 58;
      SpellCons(r, written);
      assert Digits(n, 58) + written == Digits(n / 58, 58) + ([r] + written);
      n := n / 58;
      out := [B58[r]] + out;
      written := [r] + written;
    }
    assert Digits(0, 58) + written == written;
  }

  lemma SpellCons(d: nat, ds: seq<nat>)
    requires d < 58 && InBase(ds, 58)
    ensures Spell([d] + ds) == [B58[d]] + Spell(ds)
  {
  }

  lemma FirstLetter()
    ensures B58[0] == '1'
  {
  }

  lemma UnspellSnoc(text: string, i: nat)
    requires i < |text| && OverAlphabet(text[..i + 1])
    ensures OverAlphabet(text[..i])
    ensures Value(Unspell(text[..i + 1]), 58) == Value(Unspell(text[..i]), 58) * 58 + IndexIn(B58, text[i])
  {
    hide B58;
    var ds, init := Unspell(text[..i + 1]), Unspell(text[..i]);
    assert ds[..i] == init;
    assert ds[i] == IndexIn(B58, text[i]);
  }

  method ReadNumber(text: string) returns (n: Option<nat>)
    ensures n == if OverAlphabet(text) then Some(Value(Unspell(text), 58)) else None
  {
    hide B58;
    var value := 0;
    for i := 0 to |text|
      invariant OverAlphabet(text[..i]) && value == Value(Unspell(text[..i]), 58)
    {
      var at := IndexIn(B58, text[i]);
      if at == |B58| {
        return None;
      }
      assert text[..i + 1] == text[..i] + [text[i]];
      UnspellSnoc(text, i);
      value := value * 58 + at;
    }
    assert text[..|text|] == text;
    n := Some(value);
  }

  lemma OnlyOneMeansZero(c: char)
    ensures IndexIn(B58, c) == 0 <==> c == '1'
  {
  }

  /** How many ones the text begins with: the leading zeros of its digits. */
  method CountOnes(text: string) returns (pad: nat)
    requires OverAlphabet(text)
    ensures pad == LeadingZeros(Unspell(text))
  {
    hide B58;
    pad := 0;
    while pad < |text| && text[pad] == '1'
      invariant pad <= |text| && forall j :: 0 <= j < pad ==> Unspell(text)[j] == 0
    {
      OnlyOneMeansZero(text[pad]);
      pad := pad + 1;
    }
    if pad < |text| {
      OnlyOneMeansZero(text[pad]);
    }
    LeadingZerosIs(Unspell(text), pad);
  }

  method DecodeLoop(text: string) returns (raw: Option<seq<Byte>>)
    ensures raw == Decode(text)
  {
    hide B58, Digits, BitLength, ToBytes, Value, LeadingZeros;
    var n := ReadNumber(text);
    if n.None? {
      return None;
    }
    var body := ToBytes(n.value, (BitLength(n.value) + 7) / 8);
    MinimalBytes(n.value);
    var pad := CountOnes(text);
    var out := Zeros(pad) + body;
    raw := Some(seq(|out|, i requires 0 <= i < |out| => out[i]));
  }
}
