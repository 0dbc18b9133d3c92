/** The draw of one tick of the integer round: which slot strikes which, and how hard.
  * Everything is read from a 32-byte digest, and no property below assumes anything about it. */
module ErDraw {
  import opened Basics
  import opened Arith

  type Digest = h: seq<Byte> | |h| == 32 witness seq(32, i => 0)

  const U32_SPAN: nat := 0x1_0000_0000
  const CRIT_ONE_IN: nat := 32
  const CRIT_ROLL: nat := 90
  const ROLL_BODY_LO: nat := 1
  const ROLL_BODY_SPAN: nat := 22

  function LittleEndian(b0: nat, b1: nat, b2: nat, b3: nat): nat {
    b0 + 0x100 * b1 + 0x1_0000 * b2 + 0x100_0000 * b3
  }

  function ReadU32LE(h: Digest, at: nat): (x: nat)
    requires at + 4 <= 32
    ensures x < U32_SPAN
  {
    LittleEndian(h[at], h[at + 1], h[at + 2], h[at + 3])
  }

  /** The attacker is a residue of the first word; the second word ranks the other slots, and
    * ranks from the attacker's slot on are shifted past it. */
  function PairOf(x: nat, y: nat, n: nat): (p: (nat, nat))
    requires n >= 2
    ensures p.0 < n && p.1 < n && p.0 != p.1
  {
    var a := x % n;
    var rank := y % (n - 1);
    (a, if rank >= a then rank + 1 else rank)
  }

  function DrawPair(h: Digest, n: nat): (p: Option<(nat, nat)>)
    ensures p.None? <==> n < 2
    ensures p.Some? ==> p.value.0 < n && p.value.1 < n && p.value.0 != p.value.1
  {
    if n < 2 then None else Some(PairOf(ReadU32LE(h, 0), ReadU32LE(h, 4), n))
  }

  /** One word decides on a crit, and another on the roll of every other blow. */
  function RollFrom(body: nat, crit: nat): (roll: nat)
    ensures roll == CRIT_ROLL || 1 <= roll <= 22
  {
    if crit % CRIT_ONE_IN == 0 then CRIT_ROLL else ROLL_BODY_LO + body % ROLL_BODY_SPAN
  }

  function RollOf(h: Digest): (roll: nat)
    ensures roll == CRIT_ROLL || 1 <= roll <= 22
  {
    RollFrom(ReadU32LE(h, 20), ReadU32LE(h, 24))
  }

  /** Which bytes of a digest decide what, little end first: the first four the attacker, the next four the
    * defender, and of the last third one word the roll and the next the crit. */
  lemma BytesDecide(h: Digest, n: nat, x: nat, y: nat, body: nat, crit: nat)
    requires n >= 2
    requires x == h[0] + 256 * (h[1] as nat) + 65_536 * (h[2] as nat) + 16_777_216 * (h[3] as nat)
    requires y == h[4] + 256 * (h[5] as nat) + 65_536 * (h[6] as nat) + 16_777_216 * (h[7] as nat)
    requires body == h[20] + 256 * (h[21] as nat) + 65_536 * (h[22] as nat) + 16_777_216 * (h[23] as nat)
    requires crit == h[24] + 256 * (h[25] as nat) + 65_536 * (h[26] as nat) + 16_777_216 * (h[27] as nat)
    ensures DrawPair(h, n) == Some(PairOf(x, y, n)) && RollOf(h) == RollFrom(body, crit)
  {
  }

  // ---- every digest word is reachable ----

  function U32Bytes(x: nat): (bs: seq<Byte>)
    requires x < U32_SPAN
    ensures |bs| == 4
    ensures LittleEndian(bs[0], bs[1], bs[2], bs[3]) == x
  {
    var x1 := x / 0x100;
    var x2 := x1 / 0x100;
    [x % 0x100, x1 % 0x100, x2 % 0x100, x2 / 0x100]
  }

  /** A digest carrying a chosen attacker word, defender word, body word and crit word. */
  function DigestOf(attacker: nat, defender: nat, body: nat, crit: nat): (h: Digest)
    requires attacker < U32_SPAN && defender < U32_SPAN && body < U32_SPAN && crit < U32_SPAN
    ensures ReadU32LE(h, 0) == attacker && ReadU32LE(h, 4) == defender
    ensures ReadU32LE(h, 20) == body && ReadU32LE(h, 24) == crit
  {
    var h := U32Bytes(attacker) + U32Bytes(defender) + seq(12, i => 0) + U32Bytes(body) + U32Bytes(crit)
             + seq(4, i => 0);
    ReadsBack(attacker, defender, body, crit, h);
    h
  }

  lemma ReadsBack(attacker: nat, defender: nat, body: nat, crit: nat, h: seq<Byte>)
    requires attacker < U32_SPAN && defender < U32_SPAN && body < U32_SPAN && crit < U32_SPAN
    requires h == U32Bytes(attacker) + U32Bytes(defender) + seq(12, i => 0) + U32Bytes(body) + U32Bytes(crit) + seq(4, i => 0)
    ensures |h| == 32 && ReadU32LE(h, 0) == attacker && ReadU32LE(h, 4) == defender
    ensures ReadU32LE(h, 20) == body && ReadU32LE(h, 24) == crit
  {
    hide U32Bytes;
    assert h[0..4] == U32Bytes(attacker) && h[4..8] == U32Bytes(defender);
    assert h[20..24] == U32Bytes(body) && h[24..28] == U32Bytes(crit);
    WordAt(h, 0, attacker);
    WordAt(h, 4, defender);
    WordAt(h, 20, body);
    WordAt(h, 24, crit);
  }

  lemma WordAt(h: Digest, at: nat, x: nat)
    requires at + 4 <= 32 && x < U32_SPAN && h[at..at + 4] == U32Bytes(x)
    ensures ReadU32LE(h, at) == x
  {
    hide U32Bytes, LittleEndian;
    var w := U32Bytes(x);
    assert h[at] == w[0] && h[at + 1] == w[1] && h[at + 2] == w[2] && h[at + 3] == w[3];
  }

  /** For every ordered pair of distinct slots and every roll the table offers there is a digest
    * that draws exactly that pair with exactly that roll. */
  lemma EveryDrawIsPossible(n: nat, a: nat, d: nat, roll: nat)
    requires 2 <= n < U32_SPAN && a < n && d < n && a != d
    requires roll == CRIT_ROLL || 1 <= roll <= 22
    ensures exists h: Digest :: DrawPair(h, n) == Some((a, d)) && RollOf(h) == roll
  {
    var body, crit := RollWords(roll);
    var h := DigestOf(a, RankOf(a, d), body, crit);
    DrawOf(n, a, d, h);
  }

  /** Body and crit words that make `RollOf` return a given roll. */
  lemma RollWords(roll: nat) returns (body: nat, crit: nat)
    requires roll == CRIT_ROLL || 1 <= roll <= 22
    ensures body < U32_SPAN && crit < U32_SPAN
    ensures RollFrom(body, crit) == roll
  {
    if roll == CRIT_ROLL {
      body, crit := 0, 0;
    } else {
      body, crit := roll - 1, 1;
    }
  }

  lemma DrawOf(n: nat, a: nat, d: nat, h: Digest)
    requires 2 <= n && a < n && d < n && a != d
    requires ReadU32LE(h, 0) == a && ReadU32LE(h, 4) == RankOf(a, d)
    ensures DrawPair(h, n) == Some((a, d))
  {
    var rank := RankOf(a, d);
    PairOfIff(n, a, d, a, rank);
    ModSmall(a, n);
    ModSmall(rank, n - 1);
  }

  /** The rank of the defender among the slots that are not the attacker. */
  function RankOf(a: nat, d: nat): nat
    requires a != d
  {
    if d > a then d - 1 else d
  }

  /** Every non-attacker has exactly one rank, so a draw names a pair in exactly one way. */
  lemma PairOfIff(n: nat, a: nat, d: nat, x: nat, y: nat)
    requires n >= 2 && a < n && d < n && a != d
    ensures PairOf(x, y, n) == (a, d) <==> x % n == a && y % (n - 1) == RankOf(a, d)
    ensures RankOf(a, d) < n - 1
  {
  }

  // ---- how often each draw comes up over all word values ----

  ghost function Residues(m: nat, n: nat, r: nat): set<nat>
    requires n > 0
  {
    set x | 0 <= x < m && x % n == r
  }

  lemma {:induction false} ResidueCount(m: nat, n: nat, r: nat)
    requires r < n
    ensures |Residues(m, n, r)| == m / n + (if r < m % n then 1 else 0)
  {
    if m == 0 {
      assert Residues(0, n, r) == {};
      DivModUnique(0, n, 0, 0);
    } else {
      ResidueCount(m - 1, n, r);
      DivModStep(m - 1, n);
      if (m - 1) % n == r {
        assert Residues(m, n, r) == Residues(m - 1, n, r) + {m - 1};
      } else {
        assert Residues(m, n, r) == Residues(m - 1, n, r);
      }
    }
  }

  ghost function Product(xs: set<nat>, ys: set<nat>): set<(nat, nat)> {
    set x, y | x in xs && y in ys :: (x, y)
  }

  lemma {:induction false} ProductSize(xs: set<nat>, ys: set<nat>)
    ensures |Product(xs, ys)| == |xs| * |ys|
  {
    hide Product;
    if xs == {} {
      NothingToPair(ys);
    } else {
      var x :| x in xs;
      ProductSize(xs - {x}, ys);
      RowSize(x, ys);
      SplitProduct(xs, x, ys);
      OneRowMore(|xs|, |ys|);
    }
  }

  lemma NothingToPair(ys: set<nat>)
    ensures Product({}, ys) == {}
  {
  }

  lemma SplitProduct(xs: set<nat>, x: nat, ys: set<nat>)
    requires x in xs
    ensures |xs - {x}| == |xs| - 1
    ensures |Product(xs, ys)| == |Product(xs - {x}, ys)| + |Product({x}, ys)|
  {
    var rest, row := Product(xs - {x}, ys), Product({x}, ys);
    assert Product(xs, ys) == rest + row;
    assert rest !! row;
  }

  lemma OneRowMore(m: nat, n: nat)
    requires m > 0
    ensures m * n == (m - 1) * n + n
  {
  }

  lemma {:induction false} RowSize(x: nat, ys: set<nat>)
    ensures |Product({x}, ys)| == |ys|
  {
    if ys == {} {
      assert Product({x}, ys) == {};
    } else {
      var y :| y in ys;
      RowSize(x, ys - {y});
      assert Product({x}, ys) == Product({x}, ys - {y}) + {(x, y)};
    }
  }

  /** The pairs of 32-bit words that make slot `a` strike slot `d`. */
  ghost function WordsFor(n: nat, a: nat, d: nat): set<(nat, nat)>
    requires n >= 2
  {
    set x, y | 0 <= x < U32_SPAN && 0 <= y < U32_SPAN && PairOf(x, y, n) == (a, d) :: (x, y)
  }

  ghost function Share(n: nat, r: nat): nat
    requires n > 0
  {
    U32_SPAN / n + (if r < U32_SPAN % n then 1 else 0)
  }

  lemma WordsAreAProduct(n: nat, a: nat, d: nat)
    requires n >= 2 && a < n && d < n && a != d
    ensures RankOf(a, d) < n - 1
    ensures WordsFor(n, a, d) == Product(Residues(U32_SPAN, n, a), Residues(U32_SPAN, n - 1, RankOf(a, d)))
  {
    hide PairOf;
    PairOfIff(n, a, d, a, RankOf(a, d));
    forall x: nat, y: nat
      ensures PairOf(x, y, n) == (a, d) <==> x % n == a && y % (n - 1) == RankOf(a, d)
    {
      PairOfIff(n, a, d, x, y);
    }
  }

  /** No slot is favoured by where it sits: over all pairs of words, every ordered pair of distinct
    * slots is drawn floor(2^32/n) or one more times floor(2^32/(n-1)) or one more, exactly. */
  lemma PairFrequency(n: nat, a: nat, d: nat)
    requires n >= 2 && a < n && d < n && a != d
    ensures |WordsFor(n, a, d)| == Share(n, a) * Share(n - 1, RankOf(a, d))
  {
    hide WordsFor, Residues, Product;
    var rank := RankOf(a, d);
    WordsAreAProduct(n, a, d);
    ResidueCount(U32_SPAN, n, a);
    ResidueCount(U32_SPAN, n - 1, rank);
    ProductSize(Residues(U32_SPAN, n, a), Residues(U32_SPAN, n - 1, rank));
  }

  /** The pairs of 32-bit words, body and crit, that make a blow of this roll. */
  ghost function WordsRolling(roll: nat): set<(nat, nat)> {
    set x, y | 0 <= x < U32_SPAN && 0 <= y < U32_SPAN && RollFrom(x, y) == roll :: (x, y)
  }

  ghost function NonResidues(m: nat, n: nat): set<nat>
    requires n > 0
  {
    set x | 0 <= x < m && x % n != 0
  }

  lemma NonResidueCount(m: nat, n: nat)
    requires n > 0
    ensures |NonResidues(m, n)| == m - |Residues(m, n, 0)| && |Residues(m, 1, 0)| == m
  {
    ResidueCount(m, 1, 0);
    DivModUnique(m, 1, m, 0);
    forall x | 0 <= x < m
      ensures x % 1 == 0
    {
      DivModUnique(x, 1, x, 0);
    }
    assert NonResidues(m, n) + Residues(m, n, 0) == Residues(m, 1, 0);
    assert NonResidues(m, n) !! Residues(m, n, 0);
  }

  /** 32 divides 2^32, so the advertised one-in-32 crit rate is the exact rate over all pairs of words; and
    * each body roll 1..22 gets its share of the rest: floor(2^32/22) body words or one more. */
  lemma RollFrequency(roll: nat)
    requires 1 <= roll <= 22
    ensures 32 * |WordsRolling(90)| == U32_SPAN * U32_SPAN
    ensures |WordsRolling(roll)| == Share(22, roll - 1) * (U32_SPAN - 0x800_0000)
  {
    hide Product;
    ResidueCount(U32_SPAN, 32, 0);
    NonResidueCount(U32_SPAN, 32);
    ResidueCount(U32_SPAN, 22, roll - 1);
    CritsAreAProduct();
    ProductSize(Residues(U32_SPAN, 1, 0), Residues(U32_SPAN, 32, 0));
    BodyIsAProduct(roll);
    ProductSize(Residues(U32_SPAN, 22, roll - 1), NonResidues(U32_SPAN, 32));
  }

  lemma CritsAreAProduct()
    ensures WordsRolling(90) == Product(Residues(U32_SPAN, 1, 0), Residues(U32_SPAN, 32, 0))
  {
    forall x | 0 <= x < U32_SPAN
      ensures x % 1 == 0
    {
      DivModUnique(x, 1, x, 0);
    }
  }

  lemma BodyIsAProduct(roll: nat)
    requires 1 <= roll <= 22
    ensures WordsRolling(roll) == Product(Residues(U32_SPAN, 22, roll - 1), NonResidues(U32_SPAN, 32))
  {
  }
}
