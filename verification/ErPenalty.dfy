/** What leaving mid-fight costs: a rate that decays linearly to zero over a horizon that grows with
  * the lineup. Integer arithmetic throughout. */
module ErPenalty {
  import opened Arith

  const BPS: int := 10_000
  const MAX_FIGHTERS: nat := 48
  const EXTRACT_PENALTY_START_BPS: nat := 2_000

  /** The cursor from which leaving is free, indexed by lineup size minus two. */
  const PENALTY_HORIZON_STEPS: seq<nat> := ROW_0 + ROW_1 + ROW_2 + ROW_3

  const ROW_0: seq<nat> := [71, 130, 200, 280, 367, 463, 566, 675, 791, 912, 1_039, 1_172]
  const ROW_1: seq<nat> := [1_310, 1_452, 1_600, 1_752, 1_909, 2_070, 2_236, 2_406, 2_580, 2_758, 2_939, 3_125]
  const ROW_2: seq<nat> := [3_314, 3_507, 3_704, 3_904, 4_108, 4_315, 4_525, 4_739, 4_956, 5_177, 5_400, 5_627]
  const ROW_3: seq<nat> := [5_856, 6_089, 6_325, 6_563, 6_805, 7_049, 7_297, 7_547, 7_800, 8_055, 8_314]

  /** BigInt division truncates toward zero; Dafny's rounds down. */
  function TruncDiv(a: int, b: nat): int
    requires b > 0
  {
    if a >= 0 then a / b else -((-a) / b)
  }

  lemma TruncDivBounds(a: int, b: nat)
    requires b > 0
    ensures var q := TruncDiv(a, b);
            if a >= 0 then q >= 0 && q * b <= a < q * b + b else q <= 0 && q * b - b < a <= q * b
  {
    var p := if a >= 0 then a else -a;
    assert p == b * (p / b) + p % b;
  }

  function Clamp(n: int, lo: int, hi: int): int {
    var raised := if n < lo then lo else n;
    if raised > hi then hi else raised
  }

  function PenaltyHorizonSteps(fighterCount: int): (h: nat)
    ensures h > 0
  {
    HorizonIsNearest(Clamp(fighterCount, 2, MAX_FIGHTERS));
    PENALTY_HORIZON_STEPS[Clamp(fighterCount, 2, MAX_FIGHTERS) - 2]
  }

  function ExtractPenaltyBps(fighterCount: int, cursor: nat): (bps: int)
  {
    var horizon := PenaltyHorizonSteps(fighterCount);
    var remaining := if cursor >= horizon then 0 else horizon - cursor;
    TruncDiv(EXTRACT_PENALTY_START_BPS * remaining, horizon)
  }

  datatype Split = Split(kept: int, penalty: int)

  function SplitExtraction(taken: int, fighterCount: int, cursor: nat): (s: Split)
    ensures s.kept + s.penalty == taken
  {
    var penalty := TruncDiv(taken * ExtractPenaltyBps(fighterCount, cursor), BPS);
    Split(taken - penalty, penalty)
  }

  // ---- the table ----

  /** `h` is the integer nearest to 25 * n^1.5, with both sides squared so that no root is needed. */
  predicate NearestTo25NSqrtN(h: nat, n: nat) {
    Square(2 * h - 1) <= 2500 * Cube(n) < Square(2 * h + 1)
  }

  function Square(x: int): int {
    x * x
  }

  function Cube(x: int): int {
    x * x * x
  }

  predicate AllNearest(table: seq<nat>, n: nat) {
    forall i :: 0 <= i < |table| ==> table[i] > 0 && NearestTo25NSqrtN(table[i], n + i)
  }

  lemma AppendNearest(t: seq<nat>, u: seq<nat>, n: nat)
    requires AllNearest(t, n) && AllNearest(u, n + |t|)
    ensures AllNearest(t + u, n)
  {
  }

  lemma Row0Nearest()
    ensures AllNearest(ROW_0, 2)
  {
    assert NearestTo25NSqrtN(71, 2) && NearestTo25NSqrtN(130, 3);
    assert NearestTo25NSqrtN(200, 4) && NearestTo25NSqrtN(280, 5);
    assert NearestTo25NSqrtN(367, 6) && NearestTo25NSqrtN(463, 7);
    assert NearestTo25NSqrtN(566, 8) && NearestTo25NSqrtN(675, 9);
    assert NearestTo25NSqrtN(791, 10) && NearestTo25NSqrtN(912, 11);
    assert NearestTo25NSqrtN(1_039, 12) && NearestTo25NSqrtN(1_172, 13);
  }

  lemma Row1Nearest()
    ensures AllNearest(ROW_1, 14)
  {
    assert NearestTo25NSqrtN(1_310, 14) && NearestTo25NSqrtN(1_452, 15);
    assert NearestTo25NSqrtN(1_600, 16) && NearestTo25NSqrtN(1_752, 17);
    assert NearestTo25NSqrtN(1_909, 18) && NearestTo25NSqrtN(2_070, 19);
    assert NearestTo25NSqrtN(2_236, 20) && NearestTo25NSqrtN(2_406, 21);
    assert NearestTo25NSqrtN(2_580, 22) && NearestTo25NSqrtN(2_758, 23);
    assert NearestTo25NSqrtN(2_939, 24) && NearestTo25NSqrtN(3_125, 25);
  }

  lemma Row2Nearest()
    ensures AllNearest(ROW_2, 26)
  {
    assert NearestTo25NSqrtN(3_314, 26) && NearestTo25NSqrtN(3_507, 27);
    assert NearestTo25NSqrtN(3_704, 28) && NearestTo25NSqrtN(3_904, 29);
    assert NearestTo25NSqrtN(4_108, 30) && NearestTo25NSqrtN(4_315, 31);
    assert NearestTo25NSqrtN(4_525, 32) && NearestTo25NSqrtN(4_739, 33);
    assert NearestTo25NSqrtN(4_956, 34) && NearestTo25NSqrtN(5_177, 35);
    assert NearestTo25NSqrtN(5_400, 36) && NearestTo25NSqrtN(5_627, 37);
  }

  lemma Row3Nearest()
    ensures AllNearest(ROW_3, 38)
  {
    assert NearestTo25NSqrtN(5_856, 38) && NearestTo25NSqrtN(6_089, 39);
    assert NearestTo25NSqrtN(6_325, 40) && NearestTo25NSqrtN(6_563, 41);
    assert NearestTo25NSqrtN(6_805, 42) && NearestTo25NSqrtN(7_049, 43);
    assert NearestTo25NSqrtN(7_297, 44) && NearestTo25NSqrtN(7_547, 45);
    assert NearestTo25NSqrtN(7_800, 46) && NearestTo25NSqrtN(8_055, 47);
    assert NearestTo25NSqrtN(8_314, 48);
  }

  lemma RowsNearest()
    ensures AllNearest(PENALTY_HORIZON_STEPS, 2)
  {
    Row0Nearest();
    Row1Nearest();
    AppendNearest(ROW_0, ROW_1, 2);
    Row2Nearest();
    AppendNearest(ROW_0 + ROW_1, ROW_2, 2);
    Row3Nearest();
    AppendNearest(ROW_0 + ROW_1 + ROW_2, ROW_3, 2);
  }

  /** Every entry of the table is what its formula says, for every lineup size it serves. */
  lemma HorizonIsNearest(n: nat)
    requires 2 <= n <= MAX_FIGHTERS
    ensures |PENALTY_HORIZON_STEPS| == 47
    ensures PENALTY_HORIZON_STEPS[n - 2] > 0
    ensures NearestTo25NSqrtN(PENALTY_HORIZON_STEPS[n - 2], n)
  {
    RowsNearest();
  }

  // ---- the curve ----

  /** Rounded-down quotients keep the order of the fractions. */
  lemma FloorMono(a: nat, b: nat, a': nat, b': nat)
    requires b > 0 && b' > 0 && a * b' <= a' * b
    ensures TruncDiv(a, b) <= TruncDiv(a', b')
  {
    var q, q' := TruncDiv(a, b), TruncDiv(a', b');
    TruncDivBounds(a, b);
    TruncDivBounds(a', b');
    if q > q' {
      assert q * b' * b == q * b * b';
      MulOrder(q' + 1, q, b');
      MulStrict(a', q * b', b);
      MulOrder(q * b, a, b');
      assert false;
    }
  }

  lemma MulOrder(x: int, y: int, k: nat)
    requires x <= y
    ensures x * k <= y * k
  {
  }

  lemma MulStrict(x: int, y: int, k: nat)
    requires x < y && k > 0
    ensures x * k < y * k
  {
  }

  /** A larger lineup never has a shorter horizon: read off the formula, not the digits. */
  lemma HorizonMono(n: int, n': int)
    requires n <= n'
    ensures PenaltyHorizonSteps(n) <= PenaltyHorizonSteps(n')
  {
    hide PenaltyHorizonSteps, NearestTo25NSqrtN;
    StepsNearest(n);
    StepsNearest(n');
    NearestOrder(PenaltyHorizonSteps(n), Clamp(n, 2, MAX_FIGHTERS),
                 PenaltyHorizonSteps(n'), Clamp(n', 2, MAX_FIGHTERS));
  }

  lemma StepsNearest(n: int)
    ensures NearestTo25NSqrtN(PenaltyHorizonSteps(n), Clamp(n, 2, MAX_FIGHTERS))
  {
    hide NearestTo25NSqrtN;
    HorizonIsNearest(Clamp(n, 2, MAX_FIGHTERS));
  }

  lemma NearestOrder(h: nat, n: nat, h': nat, n': nat)
    requires h > 0 && n <= n' && NearestTo25NSqrtN(h, n) && NearestTo25NSqrtN(h', n')
    ensures h <= h'
  {
    CubeMono(n, n');
    SquareReflects(2 * h - 1, 2 * h' + 1);
  }

  lemma CubeMono(n: nat, n': nat)
    requires n <= n'
    ensures Cube(n) <= Cube(n')
  {
    MulOrder(n, n', n);
    MulOrder(n, n', n');
    MulOrder(n * n, n' * n', n);
    MulOrder(n, n', n' * n');
  }

  lemma SquareReflects(x: nat, y: nat)
    requires Square(x) < Square(y)
    ensures x < y
  {
    if y <= x {
      MulOrder(y, x, y);
      MulOrder(y, x, x);
      assert false;
    }
  }

  /** The rate starts at exactly 20%, never exceeds it, and is zero from the horizon on. */
  lemma BpsRange(fighterCount: int, cursor: nat)
    ensures 0 <= ExtractPenaltyBps(fighterCount, cursor) <= EXTRACT_PENALTY_START_BPS
    ensures cursor == 0 ==> ExtractPenaltyBps(fighterCount, cursor) == EXTRACT_PENALTY_START_BPS
    ensures cursor >= PenaltyHorizonSteps(fighterCount) ==> ExtractPenaltyBps(fighterCount, cursor) == 0
  {
    var h := PenaltyHorizonSteps(fighterCount);
    var remaining := if cursor >= h then 0 else h - cursor;
    DivModUnique(2000 * h, h, 2000, 0);
    FloorMono(2000 * remaining, h, 2000 * h, h) by {
      MulOrder(2000 * remaining, 2000 * h, h);
    }
    TruncDivBounds(2000 * remaining, h);
    if remaining == 0 {
      DivModUnique(0, h, 0, 0);
    }
  }

  /** Waiting never costs more, and a larger lineup never leaves more cheaply at the same cursor. */
  lemma BpsMonotone(fighterCount: int, fighterCount': int, cursor: nat, cursor': nat)
    requires fighterCount <= fighterCount' && cursor' <= cursor
    ensures ExtractPenaltyBps(fighterCount, cursor) <= ExtractPenaltyBps(fighterCount', cursor')
  {
    var h, h' := PenaltyHorizonSteps(fighterCount), PenaltyHorizonSteps(fighterCount');
    HorizonMono(fighterCount, fighterCount');
    BpsRange(fighterCount, cursor);
    BpsRange(fighterCount', cursor');
    if cursor < h {
      RemainingShare(h, h', cursor, cursor');
      FloorMono(2000 * (h - cursor), h, 2000 * (h' - cursor'), h');
    }
  }

  /** (h - c) / h <= (h' - c') / h', cross-multiplied. */
  lemma RemainingShare(h: nat, h': nat, c: nat, c': nat)
    requires 0 < h <= h' && c' <= c < h
    ensures 2000 * (h - c) * h' <= 2000 * (h' - c') * h
  {
    MulOrder(h, h', c);
    MulOrder(c', c, h);
    assert (h - c) * h' == h * h' - c * h';
    assert (h' - c') * h == h * h' - c' * h;
    assert 2000 * (h - c) * h' == 2000 * ((h - c) * h');
    assert 2000 * (h' - c') * h == 2000 * ((h' - c') * h);
  }

  /** `m` is the lineup size that counts for `n` fighters. */
  ghost predicate CountsAs(n: int, m: nat) {
    2 <= m <= 48 && (n <= 2 ==> m == 2) && (n >= 48 ==> m == 48) && (2 <= n <= 48 ==> m == n)
  }

  /** `rate`, in hundredths of a percent, is the line from 20% at the bell to nothing at the horizon, rounded
    * down; the horizon is the integer nearest to 25 * m^1.5, whatever table it is read from. */
  ghost predicate OnTheLine(rate: int, fighterCount: int, cursor: nat) {
    forall m: nat, h: nat :: CountsAs(fighterCount, m) && h > 0 && NearestTo25NSqrtN(h, m) ==>
      if cursor < h then h * rate <= 2_000 * (h - cursor) < h * (rate + 1) else rate == 0
  }

  /** `penalty` is that rate of `taken`, rounded down. */
  ghost predicate IsSlice(penalty: int, taken: int, rate: int) {
    10_000 * penalty <= taken * rate < 10_000 * (penalty + 1)
  }

  /** There is one horizon only. */
  lemma HorizonIsUnique(fighterCount: int, m: nat, h: nat)
    requires CountsAs(fighterCount, m) && h > 0 && NearestTo25NSqrtN(h, m)
    ensures h == PenaltyHorizonSteps(fighterCount)
  {
    hide PenaltyHorizonSteps, NearestTo25NSqrtN;
    StepsNearest(fighterCount);
    var h', m' := PenaltyHorizonSteps(fighterCount), Clamp(fighterCount, 2, MAX_FIGHTERS);
    NearestOrder(h, m, h', m');
    NearestOrder(h', m', h, m);
  }

  lemma RateIsOnTheLine(fighterCount: int, cursor: nat)
    ensures OnTheLine(ExtractPenaltyBps(fighterCount, cursor), fighterCount, cursor)
  {
    hide PenaltyHorizonSteps, NearestTo25NSqrtN, CountsAs;
    var rate := ExtractPenaltyBps(fighterCount, cursor);
    var horizon := PenaltyHorizonSteps(fighterCount);
    BpsRange(fighterCount, cursor);
    if cursor < horizon {
      TruncDivBounds(EXTRACT_PENALTY_START_BPS * (horizon - cursor), horizon);
    }
    forall m: nat, h: nat | CountsAs(fighterCount, m) && h > 0 && NearestTo25NSqrtN(h, m)
      ensures if cursor < h then h * rate <= 2_000 * (h - cursor) < h * (rate + 1) else rate == 0
    {
      HorizonIsUnique(fighterCount, m, h);
    }
  }

  /** The house's slice of an exit: exactly the rate of the curve, rounded down, so never negative, never
    * more than a fifth, and nothing at all once the horizon has passed. */
  lemma SplitBounds(taken: nat, fighterCount: int, cursor: nat)
    ensures var s, rate := SplitExtraction(taken, fighterCount, cursor), ExtractPenaltyBps(fighterCount, cursor);
            && OnTheLine(rate, fighterCount, cursor) && IsSlice(s.penalty, taken, rate)
            && s.kept == taken - s.penalty
            && 0 <= s.penalty && 5 * s.penalty <= taken
            && (cursor >= PenaltyHorizonSteps(fighterCount) ==> s.penalty == 0)
  {
    hide ExtractPenaltyBps, PenaltyHorizonSteps, TruncDiv, OnTheLine;
    var bps := ExtractPenaltyBps(fighterCount, cursor);
    RateIsOnTheLine(fighterCount, cursor);
    BpsRange(fighterCount, cursor);
    MulOrder(bps, 2000, taken);
    MulOrder(0, bps, taken);
    TruncDivBounds(taken * bps, BPS);
  }

  /** The same monotonicity in money: leaving later, or from a smaller lineup, never costs more. */
  lemma PenaltyMonotone(taken: nat, fighterCount: int, fighterCount': int, cursor: nat, cursor': nat)
    requires fighterCount <= fighterCount' && cursor' <= cursor
    ensures SplitExtraction(taken, fighterCount, cursor).penalty
         <= SplitExtraction(taken, fighterCount', cursor').penalty
  {
    BpsMonotone(fighterCount, fighterCount', cursor, cursor');
    BpsRange(fighterCount, cursor);
    ShareMono(taken, ExtractPenaltyBps(fighterCount, cursor), ExtractPenaltyBps(fighterCount', cursor'));
  }

  lemma ShareMono(taken: nat, bps: nat, bps': nat)
    requires bps <= bps'
    ensures TruncDiv(taken * bps, BPS) <= TruncDiv(taken * bps', BPS)
  {
    MulOrder(bps, bps', taken);
    FloorMono(taken * bps, BPS, taken * bps', BPS);
  }
}
