/** What a fight can and cannot do: it replays the same however its ticks are batched, it cannot get
  * stuck, it lands a bounded number of blows, and on a fair chain of digests it ends. */
module ErFight {
  import opened Basics
  import opened Arith
  import opened Sums
  import opened ErDraw
  import opened ErPenalty
  import opened ErRound

  // ---- replay ----

  lemma {:induction false} TickAdd(chain: Chain, r: Round, m: nat, n: nat)
    ensures Tick(chain, r, m + n) == Tick(chain, Tick(chain, r, m), n)
    decreases m
  {
    hide Step;
    if m > 0 && |r.fighters| >= 2 {
      TickAdd(chain, Step(chain, r), m - 1, n);
    }
  }

  /** The one-step-at-a-time form of a schedule. */
  function Unbatch(ops: seq<Op>): seq<Op> {
    if ops == [] then []
    else if ops[0].OpTick? then seq(ops[0].steps, _ => OpTick(1)) + Unbatch(ops[1..])
    else [ops[0]] + Unbatch(ops[1..])
  }

  lemma {:induction false} RunAppend(chain: Chain, r: Round, p: seq<Op>, q: seq<Op>)
    ensures Run(chain, r, p + q) == Run(chain, Run(chain, r, p), q)
    decreases |p|
  {
    if p == [] {
      assert p + q == q;
    } else {
      assert (p + q)[1..] == p[1..] + q;
      RunAppend(chain, Apply(chain, r, p[0]), p[1..], q);
    }
  }

  lemma {:induction false} OneAtATime(chain: Chain, r: Round, n: nat)
    ensures Run(chain, r, seq(n, _ => OpTick(1))) == Tick(chain, r, n)
    decreases n
  {
    var ones := seq(n, _ => OpTick(1));
    if n > 0 {
      assert ones[1..] == seq(n - 1, _ => OpTick(1));
      TickAdd(chain, r, 1, n - 1);
      OneAtATime(chain, Tick(chain, r, 1), n - 1);
    }
  }

  lemma {:induction false} UnbatchSameRun(chain: Chain, r: Round, ops: seq<Op>)
    ensures Run(chain, r, Unbatch(ops)) == Run(chain, r, ops)
    decreases |ops|
  {
    if ops != [] {
      var r1 := Apply(chain, r, ops[0]);
      UnbatchSameRun(chain, r1, ops[1..]);
      if ops[0].OpTick? {
        var ones := seq(ops[0].steps, _ => OpTick(1));
        OneAtATime(chain, r, ops[0].steps);
        RunAppend(chain, r, ones, Unbatch(ops[1..]));
      } else {
        RunAppend(chain, r, [ops[0]], Unbatch(ops[1..]));
        assert Run(chain, r, [ops[0]]) == Run(chain, r1, []);
      }
    }
  }

  /** Two schedules that differ only in how ticks are grouped between the same entries and exits
    * reach the same round. */
  lemma BatchingIsIrrelevant(chain: Chain, r: Round, p: seq<Op>, q: seq<Op>)
    requires Unbatch(p) == Unbatch(q)
    ensures Run(chain, r, p) == Run(chain, r, q)
  {
    UnbatchSameRun(chain, r, p);
    UnbatchSameRun(chain, r, q);
  }

  // ---- progress ----

  /** The part of `RingSound` a fight depends on. */
  ghost predicate Vital(fs: seq<Fighter>) {
    forall f :: f in fs ==> f.hp >= 0 && (!f.dead ==> f.hp > 0)
  }

  /** No living fighter has a living enemy of another wallet left. */
  ghost predicate Over(fs: seq<Fighter>) {
    forall i, j :: 0 <= i < |fs| && 0 <= j < |fs| ==> !Legal(fs[i], fs[j])
  }

  /** Of any two living enemies, the one with the larger ring always draws blood from the other,
    * whatever the roll. */
  lemma LargerAlwaysLands(attacker: Fighter, defender: Fighter, roll: nat)
    requires IsRoll(roll) && defender.hp > 0 && attacker.hp >= defender.hp
    ensures Damage(attacker, defender, roll) > 0
  {
    if defender.hp > DUST {
      TruncDivBounds(defender.hp * roll, 100);
      assert defender.hp * roll >= defender.hp;
    }
  }

  /** A fight that is not over has an ordered pair of slots that loses ring value under every roll. */
  lemma NeverStuck(fs: seq<Fighter>) returns (a: nat, d: nat)
    requires Vital(fs) && !Over(fs)
    ensures a < |fs| && d < |fs| && a != d && Legal(fs[a], fs[d])
    ensures forall roll :: IsRoll(roll) ==> Damage(fs[a], fs[d], roll) > 0
  {
    var i, j :| 0 <= i < |fs| && 0 <= j < |fs| && Legal(fs[i], fs[j]);
    assert fs[i] in fs && fs[j] in fs;
    a, d := i, j;
    if fs[i].hp < fs[j].hp {
      a, d := j, i;
    }
    forall roll | IsRoll(roll)
      ensures Damage(fs[a], fs[d], roll) > 0
    {
      LargerAlwaysLands(fs[a], fs[d], roll);
    }
  }

  lemma StepKeepsVital(chain: Chain, r: Round)
    requires Vital(r.fighters) && |r.fighters| >= 2
    ensures Vital(Step(chain, r).fighters)
    ensures Step(chain, r).fighters == r.fighters || TotalHp(Step(chain, r)) < TotalHp(r)
    ensures var p := DrawPair(chain(r.tickCount), |r.fighters|).value;
            Step(chain, r).fighters == r.fighters <==>
            (!Legal(r.fighters[p.0], r.fighters[p.1])
             || Damage(r.fighters[p.0], r.fighters[p.1], RollOf(chain(r.tickCount))) == 0)
  {
    var h := chain(r.tickCount);
    var p := DrawPair(h, |r.fighters|).value;
    var fs := r.fighters;
    assert fs[p.0] in fs && fs[p.1] in fs;
    DamageRange(fs[p.0], fs[p.1], RollOf(h));
    StrikeMoves(fs, p.0, p.1, RollOf(h));
    StepMoves(chain, r);
  }

  /** How many of the next `steps` ticks land a blow. */
  function Landings(chain: Chain, r: Round, steps: nat): nat
    decreases steps
  {
    if steps == 0 || |r.fighters| < 2 then 0 else
    (if Step(chain, r).fighters == r.fighters then 0 else 1) + Landings(chain, Step(chain, r), steps - 1)
  }

  /** Every landed blow strictly shrinks the total ring, so no run lands more blows than the ring it
    * has used up -- and in particular never more than the hit points it started with. */
  lemma {:induction false} LandingsBounded(chain: Chain, r: Round, steps: nat)
    requires Vital(r.fighters)
    ensures Vital(Tick(chain, r, steps).fighters)
    ensures Landings(chain, r, steps) <= TotalHp(r) - TotalHp(Tick(chain, r, steps))
    ensures Landings(chain, r, steps) <= TotalHp(r)
    decreases steps
  {
    hide Step, Damage;
    if steps > 0 && |r.fighters| >= 2 {
      StepKeepsVital(chain, r);
      LandingsBounded(chain, Step(chain, r), steps - 1);
    }
    SumNonNeg(Tick(chain, r, steps).fighters, HpOf);
  }

  // ---- termination ----

  /** Within any `window` consecutive cursors every ordered pair of distinct slots is drawn. */
  ghost predicate Fair(chain: Chain, n: nat, window: nat) {
    forall c: nat, a: nat, d: nat :: a < n && d < n && a != d ==> DrawnWithin(chain, n, c, window, a, d)
  }

  ghost predicate DrawnWithin(chain: Chain, n: nat, c: nat, window: nat, a: nat, d: nat) {
    exists k: nat :: k < window && DrawsAt(chain, n, c, k, a, d)
  }

  ghost predicate DrawsAt(chain: Chain, n: nat, c: nat, k: nat, a: nat, d: nat) {
    DrawPair(chain(c + k), n) == Some((a, d))
  }

  lemma {:induction false} OverIsStable(chain: Chain, r: Round, steps: nat)
    requires Over(r.fighters)
    ensures Tick(chain, r, steps).fighters == r.fighters
    decreases steps
  {
    if steps > 0 && |r.fighters| >= 2 {
      OverIsStable(chain, Step(chain, r), steps - 1);
    }
  }

  lemma {:induction false} DrawnPairBleeds(chain: Chain, r: Round, a: nat, d: nat, k: nat)
    requires Vital(r.fighters) && |r.fighters| >= 2
    requires a < |r.fighters| && d < |r.fighters| && Legal(r.fighters[a], r.fighters[d])
    requires forall roll :: IsRoll(roll) ==> Damage(r.fighters[a], r.fighters[d], roll) > 0
    requires DrawPair(chain(r.tickCount + k), |r.fighters|) == Some((a, d))
    ensures TotalHp(Tick(chain, r, k + 1)) < TotalHp(r)
    decreases k
  {
    hide Step, Damage;
    var r1 := Step(chain, r);
    StepKeepsVital(chain, r);
    LandingsBounded(chain, r1, k);
    if r1.fighters == r.fighters {
      assert k > 0 by {
        assert IsRoll(RollOf(chain(r.tickCount)));
      }
      DrawnPairBleeds(chain, r1, a, d, k - 1);
    }
  }

  lemma WindowBleeds(chain: Chain, r: Round, window: nat)
    requires Vital(r.fighters) && Fair(chain, |r.fighters|, window) && !Over(r.fighters)
    ensures TotalHp(Tick(chain, r, window)) < TotalHp(r)
    ensures Vital(Tick(chain, r, window).fighters)
  {
    hide Step, Damage, Tick, Vital, Over, DrawPair;
    var a, d := NeverStuck(r.fighters);
    assert DrawnWithin(chain, |r.fighters|, r.tickCount, window, a, d);
    var k: nat :| k < window && DrawsAt(chain, |r.fighters|, r.tickCount, k, a, d);
    DrawnPairBleeds(chain, r, a, d, k);
    TickAdd(chain, r, k + 1, window - k - 1);
    LandingsBounded(chain, r, k + 1);
    LandingsBounded(chain, Tick(chain, r, k + 1), window - k - 1);
  }

  /** On a fair chain every fight ends, within one window for each hit point it starts with. */
  lemma {:induction false} FightEnds(chain: Chain, r: Round, window: nat, bound: nat)
    requires Vital(r.fighters) && Fair(chain, |r.fighters|, window)
    requires TotalHp(r) <= bound
    ensures Over(Tick(chain, r, window * bound).fighters)
    decreases bound
  {
    hide Step;
    if Over(r.fighters) {
      OverIsStable(chain, r, window * bound);
    } else {
      var r1 := Tick(chain, r, window);
      WindowBleeds(chain, r, window);
      SumNonNeg(r1.fighters, HpOf);
      FightEnds(chain, r1, window, bound - 1);
      TickAdd(chain, r, window, window * (bound - 1));
      assert window + window * (bound - 1) == window * bound;
    }
  }

  // ---- fair chains exist ----

  /** A chain that draws the `window` ordered pairs of an `n`-slot lineup in rotation. */
  function RoundRobin(n: nat, window: nat): Chain
    requires 2 <= n <= MAX_FIGHTERS && window > 0
  {
    (c: nat) => PairDigest(n, c % window)
  }

  function PairDigest(n: nat, code: nat): Digest
    requires 2 <= n <= MAX_FIGHTERS
  {
    DigestOf((code / (n - 1)) % MAX_FIGHTERS, code % (n - 1), 0, 1)
  }

  lemma CodeOf(m: nat, a: nat, rank: nat) returns (code: nat)
    requires rank < m
    ensures code / m == a && code % m == rank && code < (a + 1) * m
  {
    code := a * m + rank;
    DivModUnique(code, m, a, rank);
  }

  lemma PairCode(n: nat, a: nat, d: nat) returns (code: nat)
    requires 2 <= n <= MAX_FIGHTERS && a < n && d < n && a != d
    ensures code < n * (n - 1) && DrawPair(PairDigest(n, code), n) == Some((a, d))
  {
    hide DigestOf, PairOf;
    PairOfIff(n, a, d, a, RankOf(a, d));
    code := CodeOf(n - 1, a, RankOf(a, d));
    MulOrder(a + 1, n, n - 1);
    ModSmall(a, MAX_FIGHTERS);
    DrawOf(n, a, d, PairDigest(n, code));
  }

  /** From any cursor, a rotation of length `m` passes position `p` within `m` steps. */
  lemma RotationHits(c: nat, m: nat, p: nat) returns (k: nat)
    requires p < m
    ensures k < m && (c + k) % m == p
  {
    var q, at := c / m, c % m;
    if at <= p {
      k := p - at;
      DivModUnique(c + k, m, q, p);
    } else {
      k := p + m - at;
      DivModUnique(c + k, m, q + 1, p);
    }
  }

  lemma RoundRobinDraws(n: nat, window: nat, c: nat, a: nat, d: nat)
    requires 2 <= n <= MAX_FIGHTERS && window == n * (n - 1) > 0 && a < n && d < n && a != d
    ensures DrawnWithin(RoundRobin(n, window), n, c, window, a, d)
  {
    hide PairDigest, DrawPair;
    var code := PairCode(n, a, d);
    var k := RotationHits(c, window, code);
    assert RoundRobin(n, window)(c + k) == PairDigest(n, code);
    assert DrawsAt(RoundRobin(n, window), n, c, k, a, d);
  }

  /** For every lineup size there is a fair chain, so `FightEnds` speaks of real fights. */
  lemma RoundRobinIsFair(n: nat, window: nat)
    requires 2 <= n <= MAX_FIGHTERS && window == n * (n - 1)
    ensures window > 0 && Fair(RoundRobin(n, window), n, window)
  {
    hide DrawnWithin, RoundRobin;
    MulGrows(n, n - 1);
    forall c: nat, a: nat, d: nat | a < n && d < n && a != d
      ensures DrawnWithin(RoundRobin(n, window), n, c, window, a, d)
    {
      RoundRobinDraws(n, window, c, a, d);
    }
  }
}
