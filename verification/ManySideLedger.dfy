/** Conservation in the N-army fight: the matched book, every clash, and settlement. */
module ManySideLedger {
  import opened Basics
  import opened Sums
  import opened ManySideSim
  import opened ManySideTheorems

  function Value(f: Fighter): real { Ring(f) + f.banked }

  /** How much of team `k`'s original coin a fighter has in its ring. */
  function TokenOf(k: nat): Fighter -> real {
    (f: Fighter) => (if f.team == k then f.own else 0.0) + (if k < |f.stolen| then f.stolen[k] else 0.0)
  }

  /** `Sound` without the record of raids and losses, which is only written when a blow is over. */
  ghost predicate Rich(f: Fighter, n: nat) {
    && |f.stolen| == n && f.team < n
    && f.own >= 0.0 && f.banked >= 0.0 && (forall k :: 0 <= k < n ==> f.stolen[k] >= 0.0)
    && f.stolen[f.team] == 0.0
  }

  ghost predicate SameRecord(f: Fighter, g: Fighter) {
    && g.id == f.id && g.team == f.team && g.unmatched == f.unmatched && g.deposited == f.deposited
    && g.raided == f.raided && g.dmgDealt == f.dmgDealt && g.dmgTaken == f.dmgTaken
  }

  /** How much of coin `k` a plan against a fighter of `team` moves. */
  function CoinsIn(plan: seq<Take>, team: nat, k: nat): real
    decreases |plan|
  {
    if plan == [] then 0.0
    else (if plan[0].amt > 0.005 && CoinOf(plan[0].src, team) == k then plan[0].amt else 0.0)
         + CoinsIn(plan[1..], team, k)
  }

  lemma LoseEffect(f: Fighter, n: nat, t: Take)
    requires Rich(f, n) && Fit(t, f) && t.amt > 0.005
    ensures var g := Lose(f, t.src, t.amt);
            && Rich(g, n) && SameRecord(f, g) && Value(g) == Value(f) - t.amt
            && forall k :: 0 <= k < n ==>
                 TokenOf(k)(g) == TokenOf(k)(f) - (if CoinOf(t.src, f.team) == k then t.amt else 0.0)
  {
    if t.src.Stolen? {
      SumUpdateR(f.stolen, t.src.team, f.stolen[t.src.team] - t.amt, Itself);
    }
  }

  lemma WinEffect(mode: Mode, f: Fighter, n: nat, coin: nat, amt: real)
    requires Rich(f, n) && coin < n && amt > 0.005
    ensures var g := Win(mode, f, coin, amt);
            && Rich(g, n) && SameRecord(f, g) && Value(g) == Value(f) + amt
            && (mode == Normal ==> forall k :: 0 <= k < n ==>
                 TokenOf(k)(g) == TokenOf(k)(f) + (if coin == k then amt else 0.0))
  {
    SumUpdateR(f.stolen, coin, f.stolen[coin] + amt, Itself);
  }

  lemma {:induction false} LostEffect(f: Fighter, n: nat, plan: seq<Take>)
    requires Rich(f, n) && Fits(plan, f)
    ensures var g := Lost(f, plan);
            && Rich(g, n) && SameRecord(f, g) && Value(g) == Value(f) - Got(plan)
            && forall k :: 0 <= k < n ==> TokenOf(k)(g) == TokenOf(k)(f) - CoinsIn(plan, f.team, k)
    decreases |plan|
  {
    hide Lose, Ring;
    if plan != [] {
      FitsRest(plan, f);
      assert Fit(plan[0], f);
      if plan[0].amt <= 0.005 {
        LostEffect(f, n, plan[1..]);
      } else {
        LoseEffect(f, n, plan[0]);
        LostEffect(Lose(f, plan[0].src, plan[0].amt), n, plan[1..]);
      }
    }
  }

  lemma {:induction false} WonEffect(mode: Mode, f: Fighter, n: nat, team: nat, plan: seq<Take>)
    requires Rich(f, n) && forall l :: 0 <= l < |plan| ==> CoinOf(plan[l].src, team) < n
    ensures var g := Won(mode, f, team, plan);
            && Rich(g, n) && SameRecord(f, g) && Value(g) == Value(f) + Got(plan)
            && (mode == Normal ==> forall k :: 0 <= k < n ==> TokenOf(k)(g) == TokenOf(k)(f) + CoinsIn(plan, team, k))
    decreases |plan|
  {
    hide Win, Ring;
    if plan != [] {
      if plan[0].amt <= 0.005 {
        WonEffect(mode, f, n, team, plan[1..]);
      } else {
        WinEffect(mode, f, n, CoinOf(plan[0].src, team), plan[0].amt);
        WonEffect(mode, Win(mode, f, CoinOf(plan[0].src, team), plan[0].amt), n, team, plan[1..]);
      }
    }
  }

  lemma {:induction false} GotNonNeg(plan: seq<Take>)
    ensures Got(plan) == 0.0 || Got(plan) > 0.005
    ensures Got(plan) >= 0.0
    decreases |plan|
  {
    if plan != [] {
      GotNonNeg(plan[1..]);
    }
  }

  ghost predicate SameEntry(f: Fighter, g: Fighter) {
    g.id == f.id && g.team == f.team && g.unmatched == f.unmatched && g.deposited == f.deposited
  }

  /** One blow moves value and never makes or destroys any: in normal mode not even of one coin. */
  lemma BlowEffect(mode: Mode, n: nat, atk: Fighter, def: Fighter, plan: seq<Take>)
    requires Sound(atk, n) && Sound(def, n) && Fits(plan, def)
    ensures var (atk', def') := Apply(mode, atk, def, plan);
            && Sound(atk', n) && Sound(def', n) && SameEntry(atk, atk') && SameEntry(def, def')
            && Value(atk') + Value(def') == Value(atk) + Value(def)
            && (mode == Normal ==> forall k :: 0 <= k < n ==>
                 TokenOf(k)(atk') + TokenOf(k)(def') == TokenOf(k)(atk) + TokenOf(k)(def))
  {
    hide Won, Lost, Got, Apply;
    ApplyAsPlanned(mode, atk, def, plan);
    forall l | 0 <= l < |plan|
      ensures CoinOf(plan[l].src, def.team) < n
    {
      assert Fit(plan[l], def);
    }
    LostEffect(def, n, plan);
    WonEffect(mode, atk, n, def.team, plan);
    GotNonNeg(plan);
  }

  /** Both blows of a clash; the second plan still fits because its victim has only gained. */
  lemma ExchangeEffect(mode: Mode, n: nat, a: Fighter, b: Fighter, planB: seq<Take>, planA: seq<Take>)
    requires Sound(a, n) && Sound(b, n) && Fits(planB, b) && Fits(planA, a)
    ensures var (a', b') := Exchange(mode, a, b, planB, planA);
            && Sound(a', n) && Sound(b', n) && SameEntry(a, a') && SameEntry(b, b')
            && Value(a') + Value(b') == Value(a) + Value(b)
            && (mode == Normal ==> forall k :: 0 <= k < n ==>
                 TokenOf(k)(a') + TokenOf(k)(b') == TokenOf(k)(a) + TokenOf(k)(b))
  {
    hide Fits, Apply, Sound, TokenOf;
    BlowEffect(mode, n, a, b, planB);
    ApplyAsPlanned(mode, a, b, planB);
    FitsAfterWon(mode, a, b.team, planB, planA);
    var (a1, b1) := Apply(mode, a, b, planB);
    FitsByHoldings(planA, Won(mode, a, b.team, planB), a1);
    BlowEffect(mode, n, b1, a1, planA);
  }

  /** What a whole fight keeps, measured against its first line-up. */
  ghost predicate Books(mode: Mode, n: nat, start: seq<Fighter>, F: seq<Fighter>) {
    && |F| == |start|
    && (forall i :: 0 <= i < |F| ==> Sound(F[i], n) && SameEntry(start[i], F[i]))
    && SumR(F, Value) == SumR(start, Value)
    && (mode == Normal ==> forall k :: 0 <= k < n ==> SumR(F, TokenOf(k)) == SumR(start, TokenOf(k)))
  }

  lemma UpdateKeeps(mode: Mode, n: nat, start: seq<Fighter>, F: seq<Fighter>, i: nat, j: nat, a: Fighter, b: Fighter)
    requires Books(mode, n, start, F) && i < |F| && j < |F| && i != j
    requires Sound(a, n) && Sound(b, n) && SameEntry(F[i], a) && SameEntry(F[j], b)
    requires Value(a) + Value(b) == Value(F[i]) + Value(F[j])
    requires mode == Normal ==> forall k :: 0 <= k < n ==>
               TokenOf(k)(a) + TokenOf(k)(b) == TokenOf(k)(F[i]) + TokenOf(k)(F[j])
    ensures Books(mode, n, start, F[i := a][j := b])
  {
    hide Sound, Value, TokenOf;
    SumUpdateR(F, i, a, Value);
    SumUpdateR(F[i := a], j, b, Value);
    if mode == Normal {
      forall k | 0 <= k < n
        ensures SumR(F[i := a][j := b], TokenOf(k)) == SumR(start, TokenOf(k))
      {
        SumUpdateR(F, i, a, TokenOf(k));
        SumUpdateR(F[i := a], j, b, TokenOf(k));
      }
    }
  }

  lemma BuryKeeps(f: Fighter, n: nat)
    requires Sound(f, n)
    ensures Sound(Bury(f), n) && SameEntry(f, Bury(f)) && Value(Bury(f)) == Value(f)
    ensures forall k :: TokenOf(k)(Bury(f)) == TokenOf(k)(f)
  {
  }

  lemma ClashKeeps(cfg: Config, phys: Physics, t: nat, n: nat, start: seq<Fighter>, x: Melee, i: nat, j: nat)
    requires Books(cfg.mode, n, start, x.F) && i < |x.F| && j < |x.F| && i != j
    ensures Books(cfg.mode, n, start, ClashAt(cfg, phys, t, x, i, j).F)
  {
    hide Sound, Value, Exchange, ExchangeLog, TakeFrom, Fits, Bury;
    var F := x.F;
    var a, b := F[i], F[j];
    if !a.dead && !b.dead && phys(t, i, j).Some? && a.team != b.team {
      var raw := phys(t, i, j).value;
      var late := 2 * t > cfg.steps;
      PlanFits(b, n, Min(raw.0, CapFor(b, a, cfg.hitCapFrac, late)));
      PlanFits(a, n, Min(raw.1, CapFor(a, b, cfg.hitCapFrac, late)));
      var (planB, planA) := Plans(cfg, t, a, b, raw);
      ExchangeEffect(cfg.mode, n, a, b, planB, planA);
      var (a2, b2) := Exchange(cfg.mode, a, b, planB, planA);
      BuryKeeps(a2, n);
      BuryKeeps(b2, n);
      UpdateKeeps(cfg.mode, n, start, F, i, j, Bury(a2), Bury(b2));
    }
  }

  lemma {:induction false} ClashesKeep(cfg: Config, phys: Physics, t: nat, n: nat, start: seq<Fighter>, x: Melee, A: seq<nat>, i: nat, j: nat)
    requires Books(cfg.mode, n, start, x.F) && Roster(A, |x.F|) && i < j
    ensures Books(cfg.mode, n, start, ClashesFrom(cfg, phys, t, x, A, i, j).F)
    decreases |A| - i, |A| - j
  {
    hide ClashAt, Books;
    if i < |A| {
      if j >= |A| {
        ClashesKeep(cfg, phys, t, n, start, x, A, i + 1, i + 2);
      } else {
        ClashKeeps(cfg, phys, t, n, start, x, A[i], A[j]);
        ClashesKeep(cfg, phys, t, n, start, ClashAt(cfg, phys, t, x, A[i], A[j]), A, i, j + 1);
      }
    }
  }

  /** Over a whole fight on any trajectory: nobody goes negative or holds a raided pot of its own team,
    * total value is conserved, and in normal mode so is every team's original coin. */
  lemma {:induction false} PlayKeeps(cfg: Config, phys: Physics, t: nat, n: nat, start: seq<Fighter>, x: Melee)
    requires Books(cfg.mode, n, start, x.F)
    ensures Books(cfg.mode, n, start, PlayFrom(cfg, phys, t, x).F)
    decreases cfg.steps - t
  {
    hide Books, ClashesFrom;
    if t < cfg.steps {
      var A := LivingFrom(x.F, 0);
      if !OneTeamLeft(x.F, A) {
        ClashesKeep(cfg, phys, t, n, start, x, A, 0, 1);
        PlayKeeps(cfg, phys, t + 1, n, start, ClashesFrom(cfg, phys, t, x, A, 0, 1));
      }
    }
  }
}
