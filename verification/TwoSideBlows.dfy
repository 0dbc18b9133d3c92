/** What a blow of the two-army fight is, told apart from how it is computed: which coin it takes and how
  * much, where the loot goes, who meets whom in a tick, and when a fighter or a fight is over. */
module TwoSideBlows {
  import opened Basics
  import opened Sums
  import opened TwoSideSim
  import opened TwoSideTheorems
  import opened Pairs

  // ---- one blow ----

  /** Stolen coin is lost first, once there is more than a speck of it, and a blow takes one coin only:
    * no more of it than is held. */
  lemma StolenCoinFirst(def: Fighter, dmg: real)
    requires def.side.Army?
    ensures OnTheRightCoin(PlanHit(def, dmg), def, dmg)
  {
    CampCases(def.side);
  }

  ghost predicate OnTheRightCoin(hit: Hit, def: Fighter, dmg: real) {
    && (def.side == Army(Bull) && def.uwu > 0.05 ==> hit == Hit(Uwu, Min(dmg, def.uwu)))
    && (def.side == Army(Bull) && def.uwu <= 0.05 ==> hit == Hit(Bull, Min(dmg, def.bull)))
    && (def.side == Army(Uwu) && def.bull > 0.05 ==> hit == Hit(Bull, Min(dmg, def.bull)))
    && (def.side == Army(Uwu) && def.bull <= 0.05 ==> hit == Hit(Uwu, Min(dmg, def.uwu)))
  }

  /** The most a blow may take: the least of the whole ring and a share of either ring; but past half time
    * all of a ring that is below 8% of the attacker's. */
  ghost predicate IsCap(cap: real, def: Fighter, atk: Fighter, share: real, late: bool) {
    var mine, his := def.bull + def.uwu, atk.bull + atk.uwu;
    if late && 100.0 * mine < 8.0 * his then cap == mine
    else
      && cap <= mine && cap <= mine * share && cap <= his * share
      && (cap == mine || cap == mine * share || cap == his * share)
  }

  /** In a duel the share grows from once to four times itself over the fight. */
  ghost predicate IsBoost(boost: real, t: nat, steps: nat, duel: bool) {
    var whole := if steps == 0 then 1.0 else steps as real;
    if duel then boost * whole == whole + 3.0 * t as real else boost == 1.0
  }

  function Share(frac: real, boost: real): real { frac * boost }

  /** A blow on `def` is the raw strength, capped, on the coin that goes first. */
  ghost predicate IsBlow(cfg: Config, t: nat, duel: bool, hit: Hit, def: Fighter, atk: Fighter, raw: real) {
    exists boost: real, cap: real :: BlowUnder(boost, cap, cfg, t, duel, hit, def, atk, raw)
  }

  ghost predicate BlowUnder(boost: real, cap: real, cfg: Config, t: nat, duel: bool, hit: Hit, def: Fighter, atk: Fighter, raw: real) {
    && IsBoost(boost, t, cfg.steps, duel) && IsCap(cap, def, atk, Share(cfg.hitCapFrac, boost), 2 * t > cfg.steps)
    && OnTheRightCoin(hit, def, Min(raw, cap))
  }

  lemma BothAreBlows(cfg: Config, t: nat, duel: bool, a: Fighter, b: Fighter, raw: (real, real))
    requires a.side.Army? && b.side.Army? && cfg.hitCapFrac >= 0.0
    ensures var (onB, onA) := Plans(cfg, t, duel, a, b, raw);
            IsBlow(cfg, t, duel, onB, b, a, raw.0) && IsBlow(cfg, t, duel, onA, a, b, raw.1)
  {
    hide PlanHit, CapFor;
    var boost := if duel then 1.0 + 3.0 * (t as real / Max(1.0, cfg.steps as real)) else 1.0;
    BoostIs(t, cfg.steps, duel, boost);
    OneIsBlow(cfg, t, duel, b, a, raw.0, boost);
    OneIsBlow(cfg, t, duel, a, b, raw.1, boost);
  }

  lemma OneIsBlow(cfg: Config, t: nat, duel: bool, def: Fighter, atk: Fighter, raw: real, boost: real)
    requires def.side.Army? && cfg.hitCapFrac >= 0.0 && boost >= 0.0 && IsBoost(boost, t, cfg.steps, duel)
    ensures IsBlow(cfg, t, duel, PlanHit(def, Min(raw, CapFor(def, atk, cfg.hitCapFrac, 2 * t > cfg.steps, boost))), def, atk, raw)
  {
    hide PlanHit, CapFor, OnTheRightCoin, IsCap, IsBoost, Share;
    var cap := CapFor(def, atk, cfg.hitCapFrac, 2 * t > cfg.steps, boost);
    CapIs(def, atk, cfg.hitCapFrac, 2 * t > cfg.steps, boost);
    StolenCoinFirst(def, Min(raw, cap));
    assert BlowUnder(boost, cap, cfg, t, duel, PlanHit(def, Min(raw, cap)), def, atk, raw);
  }

  lemma BoostIs(t: nat, steps: nat, duel: bool, boost: real)
    requires boost == if duel then 1.0 + 3.0 * (t as real / Max(1.0, steps as real)) else 1.0
    ensures IsBoost(boost, t, steps, duel) && boost >= 0.0
  {
    var whole := if steps == 0 then 1.0 else steps as real;
    assert t as real / whole * whole == t as real;
  }

  lemma CapIs(def: Fighter, atk: Fighter, frac: real, late: bool, boost: real)
    requires frac >= 0.0 && boost >= 0.0
    ensures IsCap(CapFor(def, atk, frac, late, boost), def, atk, Share(frac, boost), late)
  {
    var mine, his := Ring(def), Ring(atk);
    assert frac * boost >= 0.0;
    assert mine * frac * boost == mine * (frac * boost) && his * frac * boost == his * (frac * boost);
    if mine < his {
      assert (his - mine) * (frac * boost) >= 0.0;
    } else {
      assert (mine - his) * (frac * boost) >= 0.0;
    }
  }

  // ---- both blows of a clash ----

  /** What a planned blow comes to: nothing when it is too small to register. */
  function Real(hit: Hit): real { if hit.amt <= 0.01 then 0.0 else hit.amt }

  function Part(hit: Hit, tk: Side): real { if hit.tk == tk then Real(hit) else 0.0 }

  /** `f` lost one blow and won another: what it lost left its ring; what it won entered its ring, or in
    * extraction mode its bank; and its statistics say so. */
  ghost predicate Traded(mode: Mode, f: Fighter, f': Fighter, lost: Hit, won: Hit) {
    && f'.bull == f.bull - Part(lost, Bull) + (if mode == Normal then Part(won, Bull) else 0.0)
    && f'.uwu == f.uwu - Part(lost, Uwu) + (if mode == Normal then Part(won, Uwu) else 0.0)
    && f'.sBull == f.sBull + (if mode == Extraction then Part(won, Bull) else 0.0)
    && f'.sUwu == f.sUwu + (if mode == Extraction then Part(won, Uwu) else 0.0)
    && f'.raided == f.raided + Real(won) && f'.dmgDealt == f.dmgDealt + Real(won)
    && f'.dmgTaken == f.dmgTaken + Real(lost)
    && f'.bestHit == (if Real(won) > f.bestHit && won.amt > 0.01 then Real(won) else f.bestHit)
    && f'.id == f.id && f'.side == f.side && f'.deposited == f.deposited && f'.unmatched == f.unmatched
  }

  lemma BothTrade(mode: Mode, a: Fighter, b: Fighter, onB: Hit, onA: Hit)
    requires onB.amt <= Holding(b, onB.tk) && onA.amt <= Holding(a, onA.tk)
    ensures var (a2, b2) := Exchange(mode, a, b, onB, onA);
            && Traded(mode, a, a2, onA, onB) && Traded(mode, b, b2, onB, onA)
            && a2.dead == a.dead && b2.dead == b.dead
  {
    LossAndGainCommute(mode, a, onA, b, onB);
    OneTrade(mode, a, b, onA, onB, Suffer(a, onA));
    RewardByAmount(mode, Suffer(b, onB), Reward(mode, a, b, onB), a, onA);
    OneTrade(mode, b, a, onB, onA, Suffer(b, onB));
  }

  /** Losing one blow and being rewarded for another. */
  lemma OneTrade(mode: Mode, f: Fighter, foe: Fighter, lost: Hit, won: Hit, f1: Fighter)
    requires lost.amt <= Holding(f, lost.tk) && won.amt <= Holding(foe, won.tk) && f1 == Suffer(f, lost)
    ensures Traded(mode, f, Reward(mode, f1, foe, won), lost, won) && Reward(mode, f1, foe, won).dead == f.dead
  {
    var g := Reward(mode, f1, foe, won);
    assert Landed(foe, won) == won.amt && Landed(f, lost) == lost.amt;
    match (mode, won.tk)
    case (Normal, Bull) =>
    case (Normal, Uwu) =>
    case (Extraction, Bull) =>
    case (Extraction, Uwu) =>
  }

  // ---- one clash ----

  /** A fighter is out for good once its ring is down to its dust: half a cent or 3% of its deposit. */
  ghost predicate Buried(f: Fighter, f': Fighter) {
    f'.dead <==> f.dead || (f'.bull + f'.uwu <= 0.005 || 100.0 * (f'.bull + f'.uwu) <= 3.0 * f.deposited)
  }

  /** Two fighters that touch trade blows exactly when both are standing, on different sides and of
    * different wallets. */
  ghost predicate Meets(x: Melee, i: nat, j: nat, contact: Option<(real, real)>)
    requires i < |x.F| && j < |x.F|
  {
    && contact.Some? && !x.F[i].dead && !x.F[j].dead
    && x.F[i].side != x.F[j].side && OwnerOf(x.F[i].id) != OwnerOf(x.F[j].id)
  }

  ghost predicate Clashed(cfg: Config, t: nat, duel: bool, x: Melee, x': Melee, i: nat, j: nat, onB: Hit, onA: Hit, raw: (real, real))
    requires i < |x.F| && j < |x.F| && |x'.F| == |x.F|
  {
    var a, b, a', b' := x.F[i], x.F[j], x'.F[i], x'.F[j];
    && IsBlow(cfg, t, duel, onB, b, a, raw.0) && IsBlow(cfg, t, duel, onA, a, b, raw.1)
    && Traded(cfg.mode, a, a', onA, onB) && Traded(cfg.mode, b, b', onB, onA)
    && Buried(a, a') && Buried(b, b')
    && (forall k :: 0 <= k < |x.F| && k != i && k != j ==> x'.F[k] == x.F[k])
    && x'.hits == x.hits + (if onB.amt > 0.01 then [HitLog(t, a.id, b.id, onB.amt, onB.tk)] else [])
                         + (if onA.amt > 0.01 then [HitLog(t, b.id, a.id, onA.amt, onA.tk)] else [])
  }

  /** What one pair does in a tick, in full: nothing unless they meet; and if they do, both blows, planned on
    * what each held before, change the two and the log, and nothing else. */
  lemma ClashIsTwoBlows(cfg: Config, phys: Physics, t: nat, duel: bool, x: Melee, i: nat, j: nat) returns (onB: Hit, onA: Hit)
    requires i < |x.F| && j < |x.F| && i != j && x.F[i].side.Army? && x.F[j].side.Army? && cfg.hitCapFrac >= 0.0
    ensures var x' := ClashAt(cfg, phys, t, duel, x, i, j);
            if Meets(x, i, j, phys(t, i, j)) then Clashed(cfg, t, duel, x, x', i, j, onB, onA, phys(t, i, j).value)
            else x' == x
  {
    hide Plans, Exchange, ExchangeLog, IsBlow, Traded, Bury;
    onB, onA := Hit(Bull, 0.0), Hit(Bull, 0.0);
    if Meets(x, i, j, phys(t, i, j)) {
      var a, b := x.F[i], x.F[j];
      var plans := Plans(cfg, t, duel, a, b, phys(t, i, j).value);
      onB, onA := plans.0, plans.1;
      PlansFit(cfg, t, duel, a, b, phys(t, i, j).value);
      BothAreBlows(cfg, t, duel, a, b, phys(t, i, j).value);
      BothTrade(cfg.mode, a, b, onB, onA);
      var (a2, b2) := Exchange(cfg.mode, a, b, onB, onA);
      BuriedTrade(cfg.mode, a, a2, onA, onB);
      BuriedTrade(cfg.mode, b, b2, onB, onA);
      LogIs(cfg.mode, t, a, b, onB, onA);
    }
  }

  lemma PlansFit(cfg: Config, t: nat, duel: bool, a: Fighter, b: Fighter, raw: (real, real))
    ensures var (onB, onA) := Plans(cfg, t, duel, a, b, raw);
            onB.amt <= Holding(b, onB.tk) && onA.amt <= Holding(a, onA.tk)
  {
  }

  lemma BuriedTrade(mode: Mode, f: Fighter, f': Fighter, lost: Hit, won: Hit)
    requires Traded(mode, f, f', lost, won) && f'.dead == f.dead
    ensures Traded(mode, f, Bury(f'), lost, won) && Buried(f, Bury(f'))
  {
  }

  lemma LogIs(mode: Mode, t: nat, a: Fighter, b: Fighter, onB: Hit, onA: Hit)
    requires onB.amt <= Holding(b, onB.tk) && onA.amt <= Holding(a, onA.tk)
    ensures ExchangeLog(mode, t, a, b, onB, onA)
         == (if onB.amt > 0.01 then [HitLog(t, a.id, b.id, onB.amt, onB.tk)] else [])
            + (if onA.amt > 0.01 then [HitLog(t, b.id, a.id, onA.amt, onA.tk)] else [])
  {
    hide Reward, Suffer;
    LossAndGainCommute(mode, a, onA, b, onB);
    var a1, b1 := Reward(mode, a, b, onB), Suffer(b, onB);
    assert a1.id == a.id by {
      RewardKeepsName(mode, a, b, onB);
    }
    assert b1.id == b.id by {
      SufferKeepsName(b, onB);
    }
  }

  lemma RewardKeepsName(mode: Mode, f: Fighter, foe: Fighter, won: Hit)
    ensures Reward(mode, f, foe, won).id == f.id
  {
  }

  lemma SufferKeepsName(f: Fighter, lost: Hit)
    ensures Suffer(f, lost).id == f.id
  {
  }

  /** As long as a fighter has more than a speck of raided coin, a clash takes none of its own. */
  lemma OwnCoinIsSafe(cfg: Config, t: nat, duel: bool, x: Melee, x': Melee, i: nat, j: nat, onB: Hit, onA: Hit, raw: (real, real), s: Side)
    requires i < |x.F| && j < |x.F| && |x'.F| == |x.F| && Clashed(cfg, t, duel, x, x', i, j, onB, onA, raw)
    ensures x.F[j].side == Army(s) && Holding(x.F[j], Foe(s)) > 0.05 ==> Holding(x'.F[j], s) >= Holding(x.F[j], s)
    ensures x.F[i].side == Army(s) && Holding(x.F[i], Foe(s)) > 0.05 ==> Holding(x'.F[i], s) >= Holding(x.F[i], s)
  {
    hide IsCap, IsBoost, Buried;
    CampCases(Army(s));
  }

  // ---- one tick ----

  /** The roster of a tick is exactly the fighters on their feet with more than dust in the ring. */
  lemma {:induction false} RosterIsTheLiving(F: seq<Fighter>, k: nat, l: nat)
    requires k <= l < |F|
    ensures l in LivingFrom(F, k)
            <==> !F[l].dead && F[l].bull + F[l].uwu > 0.005 && 100.0 * (F[l].bull + F[l].uwu) > 3.0 * F[l].deposited
    decreases l - k
  {
    if k < l {
      RosterIsTheLiving(F, k + 1, l);
    }
  }

  /** One clash after the other, over a list of pairs of the roster. */
  function ClashAll(cfg: Config, phys: Physics, t: nat, duel: bool, x: Melee, A: seq<nat>, ps: seq<(nat, nat)>): (x': Melee)
    requires Roster(A, |x.F|) && forall k :: 0 <= k < |ps| ==> ps[k].0 < ps[k].1 < |A|
    ensures |x'.F| == |x.F|
    decreases |ps|
  {
    if ps == [] then x
    else ClashAll(cfg, phys, t, duel, ClashAt(cfg, phys, t, duel, x, A[ps[0].0], A[ps[0].1]), A, ps[1..])
  }

  lemma {:induction false} ClashesAreAll(cfg: Config, phys: Physics, t: nat, duel: bool, x: Melee, A: seq<nat>, i: nat, j: nat)
    requires Roster(A, |x.F|) && i < j
    ensures forall k :: 0 <= k < |PairsFrom(|A|, i, j)| ==> PairsFrom(|A|, i, j)[k].0 < PairsFrom(|A|, i, j)[k].1 < |A|
    ensures ClashesFrom(cfg, phys, t, duel, x, A, i, j) == ClashAll(cfg, phys, t, duel, x, A, PairsFrom(|A|, i, j))
    decreases |A| - i, |A| - j
  {
    hide ClashAt;
    if i < |A| {
      if j >= |A| {
        ClashesAreAll(cfg, phys, t, duel, x, A, i + 1, i + 2);
      } else {
        ClashesAreAll(cfg, phys, t, duel, ClashAt(cfg, phys, t, duel, x, A[i], A[j]), A, i, j + 1);
        var rest := PairsFrom(|A|, i, j + 1);
        assert ([(i, j)] + rest)[1..] == rest;
      }
    }
  }

  /** In a tick every two fighters of the roster get their clash, once, in roster order. */
  lemma EveryPairClashesOnce(cfg: Config, phys: Physics, t: nat, duel: bool, x: Melee, A: seq<nat>) returns (ps: seq<(nat, nat)>)
    requires Roster(A, |x.F|)
    ensures EachPairOnce(ps, |A|)
    ensures ClashesFrom(cfg, phys, t, duel, x, A, 0, 1) == ClashAll(cfg, phys, t, duel, x, A, ps)
  {
    hide ClashAll, ClashesFrom;
    ps := PairsFrom(|A|, 0, 1);
    AllPairs(|A|);
    ClashesAreAll(cfg, phys, t, duel, x, A, 0, 1);
  }

  // ---- how a fight goes on, and when it is over ----

  /** The positions in the roster of a side's fighters. */
  ghost function Standing(F: seq<Fighter>, A: seq<nat>, side: Side): set<nat>
    requires Roster(A, |F|)
  {
    set k | 0 <= k < |A| && F[A[k]].side == Army(side) :: A[k]
  }

  lemma {:induction false} CountIsTheNumber(F: seq<Fighter>, A: seq<nat>, side: Side)
    requires Roster(A, |F|)
    ensures Count(F, A, side) == |Standing(F, A, side)|
    decreases |A|
  {
    if A == [] {
      assert Standing(F, A, side) == {};
    } else {
      var rest := A[1..];
      CountIsTheNumber(F, rest, side);
      assert forall k :: 0 <= k < |rest| ==> rest[k] == A[k + 1];
      var tail := Standing(F, rest, side);
      assert A[0] !in tail;
      if F[A[0]].side == Army(side) {
        assert Standing(F, A, side) == tail + {A[0]} by {
          StandingSplits(F, A, side);
        }
      } else {
        assert Standing(F, A, side) == tail by {
          StandingSplits(F, A, side);
        }
      }
    }
  }

  lemma StandingSplits(F: seq<Fighter>, A: seq<nat>, side: Side)
    requires Roster(A, |F|) && A != []
    ensures Standing(F, A, side) == Standing(F, A[1..], side) + (if F[A[0]].side == Army(side) then {A[0]} else {})
  {
    var rest := A[1..];
    forall m
      ensures m in Standing(F, A, side) <==> m in Standing(F, rest, side) || (m == A[0] && F[A[0]].side == Army(side))
    {
      if m in Standing(F, A, side) {
        var k :| 0 <= k < |A| && F[A[k]].side == Army(side) && A[k] == m;
        if k > 0 {
          assert rest[k - 1] == m;
        }
      }
      if m in Standing(F, rest, side) {
        var k :| 0 <= k < |rest| && F[rest[k]].side == Army(side) && rest[k] == m;
        assert A[k + 1] == m;
      }
    }
  }

  /** A tick of a fight that goes on: it is over at once when a side has nobody standing, or when time is up;
    * otherwise every pair clashes, as a duel exactly when one stands on each side, and the clock moves. */
  lemma TickIs(cfg: Config, phys: Physics, s: Sim)
    requires !s.done
    ensures var A, s' := LivingFrom(s.x.F, 0), StepSim(cfg, phys, s);
            var bulls, uwus := Standing(s.x.F, A, Bull), Standing(s.x.F, A, Uwu);
            if bulls == {} || uwus == {} then s' == Sim(s.x, s.t, s.t, true)
            else if s.t >= cfg.steps then s' == Sim(s.x, s.t, cfg.steps, true)
            else
              && s'.x == ClashesFrom(cfg, phys, s.t, |bulls| == 1 && |uwus| == 1, s.x, A, 0, 1)
              && s'.t == s.t + 1 && (s'.done <==> s'.t >= cfg.steps) && s'.endTick == (if s'.done then cfg.steps else s.endTick)
  {
    hide ClashesFrom, Standing, Count;
    var A := LivingFrom(s.x.F, 0);
    CountIsTheNumber(s.x.F, A, Bull);
    CountIsTheNumber(s.x.F, A, Uwu);
    assert forall X: set<nat> :: |X| == 0 ==> X == {};
  }

  /** A fight is played to its end: it stops with a side wiped out, or with all its ticks played. */
  lemma {:induction false} PlayedToTheEnd(cfg: Config, phys: Physics, s: Sim)
    requires !s.done && s.t <= cfg.steps
    ensures var e := Play(cfg, phys, s);
            && e.done && s.t <= e.t <= cfg.steps
            && (e.endTick == e.t == cfg.steps
                || (e.endTick == e.t && var A := LivingFrom(e.x.F, 0); Standing(e.x.F, A, Bull) == {} || Standing(e.x.F, A, Uwu) == {}))
    decreases cfg.steps - s.t
  {
    hide StepSim, Standing;
    TickIs(cfg, phys, s);
    var s' := StepSim(cfg, phys, s);
    assert Play(cfg, phys, s) == Play(cfg, phys, s');
    if !s'.done {
      PlayedToTheEnd(cfg, phys, s');
    }
  }
}
