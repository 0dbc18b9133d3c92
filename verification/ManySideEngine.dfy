/** The running N-army simulation, proved against the functions on values. */
module ManySideEngine {
  import opened Basics
  import opened Sums
  import opened ManySideSim
  import opened ManySideTheorems

  class BattleN {
    const cfg: Config
    const phys: Physics
    var F: seq<Fighter>
    var hits: seq<HitLog>
    var endTick: nat

    ghost function View(): Melee
      reads this
    {
      Melee(F, hits)
    }

    constructor (entries: seq<Entry>, cfg: Config, phys: Physics)
      requires TeamsExist(cfg, entries)
      ensures this.cfg == cfg && this.phys == phys && endTick == cfg.steps
      ensures View() == Melee(Muster(cfg, entries), [])
    {
      hide CapPer, Enlist, Frac;
      var nTeams := TeamCount(cfg, entries);
      var totals := seq(nTeams, _ => 0.0);
      for i := 0 to |entries|
        invariant |totals| == nTeams
        invariant forall k :: 0 <= k < nTeams ==> totals[k] == TeamTotal(cfg, entries, i, k)
      {
        var team := TeamOf(cfg, entries, i);
        totals := totals[team := totals[team] + entries[i].stake];
      }
      assert totals == Totals(cfg, entries);
      var capPer := CapPer(cfg, totals);
      var fs := [];
      for i := 0 to |entries|
        invariant fs == Muster(cfg, entries)[..i]
      {
        var e, team := entries[i], TeamOf(cfg, entries, i);
        fs := fs + [Enlist(e.id, team, nTeams, e.stake, InPlay(e.stake, Frac(totals[team], capPer)))];
      }
      this.cfg, this.phys := cfg, phys;
      F, hits, endTick := fs, [], cfg.steps;
    }

    /** One blow, item by item, on the two fighters in place. */
    method ApplyPlan(t: nat, atk: nat, def: nat, plan: seq<Take>)
      requires atk < |F| && def < |F| && atk != def
      modifies this`F, this`hits
      ensures hits == old(hits) + LogOf(cfg.mode, t, old(F)[atk], old(F)[def], plan)
      ensures var (a, d) := Apply(cfg.mode, old(F)[atk], old(F)[def], plan);
              F == old(F)[atk := a][def := d]
    {
      hide Win, Lose, Holding;
      var got := 0.0;
      ghost var goal := Land(cfg.mode, Landing(F[atk], F[def], 0.0), plan);
      for i := 0 to |plan|
        invariant |F| == |old(F)| && F == old(F)[atk := F[atk]][def := F[def]] && hits == old(hits)
        invariant Land(cfg.mode, Landing(F[atk], F[def], got), plan[i..]) == goal
      {
        var src := plan[i].src;
        assert plan[i..][0] == plan[i] && plan[i..][1..] == plan[i + 1..];
        var take := Min(plan[i].amt, Holding(F[def], src));
        if take > 0.005 {
          var coin := CoinOf(src, F[def].team);
          F := F[def := Lose(F[def], src, take)];
          F := F[atk := Win(cfg.mode, F[atk], coin, take)];
          got := got + take;
        }
      }
      if got <= 0.005 {
        return;
      }
      assert F[atk].id == old(F)[atk].id && F[def].id == old(F)[def].id by {
        LandKeepsNames(cfg.mode, Landing(old(F)[atk], old(F)[def], 0.0), plan);
      }
      hits := hits + [HitLog(t, F[atk].id, F[def].id, got)];
      F := F[atk := F[atk].(raided := F[atk].raided + got, dmgDealt := F[atk].dmgDealt + got)];
      F := F[def := F[def].(dmgTaken := F[def].dmgTaken + got)];
      if got > F[atk].bestHit {
        F := F[atk := F[atk].(bestHit := got)];
      }
    }

    method Collide(t: nat, i: nat, j: nat)
      requires i < |F| && j < |F| && i != j
      modifies this`F, this`hits
      ensures View() == ClashAt(cfg, phys, t, old(View()), i, j)
    {
      hide Apply, Bury, CapFor, Min, TakeFrom, LogOf;
      var a, b := F[i], F[j];
      if a.dead || b.dead {
        return;
      }
      var contact := phys(t, i, j);
      if contact.None? || a.team == b.team {
        return;
      }
      var late := 2 * t > cfg.steps;
      var dAB := Min(contact.value.0, CapFor(b, a, cfg.hitCapFrac, late));
      var dBA := Min(contact.value.1, CapFor(a, b, cfg.hitCapFrac, late));
      var planB := PlanTaking(b, dAB);
      var planA := PlanTaking(a, dBA);
      ApplyPlan(t, i, j, planB);
      ApplyPlan(t, j, i, planA);
      F := F[i := Bury(F[i])];
      F := F[j := Bury(F[j])];
      ghost var (a2, b2) := Exchange(cfg.mode, a, b, planB, planA);
      assert F == old(F)[i := Bury(a2)][j := Bury(b2)];
      assert hits == old(hits) + ExchangeLog(cfg.mode, t, a, b, planB, planA);
    }

    method Clashes(t: nat, A: seq<nat>)
      requires Roster(A, |F|)
      modifies this`F, this`hits
      ensures View() == ClashesFrom(cfg, phys, t, old(View()), A, 0, 1)
    {
      hide ClashAt;
      ghost var goal := ClashesFrom(cfg, phys, t, View(), A, 0, 1);
      for i := 0 to |A|
        invariant |F| == |old(F)|
        invariant ClashesFrom(cfg, phys, t, View(), A, i, i + 1) == goal
      {
        for j := i + 1 to |A|
          invariant |F| == |old(F)|
          invariant ClashesFrom(cfg, phys, t, View(), A, i, j) == goal
        {
          Collide(t, A[i], A[j]);
        }
      }
    }

    /** The whole fight: it stops at the first tick that finds fewer than two teams standing. */
    method Run()
      requires endTick == cfg.steps
      modifies this
      ensures View() == PlayFrom(cfg, phys, 0, old(View()))
      ensures endTick <= cfg.steps
      ensures endTick < cfg.steps ==> OneTeamLeft(F, LivingFrom(F, 0))
    {
      hide ClashesFrom;
      ghost var goal := PlayFrom(cfg, phys, 0, View());
      for t := 0 to cfg.steps
        invariant endTick == cfg.steps && PlayFrom(cfg, phys, t, View()) == goal
      {
        var A := LivingFrom(F, 0);
        if OneTeamLeft(F, A) {
          endTick := t;
          return;
        }
        Clashes(t, A);
      }
    }

    /** The search for the biggest bag. */
    method BiggestBag() returns (winnerId: string)
      ensures winnerId == WinnerId(F)
    {
      hide Payout;
      winnerId := "";
      var bestBag := -1.0;
      for k := 0 to |F|
        invariant Leading(F, k, bestBag, winnerId) == WinnerId(F)
      {
        if Payout(F[k]) > bestBag {
          bestBag, winnerId := Payout(F[k]), F[k].id;
        }
      }
    }

    /** The first team with the greatest total. */
    method BestTeam(teamTotals: seq<real>) returns (winnerTeam: nat)
      ensures |teamTotals| > 0 ==> winnerTeam < |teamTotals|
      ensures |teamTotals| > 0 ==> forall k :: 0 <= k < |teamTotals| ==> teamTotals[k] <= teamTotals[winnerTeam]
      ensures |teamTotals| > 0 ==> forall k :: 0 <= k < winnerTeam ==> teamTotals[k] < teamTotals[winnerTeam]
    {
      winnerTeam := 0;
      for i := 0 to |teamTotals|
        invariant |teamTotals| > 0 ==> winnerTeam < |teamTotals|
        invariant winnerTeam == 0 || winnerTeam < i
        invariant forall k :: 0 <= k < i ==> teamTotals[k] <= teamTotals[winnerTeam]
        invariant forall k :: 0 <= k < winnerTeam ==> teamTotals[k] < teamTotals[winnerTeam]
      {
        if teamTotals[i] > teamTotals[winnerTeam] {
          winnerTeam := i;
        }
      }
    }

    /** Ring plus bank per team, the team with the most of it, and the fighter with the biggest bag. */
    method Finish(nTeams: nat)
      returns (teamTotals: seq<real>, winnerTeam: nat, winnerId: string, settlement: map<string, real>)
      requires forall f :: f in F ==> f.team < nTeams
      ensures |teamTotals| == nTeams
      ensures forall k :: 0 <= k < nTeams ==> teamTotals[k] == SumR(F, WorthOn(k))
      ensures nTeams > 0 ==> winnerTeam < nTeams && forall k :: 0 <= k < nTeams ==> teamTotals[k] <= teamTotals[winnerTeam]
      ensures forall k :: 0 <= k < nTeams && k < winnerTeam ==> teamTotals[k] < teamTotals[winnerTeam]
      ensures winnerId == WinnerId(F) && settlement == Settlement(F)
    {
      hide Ring, SumR, Settlement, WorthOn, Payout;
      winnerId := BiggestBag();
      NothingCounted(F, nTeams);
      teamTotals := seq(nTeams, _ => 0.0);
      settlement := map[];
      for i := 0 to |F|
        invariant |teamTotals| == nTeams
        invariant forall k :: 0 <= k < nTeams ==> teamTotals[k] == SumR(F[..i], WorthOn(k))
        invariant settlement == Settlement(F[..i])
      {
        var f := F[i];
        CountOneMore(F, i, nTeams);
        teamTotals := teamTotals[f.team := teamTotals[f.team] + (Ring(f) + f.banked)];
        settlement := settlement[f.id := Payout(f)];
      }
      assert F[..|F|] == F;
      winnerTeam := BestTeam(teamTotals);
    }
  }

  lemma NothingCounted(F: seq<Fighter>, nTeams: nat)
    ensures Settlement(F[..0]) == map[] && forall k :: 0 <= k < nTeams ==> SumR(F[..0], WorthOn(k)) == 0.0
  {
  }

  lemma CountOneMore(F: seq<Fighter>, i: nat, nTeams: nat)
    requires i < |F|
    ensures Settlement(F[..i + 1]) == Settlement(F[..i])[F[i].id := Payout(F[i])]
    ensures forall k :: 0 <= k < nTeams ==>
              SumR(F[..i + 1], WorthOn(k)) == SumR(F[..i], WorthOn(k)) + (if F[i].team == k then Ring(F[i]) + F[i].banked else 0.0)
  {
    hide Ring, Payout;
    forall k | 0 <= k < nTeams
      ensures SumR(F[..i + 1], WorthOn(k)) == SumR(F[..i], WorthOn(k)) + WorthOn(k)(F[i])
    {
      SumSnocR(F, i, WorthOn(k));
    }
    assert F[..i + 1][..i] == F[..i];
  }

  /** The winner is the first of the fighters with the biggest bag. */
  lemma WinnerHasTheBiggestBag(F: seq<Fighter>) returns (i: nat)
    requires F != [] && forall k :: 0 <= k < |F| ==> Payout(F[k]) >= 0.0
    ensures i < |F| && WinnerId(F) == F[i].id
    ensures forall k :: 0 <= k < |F| ==> Payout(F[k]) <= Payout(F[i])
    ensures forall k :: 0 <= k < i ==> Payout(F[k]) < Payout(F[i])
  {
    hide Payout;
    i := LeaderFrom(F, 0, 1);
  }

  lemma {:induction false} LeaderFrom(F: seq<Fighter>, best: nat, k: nat) returns (i: nat)
    requires best < k <= |F|
    requires forall l :: 0 <= l < k ==> Payout(F[l]) <= Payout(F[best])
    requires forall l :: 0 <= l < best ==> Payout(F[l]) < Payout(F[best])
    ensures i < |F| && Leading(F, k, Payout(F[best]), F[best].id) == F[i].id
    ensures forall l :: 0 <= l < |F| ==> Payout(F[l]) <= Payout(F[i])
    ensures forall l :: 0 <= l < i ==> Payout(F[l]) < Payout(F[i])
    decreases |F| - k
  {
    hide Payout;
    if k == |F| {
      i := best;
    } else {
      i := LeaderFrom(F, if Payout(F[k]) > Payout(F[best]) then k else best, k + 1);
    }
  }

  lemma GrabStep(stolen: seq<real>, ps: seq<nat>, left: real)
    requires Within(ps, |stolen|) && ps != [] && left > 0.0
    ensures var take := Min(stolen[ps[0]], left);
            var (rest, end) := Grab(stolen, ps[1..], left - take);
            Grab(stolen, ps, left) == ([Take(Stolen(ps[0]), take)] + rest, end)
  {
  }

  lemma GrabEnd(stolen: seq<real>, ps: seq<nat>, left: real)
    requires Within(ps, |stolen|) && (ps == [] || left <= 0.0)
    ensures Grab(stolen, ps, left) == ([], left)
  {
  }

  /** A blow's plan, pots first, with the running amount still to take. */
  method PlanTaking(def: Fighter, want: real) returns (plan: seq<Take>)
    ensures plan == TakeFrom(def, want)
  {
    hide Pots, LargestFirst, Grab;
    var order := LargestFirst(def.stolen, Pots(def.stolen, 0));
    plan := [];
    var left := want;
    var i := 0;
    ghost var goal := Grab(def.stolen, order, want);
    assert order[0..] == order;
    while i < |order| && left > 0.0
      invariant 0 <= i <= |order|
      invariant goal.0 == plan + Grab(def.stolen, order[i..], left).0
      invariant goal.1 == Grab(def.stolen, order[i..], left).1
    {
      assert order[i..][0] == order[i] && order[i..][1..] == order[i + 1..];
      var take := Min(def.stolen[order[i]], left);
      GrabStep(def.stolen, order[i..], left);
      plan := plan + [Take(Stolen(order[i]), take)];
      left := left - take;
      i := i + 1;
    }
    GrabEnd(def.stolen, order[i..], left);
    assert plan + [] == plan;
    if left > 0.0 {
      var take := Min(def.own, left);
      if take > 0.0 {
        plan := plan + [Take(Own, take)];
      }
    }
  }

  function WorthOn(k: nat): Fighter -> real {
    (f: Fighter) => if f.team == k then Ring(f) + f.banked else 0.0
  }

  /** What the first `n` teams hold. */
  function HeldByTeams(F: seq<Fighter>, n: nat): real {
    if n == 0 then 0.0 else HeldByTeams(F, n - 1) + SumR(F, WorthOn(n - 1))
  }

  function WorthBelow(n: nat): Fighter -> real {
    (f: Fighter) => if f.team < n then Ring(f) + f.banked else 0.0
  }

  /** The team totals leave nothing out: together they are all that is in rings and banks. */
  lemma {:induction false} TeamsHoldEverything(F: seq<Fighter>, n: nat)
    ensures HeldByTeams(F, n) == SumR(F, WorthBelow(n))
    decreases n
  {
    hide Ring;
    if n == 0 {
      SumSameR(F, F, WorthBelow(0), WorthNothing);
      SumScaleR(F, F, WorthNothing, WorthNothing, 0.0);
    } else {
      TeamsHoldEverything(F, n - 1);
      SumPlusR(F, WorthBelow(n), WorthBelow(n - 1), WorthOn(n - 1));
    }
  }

  function WorthNothing(f: Fighter): real { 0.0 }

  function Settlement(F: seq<Fighter>): map<string, real> {
    if F == [] then map[] else Settlement(F[..|F| - 1])[F[|F| - 1].id := Payout(F[|F| - 1])]
  }

  /** With distinct entry ids the record pays every fighter its own payout and nobody else. */
  lemma {:induction false} SettlementComplete(F: seq<Fighter>)
    requires forall i, j :: 0 <= i < j < |F| ==> F[i].id != F[j].id
    ensures forall i :: 0 <= i < |F| ==> F[i].id in Settlement(F) && Settlement(F)[F[i].id] == Payout(F[i])
    ensures forall id :: id in Settlement(F) ==> exists i :: 0 <= i < |F| && F[i].id == id
    decreases |F|
  {
    hide Payout;
    if F != [] {
      var init := F[..|F| - 1];
      SettlementComplete(init);
      forall id | id in Settlement(F)
        ensures exists i :: 0 <= i < |F| && F[i].id == id
      {
        if id in Settlement(init) {
          var i :| 0 <= i < |init| && init[i].id == id;
          assert F[i].id == id;
        } else {
          assert F[|F| - 1].id == id;
        }
      }
    }
  }
}
