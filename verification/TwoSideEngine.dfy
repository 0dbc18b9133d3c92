/** The running simulation of a two-army fight, proved against the step function on values. */
module TwoSideEngine {
  import opened Basics
  import opened Sums
  import opened TwoSideSim
  import Fight = TwoSideTheorems

  class BattleSim {
    const cfg: Config
    const phys: Physics
    var F: seq<Fighter>
    var hits: seq<HitLog>
    var t: nat
    var endTick: nat
    var done: bool

    ghost function View(): Sim
      reads this
    {
      Sim(Melee(F, hits), t, endTick, done)
    }

    constructor (entries: seq<Entry>, cfg: Config, phys: Physics)
      ensures this.cfg == cfg && this.phys == phys && View() == CreateSim(entries, cfg)
    {
      var bull, uwu := 0.0, 0.0;
      for i := 0 to |entries|
        invariant bull == BookTotal(entries[..i], Bull) && uwu == BookTotal(entries[..i], Uwu)
      {
        SumSnocR(entries, i, BookOn(Bull));
        SumSnocR(entries, i, BookOn(Uwu));
        Fight.SideNamesDiffer();
        if Text(entries[i].side) == "bull" {
          bull := bull + entries[i].stake;
        } else if Text(entries[i].side) == "uwu" {
          uwu := uwu + entries[i].stake;
        }
      }
      assert entries[..|entries|] == entries;
      var fs := [];
      for i := 0 to |entries|
        invariant fs == Muster(entries, cfg.matchTol)[..i]
      {
        var e := entries[i];
        var capBase := if e.side == Army(Bull) then uwu else bull;
        var frac := if Text(e.side) == "bull" then InPlayFrac(bull, capBase, cfg.matchTol)
                    else if Text(e.side) == "uwu" then InPlayFrac(uwu, capBase, cfg.matchTol)
                    else 1.0;
        fs := fs + [Spawn(e, frac)];
      }
      this.cfg, this.phys := cfg, phys;
      F, hits, t, endTick, done := fs, [], 0, cfg.steps, false;
    }

    method ApplyHit(a: nat, d: nat, hit: Hit)
      requires a < |F| && d < |F| && a != d
      modifies this`F, this`hits
      ensures F == old(F)[a := Reward(cfg.mode, old(F)[a], old(F)[d], hit)][d := Suffer(old(F)[d], hit)]
      ensures hits == old(hits) + LogOf(t, old(F)[a], old(F)[d], hit)
    {
      var atk, def := F[a], F[d];
      var amt := Min(hit.amt, if hit.tk == Bull then def.bull else def.uwu);
      if amt <= 0.01 {
        return;
      }
      def := if hit.tk == Bull then def.(bull := def.bull - amt) else def.(uwu := def.uwu - amt);
      if cfg.mode == Extraction {
        atk := if hit.tk == Bull then atk.(sBull := atk.sBull + amt) else atk.(sUwu := atk.sUwu + amt);
      } else {
        atk := if hit.tk == Bull then atk.(bull := atk.bull + amt) else atk.(uwu := atk.uwu + amt);
      }
      atk := atk.(raided := atk.raided + amt, dmgDealt := atk.dmgDealt + amt);
      def := def.(dmgTaken := def.dmgTaken + amt);
      if amt > atk.bestHit {
        atk := atk.(bestHit := amt);
      }
      F := F[a := atk][d := def];
      hits := hits + [HitLog(t, atk.id, def.id, amt, hit.tk)];
    }

    /** One colliding pair: both blows planned on the state before either, then applied. */
    method Collide(i: nat, j: nat, duel: bool)
      requires i < |F| && j < |F| && i != j
      modifies this`F, this`hits
      ensures Melee(F, hits) == ClashAt(cfg, phys, t, duel, old(Melee(F, hits)), i, j)
    {
      hide Reward, Suffer, LogOf, Plans;
      var a, b := F[i], F[j];
      if a.dead || b.dead {
        return;
      }
      var contact := phys(t, i, j);
      if contact.None? {
        return;
      }
      if a.side == b.side {
        return;
      }
      if OwnerOf(a.id) == OwnerOf(b.id) {
        return;
      }
      var (hitOnB, hitOnA) := Plans(cfg, t, duel, a, b, contact.value);
      ApplyHit(i, j, hitOnB);
      ApplyHit(j, i, hitOnA);
      F := F[i := Bury(F[i])];
      F := F[j := Bury(F[j])];
      ghost var (a2, b2) := Exchange(cfg.mode, a, b, hitOnB, hitOnA);
      assert F == old(F)[i := Bury(a2)][j := Bury(b2)];
      assert hits == old(hits) + ExchangeLog(cfg.mode, t, a, b, hitOnB, hitOnA);
    }

    method StepSim()
      modifies this
      ensures View() == TwoSideSim.StepSim(cfg, phys, old(View()))
    {
      if done {
        return;
      }
      var A := LivingFrom(F, 0);
      var bulls, unis := Count(F, A, Bull), Count(F, A, Uwu);
      if bulls == 0 || unis == 0 {
        endTick, done := t, true;
        return;
      }
      if t >= cfg.steps {
        endTick, done := cfg.steps, true;
        return;
      }
      var duel := bulls == 1 && unis == 1;
      Clashes(A, duel);
      t := t + 1;
      if t >= cfg.steps {
        endTick, done := cfg.steps, true;
      }
    }

    /** The double loop over the fighters that were alive when the tick began. */
    method Clashes(A: seq<nat>, duel: bool)
      requires Roster(A, |F|)
      modifies this`F, this`hits
      ensures |F| == |old(F)|
      ensures Melee(F, hits) == ClashesFrom(cfg, phys, t, duel, old(Melee(F, hits)), A, 0, 1)
    {
      hide ClashAt;
      ghost var goal := ClashesFrom(cfg, phys, t, duel, Melee(F, hits), A, 0, 1);
      for i := 0 to |A|
        invariant |F| == |old(F)|
        invariant ClashesFrom(cfg, phys, t, duel, Melee(F, hits), A, i, i + 1) == goal
      {
        for j := i + 1 to |A|
          invariant |F| == |old(F)|
          invariant ClashesFrom(cfg, phys, t, duel, Melee(F, hits), A, i, j) == goal
        {
          Collide(A[i], A[j], duel);
        }
      }
    }

    method Run()
      modifies this
      ensures View() == Play(cfg, phys, old(View())) && done
    {
      hide TwoSideSim.StepSim;
      ghost var goal := Play(cfg, phys, View());
      while !done
        invariant Play(cfg, phys, View()) == goal
        decreases !done, cfg.steps - t
      {
        StepMoves(cfg, phys, View());
        StepSim();
      }
    }

    /** The settlement record and the winner, read off the finished fight. */
    method Finish() returns (settlement: map<string, Payout>, winner: Side)
      ensures settlement == Settlement(F) && winner == WinnerOf(F)
    {
      var bullV, uwuV := 0.0, 0.0;
      settlement := map[];
      for i := 0 to |F|
        invariant bullV == SumR(F[..i], WorthOn(Bull)) && uwuV == SumR(F[..i], WorthOn(Uwu))
        invariant settlement == Settlement(F[..i])
      {
        SumSnocR(F, i, WorthOn(Bull));
        SumSnocR(F, i, WorthOn(Uwu));
        var f := F[i];
        if f.side == Army(Bull) {
          bullV := bullV + (f.bull + f.uwu + f.sBull + f.sUwu);
        } else if f.side == Army(Uwu) {
          uwuV := uwuV + (f.bull + f.uwu + f.sBull + f.sUwu);
        }
        assert F[..i + 1][..i] == F[..i];
        settlement := settlement[f.id := Payout(f.id,
          f.bull + f.sBull + (if f.side == Army(Bull) then f.unmatched else 0.0),
          f.uwu + f.sUwu + (if f.side == Army(Uwu) then f.unmatched else 0.0))];
      }
      assert F[..|F|] == F;
      winner := if bullV >= uwuV then Bull else Uwu;
    }
  }

  /** Every step either ends the fight or moves the clock. */
  lemma StepMoves(cfg: Config, phys: Physics, s: Sim)
    requires !s.done
    ensures var s' := TwoSideSim.StepSim(cfg, phys, s);
            s'.done || (s'.t == s.t + 1 && s'.t < cfg.steps)
  {
  }
}
