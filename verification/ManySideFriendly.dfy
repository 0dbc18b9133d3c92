/** Whether two fighters of one wallet can strike each other in an N-army fight: the clash looks at teams
  * only, so they can exactly when one wallet stands on two teams. */
module ManySideFriendly {
  import opened Basics
  import opened ManySideSim
  import opened ManySideTheorems
  import opened ManySideLedger
  import opened ManySideBook
  import Wallets = TwoSideSim

  ghost predicate FairHits(hits: seq<HitLog>) {
    forall k :: 0 <= k < |hits| ==> Wallets.OwnerOf(hits[k].atk) != Wallets.OwnerOf(hits[k].def)
  }

  /** No wallet stands on two teams. */
  ghost predicate OneTeamEach(cfg: Config, entries: seq<Entry>) {
    forall i, j :: 0 <= i < j < |entries| && Wallets.OwnerOf(entries[i].id) == Wallets.OwnerOf(entries[j].id) ==>
      TeamOf(cfg, entries, i) == TeamOf(cfg, entries, j)
  }

  /** The same players on the same teams, whatever their stakes. */
  ghost predicate SameSeats(entries: seq<Entry>, other: seq<Entry>) {
    |other| == |entries| && forall i :: 0 <= i < |entries| ==> other[i].id == entries[i].id && other[i].team == entries[i].team
  }

  ghost predicate Seated(cfg: Config, entries: seq<Entry>, F: seq<Fighter>) {
    && |F| == |entries|
    && forall i :: 0 <= i < |F| ==> F[i].id == entries[i].id && F[i].team == TeamOf(cfg, entries, i)
  }

  // ---- one team each: every hit is between two wallets ----

  lemma ExchangeKeepsNames(mode: Mode, a: Fighter, b: Fighter, planB: seq<Take>, planA: seq<Take>)
    ensures var (a2, b2) := Exchange(mode, a, b, planB, planA);
            a2.id == a.id && a2.team == a.team && b2.id == b.id && b2.team == b.team
  {
    hide Land;
    LandKeepsNames(mode, Landing(a, b, 0.0), planB);
    var (a1, b1) := Apply(mode, a, b, planB);
    LandKeepsNames(mode, Landing(b1, a1, 0.0), planA);
  }

  lemma LogNames(mode: Mode, t: nat, a: Fighter, b: Fighter, planB: seq<Take>, planA: seq<Take>)
    ensures forall k :: 0 <= k < |ExchangeLog(mode, t, a, b, planB, planA)| ==>
              var h := ExchangeLog(mode, t, a, b, planB, planA)[k];
              (h.atk == a.id && h.def == b.id) || (h.atk == b.id && h.def == a.id)
  {
    hide Land;
    LandKeepsNames(mode, Landing(a, b, 0.0), planB);
  }

  lemma ClashIsFair(cfg: Config, phys: Physics, t: nat, entries: seq<Entry>, x: Melee, i: nat, j: nat)
    requires OneTeamEach(cfg, entries) && Seated(cfg, entries, x.F) && FairHits(x.hits)
    requires i < |x.F| && j < |x.F| && i != j
    ensures Seated(cfg, entries, ClashAt(cfg, phys, t, x, i, j).F) && FairHits(ClashAt(cfg, phys, t, x, i, j).hits)
  {
    hide Exchange, ExchangeLog, Plans, Bury, TeamOf;
    var a, b := x.F[i], x.F[j];
    if !a.dead && !b.dead && phys(t, i, j).Some? && a.team != b.team {
      var (planB, planA) := Plans(cfg, t, a, b, phys(t, i, j).value);
      ExchangeKeepsNames(cfg.mode, a, b, planB, planA);
      LogNames(cfg.mode, t, a, b, planB, planA);
      var (a2, b2) := Exchange(cfg.mode, a, b, planB, planA);
      BuryKeepsNames(a2);
      BuryKeepsNames(b2);
      DifferentWallets(cfg, entries, i, j);
    }
  }

  lemma BuryKeepsNames(f: Fighter)
    ensures Bury(f).id == f.id && Bury(f).team == f.team
  {
  }

  lemma DifferentWallets(cfg: Config, entries: seq<Entry>, i: nat, j: nat)
    requires OneTeamEach(cfg, entries) && i < |entries| && j < |entries| && TeamOf(cfg, entries, i) != TeamOf(cfg, entries, j)
    ensures Wallets.OwnerOf(entries[i].id) != Wallets.OwnerOf(entries[j].id)
  {
  }

  lemma {:induction false} ClashesAreFair(cfg: Config, phys: Physics, t: nat, entries: seq<Entry>, x: Melee, A: seq<nat>, i: nat, j: nat)
    requires OneTeamEach(cfg, entries) && Seated(cfg, entries, x.F) && FairHits(x.hits) && Roster(A, |x.F|) && i < j
    ensures var y := ClashesFrom(cfg, phys, t, x, A, i, j); Seated(cfg, entries, y.F) && FairHits(y.hits)
    decreases |A| - i, |A| - j
  {
    hide ClashAt, Seated, FairHits, OneTeamEach;
    if i < |A| {
      if j >= |A| {
        ClashesAreFair(cfg, phys, t, entries, x, A, i + 1, i + 2);
      } else {
        ClashIsFair(cfg, phys, t, entries, x, A[i], A[j]);
        ClashesAreFair(cfg, phys, t, entries, ClashAt(cfg, phys, t, x, A[i], A[j]), A, i, j + 1);
      }
    }
  }

  lemma {:induction false} PlayIsFair(cfg: Config, phys: Physics, t: nat, entries: seq<Entry>, x: Melee)
    requires OneTeamEach(cfg, entries) && Seated(cfg, entries, x.F) && FairHits(x.hits)
    ensures FairHits(PlayFrom(cfg, phys, t, x).hits)
    decreases cfg.steps - t
  {
    hide ClashesFrom, Seated, FairHits, OneTeamEach;
    if t < cfg.steps {
      var A := LivingFrom(x.F, 0);
      if !OneTeamLeft(x.F, A) {
        ClashesAreFair(cfg, phys, t, entries, x, A, 0, 1);
        PlayIsFair(cfg, phys, t + 1, entries, ClashesFrom(cfg, phys, t, x, A, 0, 1));
      }
    }
  }

  // ---- a wallet on two teams: a hit between its own fighters ----

  /** The log only grows. */
  lemma {:induction false} ClashesLogGrows(cfg: Config, phys: Physics, t: nat, x: Melee, A: seq<nat>, i: nat, j: nat)
    requires Roster(A, |x.F|) && i < j
    ensures x.hits <= ClashesFrom(cfg, phys, t, x, A, i, j).hits
    decreases |A| - i, |A| - j
  {
    hide Plans, Exchange, ExchangeLog, Bury;
    if i < |A| {
      if j >= |A| {
        ClashesLogGrows(cfg, phys, t, x, A, i + 1, i + 2);
      } else {
        ClashesLogGrows(cfg, phys, t, ClashAt(cfg, phys, t, x, A[i], A[j]), A, i, j + 1);
      }
    }
  }

  lemma {:induction false} LogGrows(cfg: Config, phys: Physics, t: nat, x: Melee)
    ensures x.hits <= PlayFrom(cfg, phys, t, x).hits
    decreases cfg.steps - t
  {
    hide ClashesFrom;
    if t < cfg.steps {
      var A := LivingFrom(x.F, 0);
      if !OneTeamLeft(x.F, A) {
        ClashesLogGrows(cfg, phys, t, x, A, 0, 1);
        LogGrows(cfg, phys, t + 1, ClashesFrom(cfg, phys, t, x, A, 0, 1));
      }
    }
  }

  /** Everybody but `i` and `j` stakes nothing. */
  function Duel(entries: seq<Entry>, i: nat, j: nat, s: real): (other: seq<Entry>)
    ensures SameSeats(entries, other)
  {
    seq(|entries|, k requires 0 <= k < |entries| => entries[k].(stake := if k == i || k == j then s else 0.0))
  }

  /** They meet at once, as hard as can be, and nobody else ever does. */
  function Meet(i: nat, j: nat, s: real): Physics {
    (t: nat, a: nat, b: nat) => if t == 0 && a == i && b == j then Some((s, s)) else None
  }

  lemma {:induction false} DuelTotals(cfg: Config, entries: seq<Entry>, i: nat, j: nat, s: real, n: nat, k: nat)
    requires i < j < |entries| && n <= |entries| && TeamOf(cfg, entries, i) != TeamOf(cfg, entries, j)
    ensures TeamTotal(cfg, Duel(entries, i, j, s), n, k)
         == (if i < n && TeamOf(cfg, entries, i) == k then s else 0.0) + (if j < n && TeamOf(cfg, entries, j) == k then s else 0.0)
    decreases n
  {
    if n > 0 {
      DuelTotals(cfg, entries, i, j, s, n - 1, k);
    }
  }

  lemma DuelStart(cfg: Config, entries: seq<Entry>, i: nat, j: nat, s: real)
    requires TeamsExist(cfg, entries) && i < j < |entries| && TeamOf(cfg, entries, i) != TeamOf(cfg, entries, j) && s > 0.0
    ensures var other := Duel(entries, i, j, s);
            && TeamsExist(cfg, other) && Stakes(other)
            && forall k :: 0 <= k < |entries| ==> Ring(Muster(cfg, other)[k]) == if k == i || k == j then s else 0.0
  {
    hide CapPer, TeamTotal, FracOf, Muster, InPlay, Ring, TokenOf, Sound;
    var other := Duel(entries, i, j, s);
    forall k | 0 <= k < |entries|
      ensures Ring(Muster(cfg, other)[k]) == if k == i || k == j then s else 0.0
    {
      StakesSplit(cfg, other, k);
      if k == i || k == j {
        DuelInFull(cfg, entries, i, j, s, k);
      }
    }
  }

  /** The two teams that staked have equal totals, so both play in full. */
  lemma DuelInFull(cfg: Config, entries: seq<Entry>, i: nat, j: nat, s: real, k: nat)
    requires TeamsExist(cfg, entries) && i < j < |entries| && TeamOf(cfg, entries, i) != TeamOf(cfg, entries, j) && s > 0.0
    requires k == i || k == j
    ensures var other := Duel(entries, i, j, s);
            && TeamsExist(cfg, other) && Stakes(other) && TeamOf(cfg, other, k) < TeamCount(cfg, other)
            && InPlay(s, FracOf(cfg, other, TeamOf(cfg, other, k))) == s
  {
    hide CapPer, TeamTotal, FracOf, InPlay;
    var other := Duel(entries, i, j, s);
    var team := TeamOf(cfg, other, k);
    TeamInRange(cfg, other, k);
    DuelTotals(cfg, entries, i, j, s, |entries|, team);
    FracWithin(cfg, other, team);
    var totals := Totals(cfg, other);
    forall m | 0 <= m < |totals|
      ensures totals[m] == 0.0 || totals[m] == s
    {
      DuelTotals(cfg, entries, i, j, s, |entries|, m);
    }
    CapMeaning(cfg, totals);
    assert totals[team] == s;
    if CapPer(cfg, totals).Some? {
      assert CapPer(cfg, totals).value in totals;
    }
  }

  lemma {:induction false} SkipTheDown(F: seq<Fighter>, k: nat, l: nat)
    requires k <= l <= |F| && forall m :: k <= m < l ==> !Alive(F[m])
    ensures LivingFrom(F, k) == LivingFrom(F, l)
    decreases l - k
  {
    hide Alive;
    if k < l {
      SkipTheDown(F, k + 1, l);
    }
  }

  /** Exactly the two are alive. */
  lemma OnlyTheTwo(F: seq<Fighter>, i: nat, j: nat)
    requires i < j < |F| && forall k :: 0 <= k < |F| ==> (Alive(F[k]) <==> k == i || k == j)
    ensures LivingFrom(F, 0) == [i, j]
  {
    hide Alive;
    SkipTheDown(F, 0, i);
    SkipTheDown(F, i + 1, j);
    SkipTheDown(F, j + 1, |F|);
  }

  lemma OneBlowIsLogged(mode: Mode, n: nat, t: nat, a: Fighter, b: Fighter, want: real, planA: seq<Take>)
    requires Sound(b, n) && b.own >= want > 0.005 && forall k :: 0 <= k < n ==> b.stolen[k] == 0.0
    ensures var log := ExchangeLog(mode, t, a, b, TakeFrom(b, want), planA);
            log != [] && log[0].atk == a.id && log[0].def == b.id
  {
    hide Land, TakeFrom, Apply;
    OwnCoinOnly(b, want);
    OneTakeLands(mode, a, b, want);
  }

  lemma OwnCoinOnly(b: Fighter, want: real)
    requires b.own >= want > 0.0 && forall k :: 0 <= k < |b.stolen| ==> b.stolen[k] == 0.0
    ensures TakeFrom(b, want) == [Take(Own, want)]
  {
    NoPots(b.stolen, 0);
  }

  lemma OneTakeLands(mode: Mode, a: Fighter, b: Fighter, want: real)
    requires b.own >= want > 0.005
    ensures Land(mode, Landing(a, b, 0.0), [Take(Own, want)]).got == want
  {
    hide Win, Lose;
    assert [Take(Own, want)][1..] == [];
  }

  lemma {:induction false} NoPots(stolen: seq<real>, k: nat)
    requires k <= |stolen| && forall l :: 0 <= l < |stolen| ==> stolen[l] == 0.0
    ensures Pots(stolen, k) == []
    decreases |stolen| - k
  {
    if k < |stolen| {
      NoPots(stolen, k + 1);
    }
  }

  /** The fight at its first tick. */
  lemma FirstTick(cfg: Config, phys: Physics, F: seq<Fighter>, i: nat, j: nat)
    requires cfg.steps >= 1 && i < j < |F| && LivingFrom(F, 0) == [i, j] && F[i].team != F[j].team
    ensures ClashAt(cfg, phys, 0, Melee(F, []), i, j).hits <= PlayFrom(cfg, phys, 0, Melee(F, [])).hits
  {
    hide ClashAt;
    var x, A := Melee(F, []), [i, j];
    var y := ClashAt(cfg, phys, 0, x, i, j);
    assert !OneTeamLeft(F, A) by {
      assert F[A[1]].team != F[A[0]].team;
    }
    assert ClashesFrom(cfg, phys, 0, y, A, 2, 3) == y;
    assert ClashesFrom(cfg, phys, 0, y, A, 1, 2) == y;
    assert ClashesFrom(cfg, phys, 0, y, A, 0, 2) == y;
    assert ClashesFrom(cfg, phys, 0, x, A, 0, 1) == y;
    LogGrows(cfg, phys, 1, y);
  }

  lemma DuelIsLogged(cfg: Config, entries: seq<Entry>, i: nat, j: nat)
    requires TeamsExist(cfg, entries) && i < j < |entries| && TeamOf(cfg, entries, i) != TeamOf(cfg, entries, j)
    requires cfg.steps >= 1 && cfg.hitCapFrac > 0.0
    ensures var s := Max(1.0, 1.0 / cfg.hitCapFrac);
            var other := Duel(entries, i, j, s);
            && TeamsExist(cfg, other) && Stakes(other)
            && var hits := Simulate(cfg, Meet(i, j, s), other).hits;
               hits != [] && hits[0].atk == entries[i].id && hits[0].def == entries[j].id
  {
    hide Muster, PlayFrom, Exchange, ExchangeLog, TakeFrom, Ring, DustFor, Sound, TokenOf, InPlay, FracOf, Bury;
    var s := Max(1.0, 1.0 / cfg.hitCapFrac);
    var other, phys := Duel(entries, i, j, s), Meet(i, j, s);
    DuelStart(cfg, entries, i, j, s);
    var F := Muster(cfg, other);
    forall k | 0 <= k < |F|
      ensures (Alive(F[k]) <==> k == i || k == j) && !F[k].dead
    {
      StakesSplit(cfg, other, k);
      DustIsSmall(cfg, other, k);
    }
    OnlyTheTwo(F, i, j);
    StakesSplit(cfg, other, i);
    StakesSplit(cfg, other, j);
    StartsClean(cfg, other, i);
    StartsClean(cfg, other, j);
    FirstTick(cfg, phys, F, i, j);
    CapIsEnough(cfg, s);
    var (planB, planA) := Plans(cfg, 0, F[i], F[j], (s, s));
    var want := Min(s, CapFor(F[j], F[i], cfg.hitCapFrac, false));
    OneBlowIsLogged(cfg.mode, TeamCount(cfg, other), 0, F[i], F[j], want, planA);
  }

  lemma CapIsEnough(cfg: Config, s: real)
    requires cfg.hitCapFrac > 0.0 && s == Max(1.0, 1.0 / cfg.hitCapFrac)
    ensures s * cfg.hitCapFrac >= 1.0
  {
    var h := cfg.hitCapFrac;
    assert 1.0 / h * h == 1.0;
    assert (s - 1.0 / h) * h >= 0.0;
  }

  lemma DustIsSmall(cfg: Config, entries: seq<Entry>, k: nat)
    requires TeamsExist(cfg, entries) && Stakes(entries) && k < |entries|
    ensures var f := Muster(cfg, entries)[k];
            && !f.dead && DustFor(f) >= 0.005
            && (f.deposited >= 1.0 ==> DustFor(f) < f.deposited)
  {
  }

  lemma StartsClean(cfg: Config, entries: seq<Entry>, k: nat)
    requires TeamsExist(cfg, entries) && k < |entries|
    ensures var f := Muster(cfg, entries)[k];
            && |f.stolen| == TeamCount(cfg, entries) && (forall l :: 0 <= l < |f.stolen| ==> f.stolen[l] == 0.0)
            && f.own == Ring(f)
  {
    ZerosSum(TeamCount(cfg, entries));
  }

  /** Over all stakes and all trajectories, no fighter ever strikes another of its own wallet if and only
    * if no wallet stands on two teams. */
  lemma NoFriendlyFireIff(cfg: Config, entries: seq<Entry>)
    requires TeamsExist(cfg, entries) && cfg.steps >= 1 && cfg.hitCapFrac > 0.0
    ensures (forall phys: Physics, other :: SameSeats(entries, other) && Stakes(other) ==> Peaceful(cfg, phys, other))
            <==> OneTeamEach(cfg, entries)
  {
    hide Simulate, FairHits, TeamOf;
    if OneTeamEach(cfg, entries) {
      forall phys: Physics, other | SameSeats(entries, other) && Stakes(other)
        ensures Peaceful(cfg, phys, other)
      {
        OneTeamIsPeaceful(cfg, entries, phys, other);
      }
    } else {
      var i, j :| 0 <= i < j < |entries| && Wallets.OwnerOf(entries[i].id) == Wallets.OwnerOf(entries[j].id)
                  && TeamOf(cfg, entries, i) != TeamOf(cfg, entries, j);
      DuelIsLogged(cfg, entries, i, j);
      var s := Max(1.0, 1.0 / cfg.hitCapFrac);
      var other := Duel(entries, i, j, s);
      NotFair(Simulate(cfg, Meet(i, j, s), other).hits);
      assert !Peaceful(cfg, Meet(i, j, s), other);
    }
  }

  lemma NotFair(hits: seq<HitLog>)
    requires hits != [] && Wallets.OwnerOf(hits[0].atk) == Wallets.OwnerOf(hits[0].def)
    ensures !FairHits(hits)
  {
  }

  ghost predicate Peaceful(cfg: Config, phys: Physics, entries: seq<Entry>) {
    TeamsExist(cfg, entries) ==> FairHits(Simulate(cfg, phys, entries).hits)
  }

  lemma OneTeamIsPeaceful(cfg: Config, entries: seq<Entry>, phys: Physics, other: seq<Entry>)
    requires OneTeamEach(cfg, entries) && SameSeats(entries, other) && Stakes(other)
    ensures Peaceful(cfg, phys, other)
  {
    hide PlayFrom, Enlist, FracOf;
    if TeamsExist(cfg, other) {
      assert OneTeamEach(cfg, other) by {
        assert forall i :: 0 <= i < |entries| ==> TeamOf(cfg, other, i) == TeamOf(cfg, entries, i);
      }
      forall i | 0 <= i < |other|
        ensures Muster(cfg, other)[i].id == other[i].id && Muster(cfg, other)[i].team == TeamOf(cfg, other, i)
      {
        StakesSplit(cfg, other, i);
      }
      PlayIsFair(cfg, phys, 0, other, Melee(Muster(cfg, other), []));
    }
  }

  /** A wallet with a seat on each of two teams, and a fight in which it strikes itself. */
  lemma SelfStrike()
    ensures var entries := [Entry("w|0", 0, 4.0), Entry("w|1", 1, 4.0)];
            var cfg := Config(Normal, 2, 0.25, 1, Smallest);
            var hits := Simulate(cfg, Meet(0, 1, 4.0), entries).hits;
            hits != [] && Wallets.OwnerOf(hits[0].atk) == Wallets.OwnerOf(hits[0].def) == "w"
  {
    hide Simulate, Muster, PlayFrom;
    var entries := [Entry("w|0", 0, 4.0), Entry("w|1", 1, 4.0)];
    var cfg := Config(Normal, 2, 0.25, 1, Smallest);
    DuelIsLogged(cfg, entries, 0, 1);
    assert 1.0 / 0.25 == 4.0;
    assert Duel(entries, 0, 1, 4.0) == entries;
    assert "w|0"[1..] == "|0" && "w|1"[1..] == "|1";
  }
}
