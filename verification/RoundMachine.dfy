/** The round orchestrator as a state machine over its steps. A tick that settles suspends at the
  * settlement callback; entries and other ticks may run before it resumes. */
module RoundMachine {
  import opened Basics
  import opened Sums
  import opened TwoSideSim
  import opened TwoSideTheorems
  import opened RoundSeed

  datatype Phase = Lobby | Battle | Settle

  datatype State = State(
    round: nat, phase: Phase, published: string, seed: Option<string>, revealed: Option<string>,
    entries: seq<Entry>, result: Option<Sim>, multiplier: real,
    openedAt: int, closesAt: int, battleMs: Option<int>)

  /** One call of the settlement callback, and what it was handed. */
  datatype Settling = Settling(result: Sim, st: State)

  /** `waiting` holds the round of every tick suspended in the callback. */
  datatype Runner = Runner(st: State, secret: string, waiting: seq<nat>, settled: seq<Settling>)

  datatype Rules = Rules(
    platform: Platform, mode: Mode, physics: (string, seq<Entry>, real) -> Physics, lobbyMs: int, battleMs: nat)

  /** The draws a new lobby makes: its secret, its multiplier and the clock. */
  datatype Draws = Draws(secret: string, multiplier: real, now: int)

  /** `draws` serve a tick that opens a lobby without waiting for the callback. */
  datatype Step = Enter(id: string, side: Camp, stake: real)
                | TickBegin(now: int, draws: Draws)
                | SettleDone(call: nat, draws: Draws)
                | SettleFailed(call: nat)

  const TICK_MS: nat := 50

  function ConfigOf(rules: Rules): Config {
    Config(rules.mode, 0.25, 0.0, rules.battleMs / TICK_MS)
  }

  function SimulateRound(rules: Rules, seed: string, entries: seq<Entry>, multiplier: real): Sim {
    Play(ConfigOf(rules), rules.physics(seed, entries, multiplier), CreateSim(entries, ConfigOf(rules)))
  }

  function FreshLobby(rules: Rules, round: nat, d: Draws): State {
    State(round, Lobby, rules.platform.sha256(d.secret), None, None, [], None, d.multiplier,
          d.now, d.now + rules.lobbyMs, None)
  }

  function Start(rules: Rules, round: nat, d: Draws): Runner {
    Runner(FreshLobby(rules, round, d), d.secret, [], [])
  }

  /** Where the player already stands on that side, or the length. */
  function Seat(entries: seq<Entry>, id: string, side: Camp): (i: nat)
    ensures i <= |entries|
    ensures i < |entries| ==> entries[i].id == id && entries[i].side == side
    ensures forall j :: 0 <= j < i ==> entries[j].id != id || entries[j].side != side
  {
    if entries == [] || (entries[0].id == id && entries[0].side == side) then 0 else 1 + Seat(entries[1..], id, side)
  }

  function Seated(entries: seq<Entry>, id: string, side: Camp, stake: real): seq<Entry> {
    var i := Seat(entries, id, side);
    if i < |entries| then entries[i := entries[i].(stake := entries[i].stake + stake)]
    else entries + [Entry(id, side, stake)]
  }

  function MinInt(a: int, b: int): int { if a < b then a else b }

  /** The lobby closes: entries lock, the seed is derived from them, and the fight is simulated. */
  function Close(rules: Rules, r: Runner, now: int): Runner {
    var seed := DeriveSeed(rules.platform, r.secret, r.st.entries);
    var result := SimulateRound(rules, seed, r.st.entries, r.st.multiplier);
    var battleMs := MinInt(rules.battleMs, (result.endTick + 2) * TICK_MS + 900);
    r.(st := r.st.(phase := Battle, seed := Some(seed), revealed := Some(r.secret), result := Some(result),
                   battleMs := Some(battleMs), closesAt := now + battleMs))
  }

  function Without(s: seq<nat>, k: nat): seq<nat>
    requires k < |s|
  {
    s[..k] + s[k + 1..]
  }

  /** A step nobody can take -- resuming a call that is not waiting -- changes nothing. */
  function Next(rules: Rules, r: Runner, step: Step): Runner {
    match step
    case Enter(id, side, stake) =>
      if r.st.phase != Lobby then r else r.(st := r.st.(entries := Seated(r.st.entries, id, side, stake)))
    case TickBegin(now, d) =>
      if r.st.phase == Lobby && now >= r.st.closesAt then Close(rules, r, now)
      else if r.st.phase == Battle && now >= r.st.closesAt then BeginSettle(rules, r, d)
      else r
    case SettleDone(k, d) =>
      if k < |r.waiting| then
        Runner(FreshLobby(rules, r.waiting[k] + 1, d), d.secret, Without(r.waiting, k), r.settled)
      else r
    case SettleFailed(k) =>
      if k < |r.waiting| then r.(waiting := Without(r.waiting, k)) else r
  }

  /** With a result the callback is called and the tick suspends; without one, which `Close` never
    * leaves, the next lobby opens at once. */
  function BeginSettle(rules: Rules, r: Runner, d: Draws): Runner {
    var st := r.st.(phase := Settle);
    if st.result.Some? then
      Runner(st, r.secret, r.waiting + [st.round], r.settled + [Settling(st.result.value, st)])
    else Runner(FreshLobby(rules, st.round + 1, d), d.secret, r.waiting, r.settled)
  }

  function Run(rules: Rules, r: Runner, steps: seq<Step>): Runner
    decreases |steps|
  {
    if steps == [] then r else Run(rules, Next(rules, r, steps[0]), steps[1..])
  }

  // ---- what holds at every moment ----

  ghost predicate DistinctSeats(entries: seq<Entry>) {
    forall i, j :: 0 <= i < j < |entries| ==> entries[i].id != entries[j].id || entries[i].side != entries[j].side
  }

  /** The published record of a decided round: the revealed secret opens the commitment, the seed is
    * derived from it and the locked entries, and the result is that seed's. */
  ghost predicate Verifiable(rules: Rules, st: State) {
    && st.seed.Some? && st.revealed.Some? && st.result.Some?
    && rules.platform.sha256(st.revealed.value) == st.published
    && st.seed.value == DeriveSeed(rules.platform, st.revealed.value, st.entries)
    && st.result.value == SimulateRound(rules, st.seed.value, st.entries, st.multiplier)
  }

  ghost predicate Inv(rules: Rules, r: Runner) {
    && rules.platform.sha256(r.secret) == r.st.published
    && DistinctSeats(r.st.entries)
    && (r.st.phase == Lobby ==> r.st.seed == None && r.st.revealed == None && r.st.result == None)
    && (r.st.phase != Lobby ==> Verifiable(rules, r.st))
    && |r.waiting| <= 1
    && (|r.waiting| == 1 ==> r.st.phase == Settle && r.waiting[0] == r.st.round)
    && (forall i, j :: 0 <= i < j < |r.settled| ==> r.settled[i].st.round < r.settled[j].st.round)
    && (forall i :: 0 <= i < |r.settled| ==> r.settled[i].st.round <= r.st.round)
    && (forall i :: 0 <= i < |r.settled| ==> r.settled[i].st.round == r.st.round ==> r.st.phase == Settle)
    && (r.st.phase == Settle ==> r.settled != [] && LastIs(r))
    && forall i :: 0 <= i < |r.settled| ==> Opened(rules, r.settled[i])
  }

  ghost predicate LastIs(r: Runner)
    requires r.settled != []
  {
    r.settled[|r.settled| - 1].st == r.st
  }

  /** What was settled can be checked by anybody from what was published, and was what was simulated. */
  ghost predicate Opened(rules: Rules, s: Settling) {
    Verifiable(rules, s.st) && s.st.result == Some(s.result)
  }

  lemma SeatedKeepsSeats(entries: seq<Entry>, id: string, side: Camp, stake: real)
    requires DistinctSeats(entries)
    ensures DistinctSeats(Seated(entries, id, side, stake))
  {
  }

  lemma NextKeeps(rules: Rules, r: Runner, step: Step)
    requires Inv(rules, r)
    ensures Inv(rules, Next(rules, r, step))
  {
    hide Verifiable, DistinctSeats, Play, Canon, Seated;
    match step
    case Enter(id, side, stake) =>
      SeatedKeepsSeats(r.st.entries, id, side, stake);
    case TickBegin(now, d) =>
      if r.st.phase == Lobby && now >= r.st.closesAt {
        CloseDecides(rules, r, now);
      } else if r.st.phase == Battle && now >= r.st.closesAt {
        BeginKeeps(rules, r, d);
      }
    case SettleDone(k, d) =>
      NoSeats();
    case SettleFailed(k) =>
  }

  lemma NoSeats()
    ensures DistinctSeats([])
  {
  }

  lemma CloseDecides(rules: Rules, r: Runner, now: int)
    requires Inv(rules, r) && r.st.phase == Lobby
    ensures Verifiable(rules, Close(rules, r, now).st)
  {
    hide Play, Canon;
  }

  lemma BeginKeeps(rules: Rules, r: Runner, d: Draws)
    requires Inv(rules, r) && r.st.phase == Battle
    ensures Inv(rules, BeginSettle(rules, r, d))
  {
    hide DistinctSeats, DeriveSeed, SimulateRound;
  }

  lemma StartKeeps(rules: Rules, round: nat, d: Draws)
    ensures Inv(rules, Start(rules, round, d))
  {
  }

  lemma {:induction false} RunKeeps(rules: Rules, r: Runner, steps: seq<Step>)
    requires Inv(rules, r)
    ensures Inv(rules, Run(rules, r, steps))
    decreases |steps|
  {
    hide Inv, Next;
    if steps != [] {
      NextKeeps(rules, r, steps[0]);
      RunKeeps(rules, Next(rules, r, steps[0]), steps[1..]);
    }
  }

  // ---- over every interleaving ----

  /** From a fresh start, whatever entries, ticks and callback outcomes interleave: no round is settled
    * twice, at most one tick waits in the callback, nobody has a second seat on a side, and every
    * settled round can be verified from what was published. */
  lemma EachRoundSettlesOnce(rules: Rules, round: nat, d: Draws, steps: seq<Step>)
    ensures var r := Run(rules, Start(rules, round, d), steps);
            && (forall i, j :: 0 <= i < j < |r.settled| ==> r.settled[i].st.round != r.settled[j].st.round)
            && (forall i :: 0 <= i < |r.settled| ==> Opened(rules, r.settled[i]))
            && |r.waiting| <= 1 && DistinctSeats(r.st.entries)
  {
    hide Run, Opened, DistinctSeats, Verifiable;
    StartKeeps(rules, round, d);
    RunKeeps(rules, Start(rules, round, d), steps);
  }

  /** There is no seed before the lobby closes, and none but the derived one after. */
  lemma SeedExistsOnlyAfterLock(rules: Rules, round: nat, d: Draws, steps: seq<Step>)
    ensures var r := Run(rules, Start(rules, round, d), steps);
            && (r.st.phase == Lobby <==> r.st.seed == None)
            && (r.st.phase == Lobby <==> r.st.revealed == None)
            && (r.st.seed.Some? ==> (
                  && r.st.revealed.Some? && rules.platform.sha256(r.st.revealed.value) == r.st.published
                  && r.st.seed.value == DeriveSeed(rules.platform, r.st.revealed.value, r.st.entries)))
  {
    hide Run, DeriveSeed, SimulateRound;
    StartKeeps(rules, round, d);
    RunKeeps(rules, Start(rules, round, d), steps);
  }

  lemma RoundsGrow(rules: Rules, r: Runner, step: Step)
    requires Inv(rules, r)
    ensures var r' := Next(rules, r, step);
            && r'.st.round >= r.st.round
            && (r'.st.round == r.st.round ==> (
                  && r'.st.published == r.st.published && r'.st.multiplier == r.st.multiplier
                  && (r.st.phase != Lobby ==> r'.st.phase != Lobby && Frozen(r.st, r'.st))))
  {
    hide DeriveSeed, SimulateRound, Verifiable, DistinctSeats, Opened, Seated;
  }

  ghost predicate Frozen(s: State, s': State) {
    s'.entries == s.entries && s'.seed == s.seed && s'.revealed == s.revealed && s'.result == s.result
  }

  /** Once a lobby has closed nothing about its round ever changes again -- entries, seed, secret,
    * result -- and what it published when it opened stands for as long as the round does. */
  lemma {:induction false} LockedForGood(rules: Rules, r: Runner, steps: seq<Step>)
    requires Inv(rules, r)
    ensures var r' := Run(rules, r, steps);
            && r'.st.round >= r.st.round
            && (r'.st.round == r.st.round ==> r'.st.published == r.st.published && r'.st.multiplier == r.st.multiplier)
            && (r'.st.round == r.st.round && r.st.phase != Lobby ==> r'.st.phase != Lobby && Frozen(r.st, r'.st))
    decreases |steps|
  {
    hide Inv, Next;
    if steps != [] {
      NextKeeps(rules, r, steps[0]);
      RoundsGrow(rules, r, steps[0]);
      LockedForGood(rules, Next(rules, r, steps[0]), steps[1..]);
    }
  }

  /** While a settlement is waiting, overlapping ticks and late entries do nothing at all. */
  lemma OverlapIsHarmless(rules: Rules, r: Runner, step: Step)
    requires Inv(rules, r) && r.waiting != [] && (step.Enter? || step.TickBegin?)
    ensures Next(rules, r, step) == r
  {
    hide Verifiable, Opened, DistinctSeats;
  }

  /** The settle phase ends exactly when the callback succeeds: while the call waits, its success opens
    * the next round's lobby, and its failure leaves nothing waiting. */
  lemma SettlementEnds(rules: Rules, r: Runner, d: Draws)
    requires Inv(rules, r) && r.waiting != []
    ensures Next(rules, r, SettleDone(0, d)) == Runner(FreshLobby(rules, r.st.round + 1, d), d.secret, [], r.settled)
    ensures Next(rules, r, SettleFailed(0)) == r.(waiting := []) && r.st.phase == Settle
  {
    hide Verifiable, Opened, DistinctSeats;
  }

  /** Once the callback has failed the runner is wedged: no step ever changes anything again. */
  lemma {:induction false} FailedSettlementWedges(rules: Rules, r: Runner, steps: seq<Step>)
    requires r.st.phase == Settle && r.waiting == []
    ensures Run(rules, r, steps) == r
    decreases |steps|
  {
    if steps != [] {
      FailedSettlementWedges(rules, r, steps[1..]);
    }
  }

  /** How the waiting callback comes back first in a run, if it does. */
  datatype Outcome = Pending | Succeeded | Failed

  function FirstOutcome(steps: seq<Step>): Outcome
    decreases |steps|
  {
    if steps == [] then Pending
    else if steps[0].SettleDone? && steps[0].call == 0 then Succeeded
    else if steps[0].SettleFailed? && steps[0].call == 0 then Failed
    else FirstOutcome(steps[1..])
  }

  /** With a settlement waiting, a run ever leaves the round if and only if the callback succeeds before
    * it fails: until it comes back nothing changes, and after a failure nothing changes for good. */
  lemma {:induction false} RoundMovesOnIff(rules: Rules, r: Runner, steps: seq<Step>)
    requires Inv(rules, r) && r.waiting != []
    ensures Run(rules, r, steps).st.round > r.st.round <==> FirstOutcome(steps).Succeeded?
    ensures FirstOutcome(steps).Pending? ==> Run(rules, r, steps) == r
    ensures FirstOutcome(steps).Failed? ==> Run(rules, r, steps) == r.(waiting := [])
    decreases |steps|
  {
    hide Inv;
    if steps != [] {
      var step := steps[0];
      if step.SettleDone? && step.call == 0 {
        SettlementEnds(rules, r, step.draws);
        NextKeeps(rules, r, step);
        LockedForGood(rules, Next(rules, r, step), steps[1..]);
      } else if step.SettleFailed? && step.call == 0 {
        FailureKeepsTheRound(rules, r);
        FailedSettlementWedges(rules, Next(rules, r, step), steps[1..]);
      } else {
        NobodyElseMoves(rules, r, step);
        RoundMovesOnIff(rules, r, steps[1..]);
      }
    }
  }

  lemma FailureKeepsTheRound(rules: Rules, r: Runner)
    requires Inv(rules, r) && r.waiting != []
    ensures Next(rules, r, SettleFailed(0)) == r.(waiting := []) && r.st.phase == Settle
  {
    hide Verifiable, Opened, DistinctSeats;
  }

  lemma NobodyElseMoves(rules: Rules, r: Runner, step: Step)
    requires Inv(rules, r) && r.waiting != []
    requires !((step.SettleDone? || step.SettleFailed?) && step.call == 0)
    ensures Next(rules, r, step) == r
  {
    hide Verifiable, Opened, DistinctSeats;
  }

  /** A wedge is reachable: from a fresh start, one tick that closes the lobby, one that begins the
    * settlement, and a callback that fails. Whatever follows, the first round never ends. */
  lemma WedgedFromTheStart(rules: Rules, round: nat, d: Draws, now: int, later: int, rest: seq<Step>)
    requires now >= d.now + rules.lobbyMs && later >= now + rules.battleMs
    ensures var r := Run(rules, Start(rules, round, d), [TickBegin(now, d), TickBegin(later, d), SettleFailed(0)] + rest);
            r.st.phase == Settle && r.waiting == [] && r.st.round == round && |r.settled| == 1
  {
    hide DeriveSeed, SimulateRound, MinInt;
    var r0 := Start(rules, round, d);
    var r1 := Next(rules, r0, TickBegin(now, d));
    MinIsLess(rules.battleMs, (r1.st.result.value.endTick + 2) * TICK_MS + 900);
    var r2 := Next(rules, r1, TickBegin(later, d));
    var r3 := Next(rules, r2, SettleFailed(0));
    var steps := [TickBegin(now, d), TickBegin(later, d), SettleFailed(0)] + rest;
    assert steps[1..][1..][1..] == rest;
    assert Run(rules, r0, steps) == Run(rules, r1, steps[1..]);
    assert Run(rules, r1, steps[1..]) == Run(rules, r2, steps[1..][1..]);
    assert Run(rules, r2, steps[1..][1..]) == Run(rules, r3, rest);
    FailedSettlementWedges(rules, r3, rest);
  }

  lemma MinIsLess(a: int, b: int)
    ensures MinInt(a, b) <= a
  {
  }

  // ---- how long a phase lasts, and what is played ----

  /** No tick of a run comes before `end`. */
  ghost predicate Early(steps: seq<Step>, end: int) {
    forall i :: 0 <= i < |steps| && steps[i].TickBegin? ==> steps[i].now < end
  }

  /** What a run of entries adds to a player's stake on a side. */
  function Staked(steps: seq<Step>, id: string, side: Camp): real
    decreases |steps|
  {
    if steps == [] then 0.0
    else (if steps[0].Enter? && steps[0].id == id && steps[0].side == side then steps[0].stake else 0.0)
         + Staked(steps[1..], id, side)
  }

  /** A lobby stays open for all of its time: until then every entry is taken, and every player stands on
    * every side with exactly the sum of what it staked there. */
  lemma {:induction false} LobbyTakesEverything(rules: Rules, r: Runner, steps: seq<Step>, id: string, side: Camp)
    requires r.st.phase == Lobby && r.waiting == [] && Early(steps, r.st.closesAt)
    ensures var r' := Run(rules, r, steps);
            && r' == r.(st := r.st.(entries := r'.st.entries))
            && SumR(r'.st.entries, StakeBy(id, side)) == SumR(r.st.entries, StakeBy(id, side)) + Staked(steps, id, side)
    decreases |steps|
  {
    hide Seated;
    if steps != [] {
      var next := Next(rules, r, steps[0]);
      if steps[0].Enter? {
        EnterAddsTheStake(rules, r, steps[0].id, steps[0].side, steps[0].stake, id, side);
      }
      assert forall i :: 0 <= i < |steps[1..]| ==> steps[1..][i] == steps[i + 1];
      LobbyTakesEverything(rules, next, steps[1..], id, side);
    }
  }

  lemma FreshLobbyLasts(rules: Rules, round: nat, d: Draws)
    ensures var r := Start(rules, round, d);
            && r.st.phase == Lobby && r.st.closesAt == d.now + rules.lobbyMs && r.st.entries == [] && r.st.round == round
            && r.st.published == rules.platform.sha256(d.secret)
  {
  }

  /** The first tick after a lobby's time closes it: the entries stand, and the fight is the one that the
    * derived seed, they and the multiplier decide, with a blow capped at a quarter and a book matched with no
    * tolerance; it is shown for as long as it lasts and a little more, but never longer than a battle may. */
  lemma LateTickPlaysTheRound(rules: Rules, r: Runner, now: int, d: Draws)
    requires r.st.phase == Lobby && now >= r.st.closesAt
    ensures var s := Next(rules, r, TickBegin(now, d)).st;
            var cfg := Config(rules.mode, 0.25, 0.0, rules.battleMs / 50);
            && s.phase == Battle && s.entries == r.st.entries && s.round == r.st.round
            && s.revealed == Some(r.secret) && s.seed == Some(DeriveSeed(rules.platform, r.secret, r.st.entries))
            && s.result == Some(Play(cfg, rules.physics(s.seed.value, r.st.entries, r.st.multiplier), CreateSim(r.st.entries, cfg)))
            && s.battleMs == Some(s.closesAt - now)
            && s.closesAt - now <= rules.battleMs && s.closesAt - now <= 50 * (s.result.value.endTick + 2) + 900
            && (s.closesAt - now == rules.battleMs || s.closesAt - now == 50 * (s.result.value.endTick + 2) + 900)
  {
    hide Play, DeriveSeed, CreateSim;
  }

  /** A battle is left for settlement by the first tick after its time and by nothing before it. */
  lemma BattleLasts(rules: Rules, r: Runner, step: Step)
    requires Inv(rules, r) && r.st.phase == Battle
    ensures step.TickBegin? && step.now >= r.st.closesAt ==>
              var r' := Next(rules, r, step);
              && r'.st == r.st.(phase := Settle) && r'.waiting == [r.st.round]
              && r'.settled == r.settled + [Settling(r.st.result.value, r'.st)]
    ensures !(step.TickBegin? && step.now >= r.st.closesAt) ==> Next(rules, r, step) == r
  {
    hide DistinctSeats, DeriveSeed, SimulateRound, Opened;
  }

  // ---- entries, and what the callback is handed ----

  function StakeBy(id: string, side: Camp): Entry -> real {
    (e: Entry) => if e.id == id && e.side == side then e.stake else 0.0
  }

  /** An entry in an open lobby adds exactly its stake to that player's total on that side and to
    * nobody else's; outside the lobby it is refused. */
  lemma EnterAddsTheStake(rules: Rules, r: Runner, id: string, side: Camp, stake: real, w: string, s: Camp)
    ensures var r' := Next(rules, r, Enter(id, side, stake));
            && SumR(r'.st.entries, StakeBy(w, s))
               == SumR(r.st.entries, StakeBy(w, s)) + (if r.st.phase == Lobby && w == id && s == side then stake else 0.0)
            && (r.st.phase != Lobby ==> r' == r)
  {
    var entries := r.st.entries;
    var i := Seat(entries, id, side);
    if i < |entries| {
      SumUpdateR(entries, i, entries[i].(stake := entries[i].stake + stake), StakeBy(w, s));
    } else {
      SumAppendR(entries, [Entry(id, side, stake)], StakeBy(w, s));
    }
  }

  /** Whatever was handed to the callback pays each side's token out in full: what the two armies are
    * paid in it is what its own army staked. */
  lemma SettledRoundConserves(rules: Rules, s: Settling, tk: Side)
    requires Opened(rules, s) && Stakes(s.st.entries)
    ensures SumR(s.result.x.F, PayoutIn(tk)) == TotalStake(s.st.entries, tk)
  {
    hide Play, DeriveSeed;
    RoundConserves(s.st.entries, ConfigOf(rules), rules.physics(s.st.seed.value, s.st.entries, s.st.multiplier));
  }
}
