/** The round orchestrator as the engine runs it, proved step by step against the state machine. */
module RoundEngine {
  import opened Basics
  import opened TwoSideSim
  import opened RoundSeed
  import opened RoundMachine

  class RoundRunner {
    const rules: Rules
    var st: State
    var secret: string
    /** Rounds whose settlement callback has not returned yet. */
    var waiting: seq<nat>
    ghost var settled: seq<Settling>

    ghost function View(): Runner
      reads this
    {
      Runner(st, secret, waiting, settled)
    }

    constructor (rules: Rules, startRound: nat, d: Draws)
      ensures this.rules == rules && View() == Start(rules, startRound, d)
    {
      this.rules := rules;
      secret := d.secret;
      st := FreshLobby(rules, startRound, d);
      waiting, settled := [], [];
    }

    method Enter(id: string, side: Camp, stake: real) returns (ok: bool)
      modifies this
      ensures View() == Next(rules, old(View()), Step.Enter(id, side, stake))
      ensures ok <==> old(st.phase) == Lobby
    {
      if st.phase != Lobby {
        return false;
      }
      var i := FindSeat(id, side);
      if i < |st.entries| {
        var e := st.entries[i];
        st := st.(entries := st.entries[i := e.(stake := e.stake + stake)]);
        return true;
      }
      st := st.(entries := st.entries + [Entry(id, side, stake)]);
      return true;
    }

    /** The one fighter the player already has on that side, if any. */
    method FindSeat(id: string, side: Camp) returns (i: nat)
      ensures i == Seat(st.entries, id, side)
    {
      i := 0;
      while i < |st.entries| && !(st.entries[i].id == id && st.entries[i].side == side)
        invariant 0 <= i <= |st.entries|
        invariant Seat(st.entries, id, side) == i + Seat(st.entries[i..], id, side)
      {
        assert st.entries[i..][1..] == st.entries[i + 1..];
        i := i + 1;
      }
    }

    /** A tick up to the point where it returns or suspends in the callback. `d` are the draws of the
      * lobby it opens itself when there is nothing to settle. */
    method Tick(now: int, d: Draws) returns (settledNow: bool, suspended: bool)
      modifies this
      ensures View() == Next(rules, old(View()), TickBegin(now, d))
      ensures suspended <==> old(st.phase) == Battle && now >= old(st.closesAt) && old(st.result).Some?
      ensures settledNow <==> old(st.phase) == Battle && now >= old(st.closesAt) && old(st.result).None?
    {
      hide DeriveSeed, SimulateRound, FreshLobby;
      if st.phase == Lobby && now >= st.closesAt {
        st := st.(phase := Battle);
        var seed := DeriveSeed(rules.platform, secret, st.entries);
        st := st.(revealed := Some(secret), seed := Some(seed));
        var result := SimulateRound(rules, seed, st.entries, st.multiplier);
        var battleMs := MinInt(rules.battleMs, (result.endTick + 2) * TICK_MS + 900);
        st := st.(result := Some(result), battleMs := Some(battleMs), closesAt := now + battleMs);
        return false, false;
      }
      if st.phase == Battle && now >= st.closesAt {
        st := st.(phase := Settle);
        if st.result.Some? {
          settled := settled + [Settling(st.result.value, st)];
          waiting := waiting + [st.round];
          return false, true;
        }
        secret := d.secret;
        st := FreshLobby(rules, st.round + 1, d);
        return true, false;
      }
      return false, false;
    }

    /** The callback of one suspended tick returns: the next lobby opens and that tick reports a settled
      * round. */
    method Settled(call: nat, d: Draws) returns (settledNow: bool)
      requires call < |waiting|
      modifies this
      ensures View() == Next(rules, old(View()), SettleDone(call, d)) && settledNow
    {
      var round := waiting[call];
      waiting := Without(waiting, call);
      secret := d.secret;
      st := FreshLobby(rules, round + 1, d);
      return true;
    }

    /** The callback of one suspended tick throws: the tick throws with it, and nothing is reset. */
    method Failed(call: nat)
      requires call < |waiting|
      modifies this
      ensures View() == Next(rules, old(View()), SettleFailed(call))
    {
      waiting := Without(waiting, call);
    }
  }
}
