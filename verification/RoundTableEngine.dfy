/** The round ledger as the server updates it, proved step by step against the functions on values. */
module RoundTableEngine {
  import opened Basics
  import opened Sums
  import opened Accounts
  import opened BotBank
  import opened TwoSideSim
  import opened RoundTable
  import Machine = RoundMachine
  import Fight = TwoSideTheorems
  import Ledger = RoundTableBasics

  class RoundBook {
    const arena: Arena
    var accounts: seq<Account>
    var pool: seq<Account>
    var treasury: Account
    var px: Pair
    var out: Pair
    var paid: Pair
    var fee: Pair
    var entries: seq<Entry>
    var matched: Pair

    function View(): Table
      reads this
    {
      Table(accounts, pool, treasury, px, out, paid, fee, entries, matched)
    }

    constructor (arena: Arena, accounts: seq<Account>, pool: seq<Account>, treasury: Account)
      ensures this.arena == arena && View() == Table(accounts, pool, treasury, ZERO, ZERO, ZERO, ZERO, [], ZERO)
    {
      this.arena, this.accounts, this.pool, this.treasury := arena, accounts, pool, treasury;
      px, out, paid, fee, entries, matched := ZERO, ZERO, ZERO, ZERO, [], ZERO;
    }

    method PxForRound(side: Side, quote: real) returns (p: real)
      modifies this`px
      ensures View() == Quoted(old(View()), side, quote) && p == At(px, side)
    {
      if !(At(px, side) > 0.0) {
        px := With(px, side, quote);
      }
      p := At(px, side);
    }

    /** Debit, tally, bank the fee and enter: the part every entry shares. */
    method Stake(i: nat, c: Camp, tokens: real, usd: real, human: bool)
      requires i < |accounts|
      modifies this
      ensures View() == Commit(arena, old(View()), i, c, tokens, usd, human)
    {
      hide Machine.Seated;
      var side := Slot(c);
      var f, id := Token(arena, side), accounts[i].id;
      accounts := accounts[i := Put(accounts[i], f, Get(accounts[i], f) - tokens)];
      out := With(out, side, At(out, side) + tokens);
      var feeTok := tokens * FEE;
      if feeTok > 0.0 {
        treasury := Put(treasury, f, Get(treasury, f) + feeTok);
      }
      if human {
        fee := With(fee, side, At(fee, side) + feeTok);
      } else {
        paid := With(paid, side, At(paid, side) + feeTok);
      }
      entries := Machine.Seated(entries, EntryId(id, c), c, usd * (1.0 - FEE));
    }

    /** A bot's own entry: the debit is undone when there is no price to enter at. */
    method BotEnters(i: nat, side: Side, minStake: real, sizing: Sizing, quote: real)
      requires i < |accounts|
      modifies this
      ensures View() == RoundTable.BotEnters(arena, old(View()), i, side, minStake, sizing, quote)
    {
      hide Commit, Usd;
      var f := Token(arena, side);
      Fight.CampCases(Army(side));
      var bankroll := Get(accounts[i], f);
      var stake := if sizing.Flat? then Min(sizing.amount, bankroll)
                   else Min(Min(Max(minStake, sizing.ask), CAP), bankroll);
      if !(minStake > 0.0) || stake < minStake {
        return;
      }
      var p := PxForRound(side, quote);
      var usdN := Usd(stake, p);
      if !(usdN > 0.0) {
        return;
      }
      Stake(i, Army(side), stake, usdN, false);
    }

    /** The house takes the other side of a player's stake, over a swarm of bots. */
    method MatchPlayerStake(c: Camp, stakeUsd: real, bots: seq<nat>, quote: real, slices: nat -> real)
      requires BotsOf(View(), bots)
      modifies this
      ensures View() == RoundTable.MatchPlayerStake(arena, old(View()), c, stakeUsd, bots, quote, slices)
    {
      hide AnswerOne, Ranks, Target, Want, IsBot;
      var foe := if c == Army(Bull) then Uwu else Bull;
      var p := PxForRound(foe, quote);
      if !(p > 0.0) {
        return;
      }
      var need := Target(arena, stakeUsd) - At(matched, foe);
      if need <= MIN_ENTRY {
        return;
      }
      var roster := Ranks(View(), bots, foe);
      var spread := Spread(arena, |roster|);
      ghost var goal := Answer(arena, View(), roster, 0, foe, need, spread, p, slices);
      assert roster[0..] == roster;
      var idx := 0;
      while idx < |roster| && !(need <= MIN_ENTRY)
        invariant 0 <= idx <= |roster|
        invariant forall k :: 0 <= k < |roster| ==> roster[k] < |accounts|
        invariant Answer(arena, View(), roster[idx..], idx, foe, need, spread, p, slices) == goal
      {
        assert roster[idx..][0] == roster[idx] && roster[idx..][1..] == roster[idx + 1..];
        var want := Want(need, spread, idx, slices(idx));
        var gave := AnswerFrom(roster[idx], foe, want, p);
        need := need - gave;
        idx := idx + 1;
      }
    }

    /** One bot answers, topped up from the float when it is short. */
    method AnswerFrom(i: nat, foe: Side, want: real, p: real) returns (gave: real)
      requires i < |accounts| && p > 0.0
      modifies this
      ensures (View(), gave) == AnswerOne(arena, old(View()), i, foe, want, p)
      ensures |accounts| == |old(accounts)|
    {
      hide DrawBank, Commit, Usd, Get, Put;
      Fight.CampCases(Army(foe));
      var f := Token(arena, foe);
      var have := Usd(Get(accounts[i], f), p);
      if have < want {
        var d := DrawBank(pool, f, (want - have) / p, 1.0);
        pool := d.pool;
        if d.granted > 0.0 {
          GetPutUsd(accounts[i], f, d.granted, p);
          accounts := accounts[i := Put(accounts[i], f, Get(accounts[i], f) + d.granted)];
          have := have + Usd(d.granted, p);
        }
      }
      var give := Min(Min(want, have), CAP);
      if give < MIN_ENTRY {
        return 0.0;
      }
      Stake(i, Army(foe), give / p, give, false);
      matched := With(matched, foe, At(matched, foe) + give);
      gave := give;
    }

    /** What a fighter has staked so far this round, before fees. */
    method StakedBy(id: string) returns (already: real)
      ensures already == SumR(entries, SeatGross(id))
    {
      already := 0.0;
      for k := 0 to |entries|
        invariant already == SumR(entries[..k], SeatGross(id))
      {
        SumSnocR(entries, k, SeatGross(id));
        if entries[k].id == id {
          already := already + Gross(entries[k]);
        }
      }
      assert entries[..|entries|] == entries;
    }

    /** A bot missing from a thin side is topped up to the minimum stake and put in at that. */
    method FloorEnters(i: nat, side: Side, minUsd: real, quote: real)
      requires i < |accounts|
      modifies this
      ensures View() == RoundTable.FloorEnters(arena, old(View()), i, side, minUsd, quote)
    {
      hide DrawBank, Commit, Usd, Get, Put, Deployed;
      var f := Token(arena, side);
      var p := PxForRound(side, quote);
      if !(p > 0.0) || Deployed(entries, accounts[i].id, side) {
        return;
      }
      var bal := Usd(Get(accounts[i], f), p);
      if bal < minUsd {
        var d := DrawBank(pool, f, (minUsd - bal) / p, 1.0);
        pool := d.pool;
        if d.granted > 0.0 {
          GetPutUsd(accounts[i], f, d.granted, p);
          accounts := accounts[i := Put(accounts[i], f, Get(accounts[i], f) + d.granted)];
          bal := bal + Usd(d.granted, p);
        }
      }
      if bal < minUsd {
        return;
      }
      Stake(i, Army(side), minUsd / p, minUsd, false);
    }

    /** A new bot, funded from the float; one that could not afford a stake is handed back unmade. Its
      * record takes the place of the one its name had, if it had one. */
    method NewBot(id: string, side: Side, want: real, spread: real, minStake: real) returns (made: bool)
      modifies this
      ensures View() == BotBorn(arena, old(View()), id, side, want, spread, minStake)
      ensures made <==> NewBank(old(pool), Token(arena, side), want, spread).granted >= minStake
      ensures made ==> Find(accounts, id) < |accounts| && Get(accounts[Find(accounts, id)], Token(arena, side)) >= minStake
    {
      hide DrawBank, ReturnBank, PoolReady, Get, Put, Find;
      var f := Token(arena, side);
      var got := 0.0;
      if PoolReady(pool) {
        var d := DrawBank(pool, f, want, spread);
        pool, got := d.pool, d.granted;
      }
      if !(got >= minStake) {
        pool := ReturnBank(pool, f, got);
        return false;
      }
      var b := Put(Account(id, true, 0.0, 0.0, 0.0), f, got);
      Ledger.Newborn(id, f, got);
      FiledIsFound(accounts, b);
      var i := Find(accounts, id);
      accounts := if i < |accounts| then accounts[i := b] else accounts + [b];
      return true;
    }

    /** Retire a bot: each coin it has goes to the poorest pool account. */
    method RetireBot(i: nat)
      requires i < |accounts|
      modifies this`accounts, this`pool
      ensures View() == BotRetired(old(View()), i)
    {
      hide ReturnBank;
      var fields := [BullCoin, UwuCoin, SolCoin];
      ghost var were, who := pool, accounts[i];
      ghost var others := accounts;
      for k := 0 to |fields|
        invariant |accounts| == |others| && accounts == others[i := accounts[i]]
        invariant (pool, accounts[i]) == HandedBack(were, who, fields[..k])
      {
        assert fields[..k + 1][..k] == fields[..k];
        var left := Get(accounts[i], fields[k]);
        if left > 0.0 {
          pool := ReturnBank(pool, fields[k], left);
          accounts := accounts[i := Put(accounts[i], fields[k], 0.0)];
        }
      }
      assert fields[..|fields|] == fields;
      ThreeCoins(were, who);
    }

    /** A player's entry up to the house's answer, with the refusals in the server's order. */
    method PlayerEnters(wallet: string, c: Camp, request: real, quote: real) returns (reply: Reply)
      modifies this
      ensures Entrance(View(), reply) == RoundTable.PlayerEnters(arena, old(View()), wallet, c, request, quote)
    {
      hide Commit, Usd, Gross;
      var side := if c == Army(Bull) then Bull else Uwu;
      var i := Find(accounts, wallet);
      if i == |accounts| {
        FindAppended(accounts, wallet);
        accounts := accounts + [NewAccount(wallet)];
      }
      assert View() == Known(old(View()), wallet);
      var bank := Get(accounts[i], Token(arena, side));
      var usdP := PxForRound(side, quote);
      if !(usdP > 0.0) {
        return NoPrice;
      }
      var already := StakedBy(EntryId(wallet, c));
      var headroom := Max(0.0, CAP - already);
      var stake := Min(Min(request, bank), headroom / usdP);
      var stakeUsd := Usd(stake, usdP);
      if headroom < MIN_ENTRY {
        return AtCap;
      }
      if stakeUsd < MIN_ENTRY {
        return TooSmall;
      }
      Stake(i, c, stake, stakeUsd, true);
      return Entered(stake, stakeUsd);
    }

    /** Credit one row of the settlement record, in each slot's token, at the round's price. */
    method PayRow(key: string, bal: Payout, quotes: Pair)
      modifies this
      ensures View() == RoundTable.PayRow(arena, old(View()), key, bal, quotes)
    {
      hide Units, Get, Put;
      var i := Find(accounts, OwnerOf(key));
      if i == |accounts| {
        return;
      }
      var pxA := PxForRound(Bull, quotes.bull);
      var pxB := PxForRound(Uwu, quotes.uwu);
      var retA := Units(bal.bull, pxA);
      var retB := Units(bal.uwu, pxB);
      accounts := accounts[i := Put(accounts[i], arena.tokA, Get(accounts[i], arena.tokA) + retA)];
      accounts := accounts[i := Put(accounts[i], arena.tokB, Get(accounts[i], arena.tokB) + retB)];
      paid := Pair(paid.bull + retA, paid.uwu + retB);
    }

    /** Walk the rows of the settlement record. */
    method OnSettle(record: map<string, Payout>, keys: seq<string>, quotes: nat -> Pair)
      requires Lists(keys, record)
      modifies this
      ensures View() == PayAll(arena, old(View()), record, keys, quotes)
    {
      hide RoundTable.PayRow;
      for k := 0 to |keys|
        invariant View() == PayAll(arena, old(View()), record, keys[..k], quotes)
      {
        assert keys[..k + 1][..k] == keys[..k] && keys[..k + 1][k] == keys[k];
        PayRow(keys[k], record[keys[k]], quotes(k));
      }
      assert keys[..|keys|] == keys;
    }

    /** Whether the audit of one side's token complains. */
    method AuditRound(side: Side) returns (warned: bool)
      ensures warned == AuditWarns(At(out, side), At(paid, side), At(fee, side))
    {
      if At(out, side) < 0.000000001 && At(paid, side) < 0.000000001 {
        return false;
      }
      var gap := At(paid, side) - At(out, side);
      var expected := -At(fee, side);
      warned := Abs(gap - expected) > Max(0.000001, At(out, side) * 0.001);
    }
  }

  lemma {:induction false} FiledIsFound(accounts: seq<Account>, b: Account)
    ensures var i := Find(Filed(accounts, b), b.id); i < |Filed(accounts, b)| && Filed(accounts, b)[i] == b
  {
    var s, i := Filed(accounts, b), Find(accounts, b.id);
    assert s[i] == b && forall j :: 0 <= j < i ==> s[j] == accounts[j];
    FindFirst(s, b.id, i);
  }

  lemma {:induction false} FindFirst(s: seq<Account>, id: string, i: nat)
    requires i < |s| && s[i].id == id && forall j :: 0 <= j < i ==> s[j].id != id
    ensures Find(s, id) == i
  {
    if i > 0 {
      FindFirst(s[1..], id, i - 1);
    }
  }

  /** What has been handed back after some of the coins. */
  ghost function HandedBack(pool: seq<Account>, who: Account, fields: seq<Field>): (seq<Account>, Account) {
    if fields == [] then (pool, who)
    else
      var (p, w) := HandedBack(pool, who, fields[..|fields| - 1]);
      HandBack(p, w, fields[|fields| - 1])
  }

  lemma ThreeCoins(pool: seq<Account>, who: Account)
    ensures HandedBack(pool, who, [BullCoin, UwuCoin, SolCoin]) == Retire(pool, who)
  {
    hide HandBack;
    assert [BullCoin, UwuCoin, SolCoin][..2] == [BullCoin, UwuCoin];
    assert [BullCoin, UwuCoin][..1] == [BullCoin];
    assert [BullCoin][..0] == [];
    assert HandedBack(pool, who, [BullCoin]) == HandBack(pool, who, BullCoin);
  }

  lemma GetPutUsd(who: Account, f: Accounts.Field, granted: real, p: real)
    ensures Usd(Get(Put(who, f, Get(who, f) + granted), f), p) == Usd(Get(who, f), p) + Usd(granted, p)
  {
  }
}
