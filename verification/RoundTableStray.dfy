/** Three inputs on which a round burns coin: a stake whose side is neither of the two, a retired bot with no
  * pool account to take what it has, and a new bot under the name of one there is already. */
module RoundTableStray {
  import opened Sums
  import opened Accounts
  import opened BotBank
  import opened TwoSideSim
  import opened RoundTable
  import opened RoundTableBasics
  import opened RoundTableTheorems
  import opened RoundTableAnswers
  import Machine = RoundMachine
  import Fight = TwoSideTheorems

  const ARENA := Arena(BullCoin, UwuCoin, 1.0, 8)

  const PLAYER := Account("w", false, 0.0, 10.0, 0.0)
  const BOT := Account(":bot:", true, 20.0, 0.0, 0.0)

  /** A player with ten of the second coin, a bot with twenty of the first, and an empty house. */
  const TABLE := Table([PLAYER, BOT], [], Account("treasury", true, 0.0, 0.0, 0.0),
                       ZERO, ZERO, ZERO, ZERO, [], ZERO)

  const EVEN: nat -> real := k => 1.0

  /** The player stakes everything with a message whose side is "x", at a price of one. */
  function Message(bots: seq<nat>): Step {
    PlayerStep("w", Stray("x", 0), 10.0, 1.0, bots, 1.0, EVEN)
  }

  lemma TableOpens()
    ensures Proper(ARENA) && Opening(ARENA, TABLE) && PlayerId("w") && IsBot(":bot:")
  {
    assert BotMarkAt(":bot:", 0);
    assert |"w"| == 1 && "w"[0] != '|';
    assert |":bot:"| == 5;
    assert forall i :: 0 <= i < 5 ==> ":bot:"[i] != '|';
    assert "w" != ":bot:" by {
      assert |"w"| != |":bot:"|;
    }
  }

  /** The message is accepted in full, and paid in the second coin. */
  lemma MessageAccepted()
    ensures var e := PlayerEnters(ARENA, TABLE, "w", Stray("x", 0), 10.0, 1.0);
            && e.reply == Entered(10.0, 10.0) && e.table.entries == [Entry(EntryId("w", Stray("x", 0)), Stray("x", 0), 10.0 * (1.0 - FEE))]
            && e.table.out == Pair(0.0, 10.0) && e.table.paid == ZERO && e.table.fee == Pair(0.0, 10.0 * FEE)
            && e.table.px == Pair(0.0, 1.0) && e.table.matched == ZERO
            && e.table.accounts == [PLAYER.(uwu := 0.0), BOT] && e.table.pool == []
  {
    assert Find(TABLE.accounts, "w") == 0;
    assert Known(TABLE, "w") == TABLE;
  }

  /** The stake is burned: whatever the fight, and in whatever order the record is paid, the ledger ends
    * with less of the second coin than it started with, and the audit complains about it. */
  lemma StrayStakeIsBurned(cfg: Config, phys: Physics, keys: seq<string>, quotes: nat -> Pair)
    requires cfg.matchTol >= 0.0
    requires Lists(keys, Settlement(Fought(Run(ARENA, TABLE, [Message([])]), cfg, phys)))
    ensures var t := Run(ARENA, TABLE, [Message([])]);
            var t' := PayAll(ARENA, t, Settlement(Fought(t, cfg, phys)), keys, quotes);
            && Held(t', UwuCoin) < Held(TABLE, UwuCoin)
            && AuditWarns(t'.out.uwu, t'.paid.uwu, t'.fee.uwu)
  {
    hide PlayerEnters, Fought, PayAll, Settlement, Held, Lists, EntryId, Priced, Registered, Solvent, Capped, IsBot, PlayerId, NoBar, Commit;
    var step := Message([]);
    var t := Run(ARENA, TABLE, [step]);
    TableOpens();
    MessageAccepted();
    var e := PlayerEnters(ARENA, TABLE, "w", Stray("x", 0), 10.0, 1.0);
    NobodyToAnswer(e.table);
    OneStep(ARENA, TABLE, step);
    assert t.entries == e.table.entries && t.out == e.table.out;
    EveryLobbyKeeps(ARENA, TABLE, [step]);
    assert !t.entries[0].side.Army?;
    SettlementKeeps(ARENA, t, cfg, phys, keys, quotes);
    NothingEarned(t, cfg, phys, keys, quotes);
  }

  /** A retired bot's coin is burned where there is no pool account to take it. */
  lemma RetiredCoinIsBurned()
    ensures Held(Run(ARENA, TABLE, [RetireStep(1)]), BullCoin) < Held(TABLE, BullCoin)
  {
    hide Retire, IsBot;
    TableOpens();
    OneStep(ARENA, TABLE, RetireStep(1));
    RetireEffect([], BOT, BullCoin);
    assert Total([], BullCoin) == 0.0;
    var t := BotRetired(TABLE, 1);
    TotalSwap(TABLE.accounts, 1, t.accounts[1], BullCoin);
  }

  const FLOAT := Account("pool", true, 5.0, 0.0, 0.0)

  /** A bot made under the name of another takes the place of its record: what that held is gone, with
    * money in the pool and every side named. */
  lemma NamesakeIsOverwritten()
    ensures var t := TABLE.(pool := [FLOAT]);
            var steps := [BirthStep(":bot:", Bull, 5.0, 1.0, 1.0)];
            && Opening(ARENA, t) && AllName(ARENA, t, steps) && AllBacked(ARENA, t, steps)
            && Held(Run(ARENA, t, steps), BullCoin) == Held(t, BullCoin) - 20.0
  {
    hide BotBorn, IsBot, Held, SolventIn;
    TableOpens();
    NamesakeBorn();
    var t := TABLE.(pool := [FLOAT]);
    var step := BirthStep(":bot:", Bull, 5.0, 1.0, 1.0);
    OneStep(ARENA, t, step);
    assert [step][1..] == [];
    FundedOpens();
  }

  lemma FundedOpens()
    ensures Opening(ARENA, TABLE.(pool := [FLOAT]))
  {
    TableOpens();
    var t := TABLE.(pool := [FLOAT]);
    forall g
      ensures SolventIn(t, g)
    {
      assert SolventIn(TABLE, g);
    }
  }

  lemma NamesakeBorn()
    ensures var t := TABLE.(pool := [FLOAT]);
            Held(BotBorn(ARENA, t, ":bot:", Bull, 5.0, 1.0, 1.0), BullCoin) == Held(t, BullCoin) - 20.0
  {
    hide DrawBank, Filed;
    var t := TABLE.(pool := [FLOAT]);
    forall g
      ensures Total([FLOAT], g) == Get(FLOAT, g)
    {
      SumOfOne(FLOAT, Accounts.Holding(g));
    }
    DrawIsExact([FLOAT], BullCoin, 5.0, 1.0);
    assert Total(t.pool, BullCoin) == 5.0 && Total(t.pool, UwuCoin) == 0.0 && Total(t.pool, SolCoin) == 0.0;
    assert |"w"| != |":bot:"|;
    assert t.accounts[1..] == [BOT];
    assert Find([BOT], ":bot:") == 0;
    assert Find(t.accounts, ":bot:") == 1;
    FiledTotal(t.accounts, Put(Account(":bot:", true, 0.0, 0.0, 0.0), BullCoin, 5.0), BullCoin);
  }

  lemma OneStep(a: Arena, t: Table, step: Step)
    ensures Run(a, t, [step]) == Next(a, t, step)
  {
    hide Next;
    assert [step][1..] == [];
  }

  lemma NobodyToAnswer(t: Table)
    ensures var t' := MatchPlayerStake(ARENA, t, Stray("x", 0), 10.0, [], 1.0, EVEN);
            t' == t.(px := t'.px)
  {
  }

  /** With no entry on either side the record pays nothing. */
  lemma NothingEarned(t: Table, cfg: Config, phys: Physics, keys: seq<string>, quotes: nat -> Pair)
    requires Sound(ARENA, t) && cfg.matchTol >= 0.0 && |t.entries| == 1 && t.entries[0].side.Stray?
    requires Lists(keys, Settlement(Fought(t, cfg, phys)))
    ensures var t' := PayAll(ARENA, t, Settlement(Fought(t, cfg, phys)), keys, quotes);
            t'.out == t.out && t'.fee == t.fee && t'.paid.uwu == t.paid.uwu
  {
    hide Fought, PayAll, Settlement, Held, Lists, Priced, Registered, Solvent, Capped, RowIn, PayoutIn;
    var F := Fought(t, cfg, phys);
    FightSettles(ARENA, t, cfg, phys);
    RowsPayable(ARENA, t, F, keys);
    PayAllEffect(ARENA, t, Settlement(F), keys, quotes);
    RecordPays(F, keys, Uwu);
    RowsNonNeg(F, keys, Uwu);
    OneStray(t.entries);
    UnitsAdd(0.0, 0.0, t.px.uwu);
    assert At(t.px, Uwu) == t.px.uwu;
    var t' := PayAll(ARENA, t, Settlement(F), keys, quotes);
    assert At(t'.paid, Uwu) == At(t.paid, Uwu) + Earned(t, Settlement(F), keys, Uwu);
  }

  lemma OneStray(entries: seq<Entry>)
    requires |entries| == 1 && entries[0].side.Stray?
    ensures TotalStake(entries, Uwu) == 0.0
  {
    assert entries[0].side != Army(Uwu);
    assert SumR(entries[1..], StakeOn(Uwu)) == 0.0;
  }

  lemma RowsNonNeg(F: seq<Fighter>, keys: seq<string>, side: Side)
    requires PaysNobodyLess(F)
    ensures Recorded(Settlement(F), keys, side) >= 0.0
  {
    hide PayoutIn, RowIn, Settlement;
    forall key | key in keys
      ensures RowIn(Settlement(F), side)(key) >= 0.0
    {
      RowNonNeg(F, key, side);
    }
    SumNonNegR(keys, RowIn(Settlement(F), side));
  }

  /** And the house answers it: it puts money against a stake that nobody counts as real. */
  lemma StrayStakeIsAnswered()
    ensures var t := Run(ARENA, TABLE, [Message([1])]);
            !InRatio(ARENA, t) && t.matched.bull >= 5.0 && HumanStake(t, Uwu) == 0.0
  {
    hide PlayerEnters, PlayerId, MatchPlayerStake, Commit;
    var step := Message([1]);
    TableOpens();
    MessageAccepted();
    var e := PlayerEnters(ARENA, TABLE, "w", Stray("x", 0), 10.0, 1.0);
    assert BotsOf(e.table, [1]);
    OneBotAnswers(e.table);
    var t := Run(ARENA, TABLE, [step]);
    OneStep(ARENA, TABLE, step);
    assert t == MatchPlayerStake(ARENA, e.table, Stray("x", 0), 10.0, [1], 1.0, EVEN);
  }

  lemma OneBotAnswers(t: Table)
    requires t.accounts == [PLAYER.(uwu := 0.0), BOT] && t.pool == [] && t.matched == ZERO && t.px == Pair(0.0, 1.0)
    requires |t.entries| == 1 && t.entries[0].side == Stray("x", 0) && BotsOf(t, [1])
    ensures var t' := MatchPlayerStake(ARENA, t, Stray("x", 0), 10.0, [1], 1.0, EVEN);
            t'.matched.bull >= 5.0 && HumanStake(t', Uwu) == 0.0
  {
    hide MatchPlayerStake, IsBot;
    assert Total(t.pool, BullCoin) == 0.0;
    assert Covered(ARENA, t, [1], Bull, 1.0, 10.0);
    assert FairSlices(EVEN);
    MatchAnswersMost(ARENA, t, Stray("x", 0), 10.0, [1], 1.0, EVEN);
    MatchLeavesTheOther(ARENA, t, Stray("x", 0), 10.0, [1], 1.0, EVEN);
    NobodyReal(t);
  }

  lemma NobodyReal(t: Table)
    requires |t.entries| == 1 && t.entries[0].side == Stray("x", 0)
    ensures HumanStake(t, Uwu) == 0.0
  {
    hide IsBot;
    assert |"x"| == 1 && |"uwu"| == 3;
    assert SumR(t.entries[1..], HumanOn(Uwu)) == 0.0;
  }

  /** An answer on one side leaves the watcher's count of the other as it was. */
  lemma MatchLeavesTheOther(a: Arena, t: Table, c: Camp, stakeUsd: real, bots: seq<nat>, quote: real, slices: nat -> real)
    requires BotsOf(t, bots)
    ensures HumanStake(MatchPlayerStake(a, t, c, stakeUsd, bots, quote, slices), Slot(c)) == HumanStake(t, Slot(c))
  {
    hide Answer, IsBot, Target, Ranks;
    var foe := Foe(Slot(c));
    var q := Quoted(t, foe, quote);
    var need := Target(a, stakeUsd) - At(q.matched, foe);
    if At(q.px, foe) > 0.0 && need > MIN_ENTRY {
      var roster := Ranks(q, bots, foe);
      AnswerLeavesTheOther(a, q, roster, 0, foe, need, Spread(a, |roster|), At(q.px, foe), slices);
    }
  }

  lemma {:induction false} AnswerLeavesTheOther(a: Arena, t: Table, roster: seq<nat>, idx: nat, foe: Side, need: real, spread: nat, px: real, slices: nat -> real)
    requires px > 0.0 && forall k :: 0 <= k < |roster| ==> roster[k] < |t.accounts|
    ensures HumanStake(Answer(a, t, roster, idx, foe, need, spread, px, slices), Foe(foe)) == HumanStake(t, Foe(foe))
    decreases |roster|
  {
    hide AnswerOne, HumanStake, Want;
    if roster != [] && need > MIN_ENTRY {
      var want := Want(need, spread, idx, slices(idx));
      OneLeavesTheOther(a, t, roster[0], foe, want, px);
      var (t1, gave) := AnswerOne(a, t, roster[0], foe, want, px);
      AnswerLeavesTheOther(a, t1, roster[1..], idx + 1, foe, need - gave, spread, px, slices);
    }
  }

  lemma OneLeavesTheOther(a: Arena, t: Table, i: nat, foe: Side, want: real, px: real)
    requires i < |t.accounts| && px > 0.0
    ensures HumanStake(AnswerOne(a, t, i, foe, want, px).0, Foe(foe)) == HumanStake(t, Foe(foe))
  {
    hide IsBot, Machine.Seated, Get, Put, BankFee, HumanOn;
    var u := TopUp(a, t, i, foe, want, px);
    var give := Give(a, u, i, foe, want, px);
    Fight.SideNamesDiffer();
    SeatedHumans(u.entries, EntryId(u.accounts[i].id, Army(foe)), Army(foe), give * (1.0 - FEE), Foe(foe));
  }
}
