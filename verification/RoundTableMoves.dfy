/** What each move of a lobby does to whom: the account it debits, the entry it makes, the tallies it
  * leaves, and when it happens at all. */
module RoundTableMoves {
  import opened Basics
  import opened Sums
  import opened Accounts
  import opened BotBank
  import opened TwoSideSim
  import opened RoundTable
  import opened RoundTableBasics
  import opened RoundTableTheorems
  import opened RoundTableAnswers
  import Machine = RoundMachine
  import Fight = TwoSideTheorems

  // ---- an entry ----

  /** What an id has at stake on a side. */
  function StakeOf(entries: seq<Entry>, id: string, c: Camp): real {
    SumR(entries, Machine.StakeBy(id, c))
  }

  /** `tokens` of one coin leave one account, a fifth of a percent of them to the treasury; nobody else's
    * account changes, and nothing else of these two. */
  ghost predicate Debited(t: Table, t': Table, i: nat, f: Field, tokens: real)
    requires i < |t.accounts|
  {
    && |t'.accounts| == |t.accounts| && (forall j :: 0 <= j < |t.accounts| && j != i ==> t'.accounts[j] == t.accounts[j])
    && (forall g :: Get(t'.accounts[i], g) == Get(t.accounts[i], g) - (if g == f then tokens else 0.0))
    && (forall g :: Get(t'.treasury, g) == Get(t.treasury, g) + (if g == f then 0.002 * tokens else 0.0))
    && t'.accounts[i].id == t.accounts[i].id && t'.accounts[i].isBot == t.accounts[i].isBot
    && t'.pool == t.pool
  }

  /** The round's tallies of a side: what went out, and the fee as kept from a player or paid to a bot. */
  ghost predicate Tallied(t: Table, t': Table, side: Side, tokens: real, human: bool) {
    && (forall s :: At(t'.out, s) == At(t.out, s) + (if s == side then tokens else 0.0))
    && (forall s :: At(t'.fee, s) == At(t.fee, s) + (if s == side && human then 0.002 * tokens else 0.0))
    && (forall s :: At(t'.paid, s) == At(t.paid, s) + (if s == side && !human then 0.002 * tokens else 0.0))
    && t'.px == t.px
  }

  /** The dollars, less the fee, go in under the account's own id and the side it named, and nobody else's
    * stake changes. */
  ghost predicate Entered(t: Table, t': Table, id: string, c: Camp, usd: real) {
    forall key, s :: StakeOf(t'.entries, key, s)
      == StakeOf(t.entries, key, s) + (if key == id + "|" + Text(c) && s == c then 0.998 * usd else 0.0)
  }

  lemma CommitIs(a: Arena, t: Table, i: nat, c: Camp, tokens: real, usd: real, human: bool)
    requires i < |t.accounts| && tokens >= 0.0
    ensures var t' := Commit(a, t, i, c, tokens, usd, human);
            && Debited(t, t', i, if c == Army(Bull) then a.tokA else a.tokB, tokens)
            && Tallied(t, t', if c == Army(Bull) then Bull else Uwu, tokens, human)
            && Entered(t, t', t.accounts[i].id, c, usd) && t'.matched == t.matched
  {
    hide Machine.Seated, Machine.StakeBy;
    var f := Token(a, Slot(c));
    MoneyMoves(a, t, i, c, tokens, usd, human);
    forall key, s
      ensures StakeOf(Commit(a, t, i, c, tokens, usd, human).entries, key, s)
           == StakeOf(t.entries, key, s) + (if key == t.accounts[i].id + "|" + Text(c) && s == c then 0.998 * usd else 0.0)
    {
      SeatedStake(t.entries, EntryId(t.accounts[i].id, c), c, usd * (1.0 - FEE), key, s);
    }
  }

  lemma MoneyMoves(a: Arena, t: Table, i: nat, c: Camp, tokens: real, usd: real, human: bool)
    requires i < |t.accounts| && tokens >= 0.0
    ensures Debited(t, Commit(a, t, i, c, tokens, usd, human), i, Token(a, Slot(c)), tokens)
  {
    hide Get, Put, BankFee, Machine.Seated;
    var f, who := Token(a, Slot(c)), t.accounts[i];
    forall g
      ensures Get(Put(who, f, Get(who, f) - tokens), g) == Get(who, g) - (if g == f then tokens else 0.0)
      ensures Get(BankFee(t.treasury, f, tokens * FEE), g) == Get(t.treasury, g) + (if g == f then 0.002 * tokens else 0.0)
    {
      GetPut(who, f, Get(who, f) - tokens, g);
      FeeBanked(t.treasury, f, tokens * FEE, g);
    }
    StaysABot(who, f, Get(who, f) - tokens);
  }

  lemma StaysABot(x: Account, f: Field, v: real)
    ensures Put(x, f, v).isBot == x.isBot && Put(x, f, v).id == x.id
  {
  }

  lemma SeatedStake(entries: seq<Entry>, id: string, c: Camp, stake: real, key: string, s: Camp)
    ensures StakeOf(Machine.Seated(entries, id, c, stake), key, s)
         == StakeOf(entries, key, s) + (if key == id && s == c then stake else 0.0)
  {
    var i := Machine.Seat(entries, id, c);
    if i < |entries| {
      SumUpdateR(entries, i, entries[i].(stake := entries[i].stake + stake), Machine.StakeBy(key, s));
    } else {
      SumAppendR(entries, [Entry(id, c, stake)], Machine.StakeBy(key, s));
    }
  }

  // ---- a bot enters ----

  /** A bot that enters stakes what it asked for, moved to the nearest of what its minimum, the cap and its
    * bank allow; or the operator's amount, if its bank has that. */
  lemma BotStakesWhatItAsked(a: Arena, t: Table, i: nat, side: Side, minStake: real, sizing: Sizing, quote: real)
    requires i < |t.accounts|
    ensures var t', bank := BotEnters(a, t, i, side, minStake, sizing, quote), Get(t.accounts[i], if side == Bull then a.tokA else a.tokB);
            t'.entries != t.entries ==>
              var stake, q := At(t'.out, side) - At(t.out, side), Quoted(t, side, quote);
              && (sizing.Flat? ==> stake == sizing.amount || (stake == bank && bank <= sizing.amount))
              && (sizing.Share? && minStake <= sizing.ask <= 100.0 && sizing.ask <= bank ==> stake == sizing.ask)
              && (sizing.Share? && sizing.ask < minStake ==> stake == minStake)
              && (sizing.Share? && sizing.ask > 100.0 ==> stake == 100.0 || (stake == bank && bank <= 100.0))
              && (sizing.Share? && sizing.ask > bank && bank <= 100.0 ==> stake == bank || (stake == minStake && sizing.ask < minStake))
              && Debited(q, t', i, if side == Bull then a.tokA else a.tokB, stake)
              && Tallied(q, t', side, stake, false) && Entered(q, t', t.accounts[i].id, Army(side), Usd(stake, At(q.px, side)))
  {
    hide Machine.Seated, Usd, Commit, Debited, Tallied, Entered;
    BotEntersIff(a, t, i, side, minStake, sizing, quote);
    var t' := BotEnters(a, t, i, side, minStake, sizing, quote);
    if t'.entries != t.entries {
      var stake := StakeFor(sizing, minStake, Get(t.accounts[i], Token(a, side)));
      var q := Quoted(t, side, quote);
      Fight.CampCases(Army(side));
      CommitIs(a, q, i, Army(side), stake, Usd(stake, At(q.px, side)), false);
      TalliedOut(q, t', side, stake);
    }
  }

  lemma TalliedOut(t: Table, t': Table, side: Side, tokens: real)
    requires Tallied(t, t', side, tokens, false)
    ensures At(t'.out, side) - At(t.out, side) == tokens
  {
  }

  // ---- the thin side is filled ----

  /** A bot fills a thin side exactly when there is a price, it is not on that side yet, and its purse and the
    * whole float together come to the minimum; and then with exactly that. */
  lemma FloorEntersIff(a: Arena, t: Table, i: nat, side: Side, minUsd: real, quote: real)
    requires i < |t.accounts| && minUsd > 0.0 && Proper(a) && Total(t.pool, Token(a, side)) >= 0.0
    ensures var t', q := FloorEnters(a, t, i, side, minUsd, quote), Quoted(t, side, quote);
            var px, id := At(q.px, side), t.accounts[i].id;
            var can := px > 0.0 && (forall k :: 0 <= k < |t.entries| ==> t.entries[k].id != id + "|" + (if side == Bull then "bull" else "uwu"))
                       && (Purse(a, t, i, side, px) >= minUsd || Purse(a, t, i, side, px) + Float(a, t, side, px) >= minUsd);
            && (can ==> Entered(t, t', id, Army(side), minUsd) && At(t'.out, side) == At(t.out, side) + minUsd / px)
            && (!can ==> t'.entries == t.entries && t'.out == t.out)
  {
    hide Usd, Commit, TopUp, Entered, Total, Get, Debited, Tallied, Purse, Float;
    var q := Quoted(t, side, quote);
    var px := At(q.px, side);
    var id := t.accounts[i].id;
    assert Deployed(q.entries, id, side)
      <==> !(forall k :: 0 <= k < |t.entries| ==> t.entries[k].id != id + "|" + (if side == Bull then "bull" else "uwu"));
    SamePurse(a, t, q, i, side, px);
    if px > 0.0 && !Deployed(q.entries, id, side) {
      ToppedUp(a, q, i, side, minUsd, px);
      var u := TopUp(a, q, i, side, minUsd, px);
      if Purse(a, u, i, side, px) >= minUsd {
        QuotientNonNeg(minUsd, px);
        Fight.CampCases(Army(side));
        CommitIs(a, u, i, Army(side), minUsd / px, minUsd, false);
        EnteredFrom(t, u, Commit(a, u, i, Army(side), minUsd / px, minUsd, false), id, Army(side), minUsd);
        TalliedOut(u, Commit(a, u, i, Army(side), minUsd / px, minUsd, false), side, minUsd / px);
        PurseIs(a, u, i, side, px);
      } else {
        PurseIs(a, u, i, side, px);
      }
    }
  }

  lemma PurseIs(a: Arena, t: Table, i: nat, side: Side, px: real)
    requires i < |t.accounts|
    ensures Usd(Get(t.accounts[i], Token(a, side)), px) == Purse(a, t, i, side, px)
  {
  }

  lemma SamePurse(a: Arena, t: Table, q: Table, i: nat, side: Side, px: real)
    requires i < |t.accounts| && q.accounts == t.accounts && q.pool == t.pool
    ensures Purse(a, q, i, side, px) == Purse(a, t, i, side, px) && Float(a, q, side, px) == Float(a, t, side, px)
  {
  }

  /** A topped-up bot can afford the minimum exactly when its purse could, or could with the float. */
  lemma ToppedUp(a: Arena, t: Table, i: nat, side: Side, minUsd: real, px: real)
    requires i < |t.accounts| && px > 0.0 && Proper(a) && Total(t.pool, Token(a, side)) >= 0.0
    ensures var u := TopUp(a, t, i, side, minUsd, px);
            && u == t.(accounts := u.accounts, pool := u.pool) && |u.accounts| == |t.accounts| && u.accounts[i].id == t.accounts[i].id
            && (Purse(a, u, i, side, px) >= minUsd
                <==> Purse(a, t, i, side, px) >= minUsd || Purse(a, t, i, side, px) + Float(a, t, side, px) >= minUsd)
  {
    hide Usd, TopUp, Total, Get;
    TopUpReaches(a, t, i, side, minUsd, px);
    TopUpKeeps(a, t, i, side, minUsd, px);
    FloatNonNeg(a, t, side, px);
  }

  lemma FloatNonNeg(a: Arena, t: Table, side: Side, px: real)
    requires px > 0.0 && Total(t.pool, Token(a, side)) >= 0.0
    ensures Float(a, t, side, px) >= 0.0
  {
    hide Total;
    UsdSign(Total(t.pool, Token(a, side)), px);
  }

  lemma QuotientNonNeg(x: real, px: real)
    requires x > 0.0 && px > 0.0
    ensures x / px >= 0.0
  {
    var q := x / px;
    assert q * px == x;
    PositiveQuotient(q, px);
  }

  lemma EnteredFrom(t: Table, u: Table, v: Table, id: string, c: Camp, usd: real)
    requires Entered(u, v, id, c, usd) && u.entries == t.entries
    ensures Entered(t, v, id, c, usd)
  {
  }

  // ---- the house answers ----

  /** What a bot gives goes in under its own name on the answering side, in dollars, and out of its account in
    * tokens at the price; a bot that gives nothing enters nothing. */
  lemma AnswerEntersIt(a: Arena, t: Table, i: nat, foe: Side, want: real, px: real)
    requires i < |t.accounts| && px > 0.0 && Proper(a)
    ensures var (t', gave) := AnswerOne(a, t, i, foe, want, px);
            && (gave == 0.0 || gave >= 0.01)
            && (gave > 0.0 ==>
                  && Entered(t, t', t.accounts[i].id, Army(foe), gave) && At(t'.out, foe) == At(t.out, foe) + gave / px
                  && (forall j :: 0 <= j < |t.accounts| && j != i ==> t'.accounts[j] == t.accounts[j])
                  && At(t'.matched, foe) == At(t.matched, foe) + gave && At(t'.matched, Foe(foe)) == At(t.matched, Foe(foe)))
            && (gave == 0.0 ==> t'.entries == t.entries && t'.out == t.out && t'.matched == t.matched)
  {
    hide Usd, Commit, TopUp, Entered, Get, Debited, Tallied;
    TopUpKeeps(a, t, i, foe, want, px);
    TopUpDraws(a, t, i, foe, want, px);
    var u := TopUp(a, t, i, foe, want, px);
    var give := Give(a, u, i, foe, want, px);
    if give >= MIN_ENTRY {
      var c := Commit(a, u, i, Army(foe), give / px, give, false);
      QuotientNonNeg(give, px);
      Fight.CampCases(Army(foe));
      CommitIs(a, u, i, Army(foe), give / px, give, false);
      DebitedOthers(u, c, i, Token(a, foe), give / px);
      TalliedOut(u, c, foe, give / px);
      EnteredFrom(t, u, c, t.accounts[i].id, Army(foe), give);
      EnteredTo(t, c, AnswerOne(a, t, i, foe, want, px).0, t.accounts[i].id, Army(foe), give);
    }
  }

  lemma DebitedOthers(t: Table, t': Table, i: nat, f: Field, tokens: real)
    requires i < |t.accounts| && Debited(t, t', i, f, tokens)
    ensures |t'.accounts| == |t.accounts| && forall j :: 0 <= j < |t.accounts| && j != i ==> t'.accounts[j] == t.accounts[j]
  {
  }

  lemma EnteredTo(t: Table, u: Table, v: Table, id: string, c: Camp, usd: real)
    requires Entered(t, u, id, c, usd) && u.entries == v.entries
    ensures Entered(t, v, id, c, usd)
  {
  }

  // ---- the population ----

  /** A bot that is made has exactly its grant, of its own coin: the fair share of a float that is ready, or
    * what it wanted if that is less. One that is not made leaves every account as it was. */
  lemma NewBotHolds(a: Arena, t: Table, id: string, side: Side, want: real, spread: real, minStake: real)
    ensures var t', f := BotBorn(a, t, id, side, want, spread, minStake), if side == Bull then a.tokA else a.tokB;
            var ready := t.pool != [] && Total(t.pool, BullCoin) + Total(t.pool, UwuCoin) + Total(t.pool, SolCoin) > 0.0;
            var grant := if ready then Grant(Total(t.pool, f), want, spread) else 0.0;
            && (grant < minStake ==> t'.accounts == t.accounts)
            && (grant >= minStake ==>
                  (var i := Find(t'.accounts, id);
                   && i < |t'.accounts| && t'.accounts[i].isBot
                   && (forall g :: Get(t'.accounts[i], g) == if g == f then grant else 0.0)
                   && (forall j :: 0 <= j < |t.accounts| && j != i ==> t'.accounts[j] == t.accounts[j])))
  {
    hide DrawBank, ReturnBank, Total, Get, Put, Find;
    var f := Token(a, side);
    DrawIsExact(t.pool, f, want, spread);
    var d := NewBank(t.pool, f, want, spread);
    if d.granted >= minStake {
      var b := Put(Account(id, true, 0.0, 0.0, 0.0), f, d.granted);
      Newborn(id, f, d.granted);
      StaysABot(Account(id, true, 0.0, 0.0, 0.0), f, d.granted);
      FiledWhere(t.accounts, b);
    }
  }

  lemma FiledWhere(accounts: seq<Account>, b: Account)
    ensures var s, i := Filed(accounts, b), Find(Filed(accounts, b), b.id);
            && i < |s| && s[i] == b && |s| >= |accounts| && forall j :: 0 <= j < |accounts| && j != i ==> s[j] == accounts[j]
  {
    var s, i := Filed(accounts, b), Find(accounts, b.id);
    assert s[i] == b && forall j :: 0 <= j < i ==> s[j] == accounts[j];
    FirstIsFound(s, b.id, i);
  }

  lemma {:induction false} FirstIsFound(s: seq<Account>, id: string, i: nat)
    requires i < |s| && s[i].id == id && forall j :: 0 <= j < i ==> s[j].id != id
    ensures Find(s, id) == i
  {
    if i > 0 {
      FirstIsFound(s[1..], id, i - 1);
    }
  }

  /** An account is levelled exactly when the float is ready, there is a price, and it holds more than the
    * ceiling; what it then loses goes to the first of the poorest pool accounts. */
  lemma LevelledIff(pool: seq<Account>, who: Account, f: Field, ceilingUsd: real, px: real)
    requires ceilingUsd >= 0.0
    ensures var (pool', who') := Levelled(pool, who, f, ceilingUsd, px);
            if pool != [] && Total(pool, BullCoin) + Total(pool, UwuCoin) + Total(pool, SolCoin) > 0.0
               && px > 0.0 && Usd(Get(who, f), px) > ceilingUsd then
              && Usd(Get(who', f), px) == ceilingUsd && (forall g :: g != f ==> Get(who', g) == Get(who, g))
              && var skim := Get(who, f) - Get(who', f);
                 exists r :: 0 <= r < |pool| && Fed(pool, pool', f, skim, r)
            else who' == who && pool' == pool
  {
    hide ReturnBank, Total, Get, Put, Usd, Fed;
    if PoolReady(pool) && px > 0.0 && Usd(Get(who, f), px) > ceilingUsd {
      LevelledEffect(pool, who, f, ceilingUsd, px, f);
      var skim := (Usd(Get(who, f), px) - ceilingUsd) / px;
      UsdOfUnits(Usd(Get(who, f), px) - ceilingUsd, px);
      UsdAdds(Get(who, f) - skim, skim, px);
      UsdSign(skim, px);
      ReturnFeedsThePoorest(pool, f, skim);
      forall g
        ensures Get(Put(who, f, Get(who, f) - skim), g) == Get(who, g) - (if g == f then skim else 0.0)
      {
        GetPut(who, f, Get(who, f) - skim, g);
      }
    }
  }

  // ---- a player enters ----

  /** A wallet the ledger does not have gets one empty player account, and one it has gets nothing. */
  lemma KnownIs(t: Table, wallet: string)
    ensures var k := Known(t, wallet);
            && k == t.(accounts := k.accounts) && t.accounts <= k.accounts && |k.accounts| <= |t.accounts| + 1
            && (|k.accounts| == |t.accounts| <==> exists i :: 0 <= i < |t.accounts| && t.accounts[i].id == wallet)
            && (|k.accounts| > |t.accounts| ==> k.accounts[|t.accounts|] == Account(wallet, false, 0.0, 0.0, 0.0))
  {
    var i := Find(t.accounts, wallet);
    if i < |t.accounts| {
      assert t.accounts[i].id == wallet;
    }
  }

  /** An accepted player is debited in its own account and stands under its own wallet and side. */
  lemma PlayerEntersAsItself(a: Arena, t: Table, wallet: string, c: Camp, request: real, quote: real)
    ensures var e, k := PlayerEnters(a, t, wallet, c, request, quote), Known(t, wallet);
            var i, side := Find(k.accounts, wallet), if c == Army(Bull) then Bull else Uwu;
            e.reply.Entered? ==>
              && i < |k.accounts| && k.accounts[i].id == wallet && e.reply.usd == Usd(e.reply.stake, At(e.table.px, side))
              && Debited(k, e.table, i, if side == Bull then a.tokA else a.tokB, e.reply.stake)
              && Tallied(Quoted(k, side, quote), e.table, side, e.reply.stake, true)
              && Entered(k, e.table, wallet, c, e.reply.usd) && e.table.matched == t.matched
  {
    hide Commit, Debited, Tallied, Entered, SeatGross, Usd;
    var e, k := PlayerEnters(a, t, wallet, c, request, quote), Known(t, wallet);
    if e.reply.Entered? {
      var i, q := Find(k.accounts, wallet), Quoted(k, Slot(c), quote);
      SignOfStake(e.reply.stake, At(q.px, Slot(c)));
      CommitIs(a, q, i, c, e.reply.stake, e.reply.usd, true);
      CommitMatched(a, q, i, c, e.reply.stake, e.reply.usd, true);
      SameDebit(k, q, e.table, i, Token(a, Slot(c)), e.reply.stake);
      EnteredFrom(k, q, e.table, wallet, c, e.reply.usd);
    }
  }

  lemma SignOfStake(stake: real, px: real)
    requires px > 0.0 && Usd(stake, px) >= MIN_ENTRY
    ensures stake >= 0.0
  {
    UsdSign(stake, px);
  }

  lemma SameDebit(t: Table, q: Table, t': Table, i: nat, f: Field, tokens: real)
    requires q == t.(px := q.px) && i < |t.accounts| && Debited(q, t', i, f, tokens)
    ensures Debited(t, t', i, f, tokens)
  {
  }

  // ---- the watcher ----

  /** What the watcher answers is all of the real stake on a side -- every fighter there that is no bot's,
    * before fees -- as soon as there is more than a cent of it. */
  lemma WatcherAnswersIt(a: Arena, t: Table, side: Side, bots: seq<nat>, quote: real, slices: nat -> real)
    requires BotsOf(t, bots)
    ensures var real0 := SumR(t.entries, RealOn(side));
            Watched(a, t, side, bots, quote, slices)
            == if real0 > 0.01 then MatchPlayerStake(a, t, Army(side), real0, bots, quote, slices) else t
  {
    hide MatchPlayerStake, IsBot;
    Fight.SideNamesDiffer();
    SumSameR(t.entries, t.entries, HumanOn(side), RealOn(side));
  }

  function RealOn(side: Side): Entry -> real {
    (e: Entry) => if Text(e.side) == (if side == Bull then "bull" else "uwu") && !IsBot(e.id) then e.stake / 0.998 else 0.0
  }
}
