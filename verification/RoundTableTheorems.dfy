/** What every lobby keeps, whatever mix of bots, players and house answers fills it, and what a whole
  * round does to the ledger. */
module RoundTableTheorems {
  import opened Basics
  import opened Sums
  import opened Accounts
  import opened TwoSideSim
  import opened RoundTable
  import opened RoundTableBasics
  import Machine = RoundMachine
  import Fight = TwoSideTheorems

  /** Two different coins, and an answer that is not negative. */
  ghost predicate Proper(a: Arena) {
    a.tokA != a.tokB && a.matchRatio >= 0.0
  }

  ghost predicate Sound(a: Arena, t: Table) {
    Priced(t) && Registered(t) && Solvent(t) && Capped(t)
  }

  ghost predicate PricesStand(t: Table, t': Table) {
    forall s :: At(t.px, s) > 0.0 ==> At(t'.px, s) == At(t.px, s)
  }

  ghost predicate SameHumans(t: Table, t': Table) {
    forall s :: ClaimStake(t', s) == ClaimStake(t, s)
  }

  ghost predicate SameNaming(t: Table, t': Table) {
    AllNamed(t'.entries) <==> AllNamed(t.entries)
  }

  /** What a move of the house or its bots keeps. */
  ghost predicate HouseMove(a: Arena, t: Table, t': Table) {
    && Sound(a, t') && Balanced(a, t, t') && SameIds(t, t') && PricesStand(t, t')
    && SameHumans(t, t') && SameNaming(t, t') && |t'.pool| == |t.pool|
  }

  lemma HouseMoves(a: Arena, t: Table, u: Table, v: Table)
    requires HouseMove(a, t, u) && HouseMove(a, u, v)
    ensures HouseMove(a, t, v)
  {
    hide Sound, Held, RingOf, ClaimStake, AllNamed;
  }

  // ---- the house's moves ----

  lemma SeatedNamed(entries: seq<Entry>, id: string, c: Camp, stake: real)
    ensures AllNamed(Machine.Seated(entries, id, c, stake)) <==> AllNamed(entries) && c.Army?
  {
    var i := Machine.Seat(entries, id, c);
    var r := Machine.Seated(entries, id, c, stake);
    assert i < |r| && r[i].side == c;
    assert forall k :: 0 <= k < |entries| ==> r[k].side == entries[k].side;
  }

  lemma SeatedCapped(entries: seq<Entry>, id: string, c: Camp, stake: real)
    requires forall k :: 0 <= k < |entries| && !IsBot(entries[k].id) ==> Gross(entries[k]) <= CAP
    requires stake >= 0.0
    requires IsBot(id) || SumR(entries, SeatGross(id)) + stake / (1.0 - FEE) <= CAP
    requires forall k :: 0 <= k < |entries| ==> entries[k].stake >= 0.0
    ensures var r := Machine.Seated(entries, id, c, stake);
            forall k :: 0 <= k < |r| && !IsBot(r[k].id) ==> Gross(r[k]) <= CAP
  {
    hide IsBot;
    forall e | e in entries
      ensures SeatGross(id)(e) >= 0.0
    {
    }
    SumNonNegR(entries, SeatGross(id));
    var i := Machine.Seat(entries, id, c);
    if i < |entries| {
      assert entries[i] in entries;
      assert SeatGross(id)(entries[i]) == Gross(entries[i]);
    }
  }

  lemma BotCommit(a: Arena, t: Table, i: nat, side: Side, tokens: real, usd: real)
    requires Proper(a) && Sound(a, t) && i < |t.accounts| && IsBot(t.accounts[i].id)
    requires At(t.px, side) > 0.0 && usd == Usd(tokens, At(t.px, side))
    requires 0.0 < tokens <= Get(t.accounts[i], Token(a, side))
    ensures HouseMove(a, t, Commit(a, t, i, Army(side), tokens, usd, false))
  {
    hide Usd, Priced, Registered, Solvent, Balanced, IsBot, EntryId, Machine.Seated, Get, Put, BankFee, InRing, AllNamed, OwnerOf, Claims;
    var c := Army(side);
    var t', id := Commit(a, t, i, c, tokens, usd, false), EntryId(t.accounts[i].id, c);
    UsdSign(tokens, At(t.px, side));
    CommitBalanced(a, t, i, c, tokens, usd, false);
    CommitPriced(a, t, i, c, tokens, usd, false);
    CommitRegistered(a, t, i, c, tokens, usd, false);
    CommitSolvent(a, t, i, c, tokens, usd, false);
    EntryIdBot(t.accounts[i].id, side);
    AccountsPlain(t, i);
    OwnerOfEntry(t.accounts[i].id, c);
    StakesNonNeg(t);
    SeatedCapped(t.entries, id, c, usd * (1.0 - FEE));
    SeatedNamed(t.entries, id, c, usd * (1.0 - FEE));
    forall s
      ensures ClaimStake(t', s) == ClaimStake(t, s)
    {
      SeatedClaims(t.entries, id, c, usd * (1.0 - FEE), s);
    }
    GetPut(t.accounts[i], Token(a, side), Get(t.accounts[i], Token(a, side)) - tokens, BullCoin);
  }

  lemma AccountsPlain(t: Table, i: nat)
    requires Registered(t) && i < |t.accounts|
    ensures NoBar(t.accounts[i].id)
  {
  }

  lemma StakesNonNeg(t: Table)
    requires Registered(t)
    ensures forall k :: 0 <= k < |t.entries| ==> t.entries[k].stake >= 0.0
  {
  }

  lemma Quote(a: Arena, t: Table, side: Side, quote: real)
    requires Sound(a, t)
    ensures HouseMove(a, t, Quoted(t, side, quote)) && Sound(a, Quoted(t, side, quote))
  {
    hide Priced, PricedOn, IsBot, Owned, Balanced, AllNamed;
    QuotedKeeps(a, t, side, quote);
    SameMoney(t, Quoted(t, side, quote));
  }

  lemma TopUpMove(a: Arena, t: Table, i: nat, side: Side, want: real, px: real)
    requires Proper(a) && Sound(a, t) && i < |t.accounts| && px > 0.0
    ensures HouseMove(a, t, TopUp(a, t, i, side, want, px))
    ensures TopUp(a, t, i, side, want, px).px == t.px && TopUp(a, t, i, side, want, px).matched == t.matched
  {
    hide TopUp, Priced, Registered, Solvent, Balanced, IsBot, AllNamed;
    TopUpKeeps(a, t, i, side, want, px);
    var u := TopUp(a, t, i, side, want, px);
    SameBook(t, u);
  }

  /** The money in the accounts plays no part in the ring's own books. */
  lemma SameBook(t: Table, u: Table)
    requires u == t.(accounts := u.accounts, pool := u.pool, treasury := u.treasury) && SameIds(t, u)
    ensures Priced(t) ==> Priced(u)
    ensures Registered(t) ==> Registered(u)
  {
    if Priced(t) {
      forall s
        ensures PricedOn(u, s)
      {
        assert PricedOn(t, s);
      }
    }
    if Registered(t) {
      forall k | 0 <= k < |t.entries|
        ensures Owned(u.accounts, u.entries[k])
      {
        assert Owned(t.accounts, t.entries[k]);
        var i :| 0 <= i < |t.accounts| && t.entries[k].id == EntryId(t.accounts[i].id, t.entries[k].side);
        assert u.entries[k].id == EntryId(u.accounts[i].id, u.entries[k].side);
      }
    }
  }

  lemma BotEntersKeeps(a: Arena, t: Table, i: nat, side: Side, minStake: real, sizing: Sizing, quote: real)
    requires Proper(a) && Sound(a, t) && i < |t.accounts| && IsBot(t.accounts[i].id)
    ensures HouseMove(a, t, BotEnters(a, t, i, side, minStake, sizing, quote))
    ensures BotEnters(a, t, i, side, minStake, sizing, quote).matched == t.matched
  {
    hide Usd, Sound, Commit, Balanced, IsBot, Get, ClaimStake, AllNamed;
    Quote(a, t, side, quote);
    HouseRests(a, t);
    var stake := StakeFor(sizing, minStake, Get(t.accounts[i], Token(a, side)));
    if minStake > 0.0 && stake >= minStake {
      var q := Quoted(t, side, quote);
      if Usd(stake, At(q.px, side)) > 0.0 {
        PositivePrice(stake, At(q.px, side));
        BotCommit(a, q, i, side, stake, Usd(stake, At(q.px, side)));
        HouseMoves(a, t, q, Commit(a, q, i, Army(side), stake, Usd(stake, At(q.px, side)), false));
        CommitMatched(a, q, i, Army(side), stake, Usd(stake, At(q.px, side)), false);
      }
    }
  }

  lemma CommitMatched(a: Arena, t: Table, i: nat, c: Camp, tokens: real, usd: real, human: bool)
    requires i < |t.accounts|
    ensures var t' := Commit(a, t, i, c, tokens, usd, human); t'.matched == t.matched && t'.px == t.px
  {
  }

  lemma PositivePrice(x: real, px: real)
    requires x > 0.0 && Usd(x, px) > 0.0
    ensures px > 0.0
  {
  }

  lemma HouseRests(a: Arena, t: Table)
    requires Sound(a, t)
    ensures HouseMove(a, t, t)
  {
  }

  lemma FloorEntersKeeps(a: Arena, t: Table, i: nat, side: Side, minUsd: real, quote: real)
    requires Proper(a) && Sound(a, t) && i < |t.accounts| && IsBot(t.accounts[i].id) && minUsd > 0.0
    ensures HouseMove(a, t, FloorEnters(a, t, i, side, minUsd, quote))
    ensures FloorEnters(a, t, i, side, minUsd, quote).matched == t.matched
  {
    hide Usd, Sound, Commit, Balanced, IsBot, Get, ClaimStake, AllNamed, TopUp, Deployed;
    Quote(a, t, side, quote);
    var q := Quoted(t, side, quote);
    var px := At(q.px, side);
    if px > 0.0 && !Deployed(q.entries, q.accounts[i].id, side) {
      TopUpMove(a, q, i, side, minUsd, px);
      var u := TopUp(a, q, i, side, minUsd, px);
      HouseMoves(a, t, q, u);
      var have := Get(u.accounts[i], Token(a, side));
      if Usd(have, px) >= minUsd {
        UsdOfUnits(minUsd, px);
        UsdOrder(minUsd / px, have, px);
        BotCommit(a, u, i, side, minUsd / px, minUsd);
        CommitMatched(a, u, i, Army(side), minUsd / px, minUsd, false);
        HouseMoves(a, t, u, Commit(a, u, i, Army(side), minUsd / px, minUsd, false));
      }
    }
  }

  // ---- the house's answer ----

  lemma MatchedFree(a: Arena, t: Table, u: Table, m: Pair)
    requires HouseMove(a, t, u)
    ensures HouseMove(a, t, u.(matched := m))
  {
    hide IsBot;
    var v := u.(matched := m);
    forall s
      ensures PricedOn(v, s)
    {
      assert PricedOn(u, s);
    }
    SameMoney(u, v);
    assert forall f :: Held(v, f) == Held(u, f);
    assert forall s :: ClaimStake(v, s) == ClaimStake(u, s);
  }

  /** One bot's part: it gives no more than it is asked for, and what it gives is added to the answer. */
  lemma AnswerOneKeeps(a: Arena, t: Table, i: nat, foe: Side, want: real, px: real)
    requires Proper(a) && Sound(a, t) && i < |t.accounts| && IsBot(t.accounts[i].id)
    requires px == At(t.px, foe) > 0.0
    ensures var (t', gave) := AnswerOne(a, t, i, foe, want, px);
            && HouseMove(a, t, t')
            && t'.matched == With(t.matched, foe, At(t.matched, foe) + gave)
            && (gave == 0.0 || MIN_ENTRY <= gave <= want)
  {
    hide Usd, Sound, Commit, Balanced, IsBot, Get, ClaimStake, AllNamed, TopUp, HouseMove;
    TopUpMove(a, t, i, foe, want, px);
    var u := TopUp(a, t, i, foe, want, px);
    TopUpIds(a, t, i, foe, want, px);
    var have := Get(u.accounts[i], Token(a, foe));
    var give := Give(a, u, i, foe, want, px);
    if give >= MIN_ENTRY {
      UsdOfUnits(give, px);
      UsdOrder(give / px, have, px);
      BotCommit(a, u, i, foe, give / px, give);
      var c := Commit(a, u, i, Army(foe), give / px, give, false);
      CommitMatched(a, u, i, Army(foe), give / px, give, false);
      HouseMoves(a, t, u, c);
      MatchedFree(a, t, c, With(c.matched, foe, At(c.matched, foe) + give));
    }
  }

  lemma TopUpIds(a: Arena, t: Table, i: nat, foe: Side, want: real, px: real)
    requires Proper(a) && Sound(a, t) && i < |t.accounts| && px > 0.0
    ensures var u := TopUp(a, t, i, foe, want, px);
            Sound(a, u) && |u.accounts| == |t.accounts| && u.accounts[i].id == t.accounts[i].id
  {
    hide Sound, TopUp, Balanced, ClaimStake, AllNamed;
    TopUpMove(a, t, i, foe, want, px);
  }

  /** The whole answer: whatever the slices, the recorded answer grows by no more than was needed. */
  lemma {:induction false} AnswerKeeps(a: Arena, t: Table, roster: seq<nat>, idx: nat, foe: Side, need: real, spread: nat, px: real, slices: nat -> real)
    requires Proper(a) && Sound(a, t) && BotsOf(t, roster) && need >= 0.0
    requires px == At(t.px, foe) > 0.0
    ensures var t' := Answer(a, t, roster, idx, foe, need, spread, px, slices);
            && HouseMove(a, t, t')
            && At(t.matched, foe) <= At(t'.matched, foe) <= At(t.matched, foe) + need
            && forall s :: s != foe ==> At(t'.matched, s) == At(t.matched, s)
    decreases |roster|
  {
    hide Sound, Balanced, IsBot, ClaimStake, AllNamed, AnswerOne;
    HouseRests(a, t);
    if roster != [] && need > MIN_ENTRY {
      var want := Want(need, spread, idx, slices(idx));
      WantWithin(need, spread, idx, slices(idx));
      AnswerOneKeeps(a, t, roster[0], foe, want, px);
      var (t1, gave) := AnswerOne(a, t, roster[0], foe, want, px);
      AnswerKeeps(a, t1, roster[1..], idx + 1, foe, need - gave, spread, px, slices);
      HouseMoves(a, t, t1, Answer(a, t1, roster[1..], idx + 1, foe, need - gave, spread, px, slices));
    }
  }

  lemma WantWithin(need: real, spread: nat, idx: nat, slice: real)
    ensures Want(need, spread, idx, slice) <= need
  {
  }

  /** One run of the house's answer: it ends at no more than the ratio of the stake it answers, unless
    * the earlier answer already was above that. */
  lemma MatchKeeps(a: Arena, t: Table, c: Camp, stakeUsd: real, bots: seq<nat>, quote: real, slices: nat -> real)
    requires Proper(a) && Sound(a, t) && BotsOf(t, bots)
    ensures var t' := MatchPlayerStake(a, t, c, stakeUsd, bots, quote, slices);
            && HouseMove(a, t, t')
            && At(t.matched, Foe(Slot(c))) <= At(t'.matched, Foe(Slot(c)))
                 <= Max(At(t.matched, Foe(Slot(c))), Target(a, stakeUsd))
            && At(t'.matched, Slot(c)) == At(t.matched, Slot(c))
  {
    hide Sound, Balanced, IsBot, ClaimStake, AllNamed, Answer, Target, HouseMove;
    HouseRests(a, t);
    var foe := Foe(Slot(c));
    Quote(a, t, foe, quote);
    var q := Quoted(t, foe, quote);
    var need := Target(a, stakeUsd) - At(q.matched, foe);
    if At(q.px, foe) > 0.0 && need > MIN_ENTRY {
      var roster := Ranks(q, bots, foe);
      AnswerKeeps(a, q, roster, 0, foe, need, Spread(a, |roster|), At(q.px, foe), slices);
      HouseMoves(a, t, q, Answer(a, q, roster, 0, foe, need, Spread(a, |roster|), At(q.px, foe), slices));
    }
  }

  // ---- a player ----

  /** The house's answer on each side is at most the ratio of the real stake that could be meant for the
    * other. */
  ghost predicate Answered(a: Arena, t: Table) {
    forall side :: At(t.matched, Foe(side)) <= Target(a, ClaimStake(t, side))
  }

  ghost predicate HumansGrow(t: Table, t': Table) {
    forall s :: ClaimStake(t, s) <= ClaimStake(t', s)
  }

  lemma ClaimsNonNeg(t: Table)
    requires Registered(t)
    ensures forall s :: ClaimStake(t, s) >= 0.0
  {
    StakesNonNeg(t);
    forall s
      ensures ClaimStake(t, s) >= 0.0
    {
      forall e | e in t.entries
        ensures ClaimOn(s)(e) >= 0.0
      {
        var k :| 0 <= k < |t.entries| && t.entries[k] == e;
      }
      SumNonNegR(t.entries, ClaimOn(s));
    }
  }

  /** What the watcher counts is never more than what could be claimed, and with every side named it is
    * exactly that. */
  lemma HumansWithinClaims(t: Table, side: Side)
    requires Registered(t)
    ensures HumanStake(t, side) <= ClaimStake(t, side)
    ensures AllNamed(t.entries) ==> HumanStake(t, side) == ClaimStake(t, side)
  {
    hide IsBot, OwnerOf, EntryId, NoBar;
    forall k | 0 <= k < |t.entries|
      ensures HumanOn(side)(t.entries[k]) <= ClaimOn(side)(t.entries[k])
      ensures t.entries[k].side.Army? ==> HumanOn(side)(t.entries[k]) == ClaimOn(side)(t.entries[k])
    {
      var e := t.entries[k];
      if IsBot(OwnerOf(e.id)) {
        BotOwner(e.id);
      }
      assert Owned(t.accounts, e);
      var i :| 0 <= i < |t.accounts| && e.id == EntryId(t.accounts[i].id, e.side);
      OwnerOfEntry(t.accounts[i].id, e.side);
      if e.side.Army? {
        EntryIdBot(t.accounts[i].id, e.side.side);
        Fight.SideNamesDiffer();
        Fight.CampCases(e.side);
      }
    }
    SumMonoR(t.entries, HumanOn(side), ClaimOn(side));
    if AllNamed(t.entries) {
      SumSameR(t.entries, t.entries, HumanOn(side), ClaimOn(side));
    }
  }

  lemma KnownKeeps(a: Arena, t: Table, wallet: string)
    requires Sound(a, t) && PlayerId(wallet)
    ensures var k := Known(t, wallet);
            && Sound(a, k) && Balanced(a, t, k) && k == t.(accounts := k.accounts)
            && Find(k.accounts, wallet) < |k.accounts|
  {
    hide IsBot, Priced, Registered, Solvent, Gross;
    var k := Known(t, wallet);
    if k != t {
      NewcomerKeeps(a, t, NewAccount(wallet));
      forall f
        ensures Total(k.accounts, f) == Total(t.accounts, f)
      {
        AccountAdded(t.accounts, NewAccount(wallet), f);
      }
      NewcomerSolvent(t, wallet);
    }
  }

  lemma NewcomerSolvent(t: Table, wallet: string)
    requires Solvent(t)
    ensures Solvent(t.(accounts := t.accounts + [NewAccount(wallet)]))
  {
    forall g
      ensures SolventIn(t.(accounts := t.accounts + [NewAccount(wallet)]), g)
    {
      assert SolventIn(t, g);
    }
  }

  /** One more account disturbs nobody's entry. */
  lemma NewcomerKeeps(a: Arena, t: Table, b: Account)
    requires NoBar(b.id) && Find(t.accounts, b.id) == |t.accounts|
    ensures var k := t.(accounts := t.accounts + [b]);
            (Registered(t) ==> Registered(k)) && (Priced(t) ==> Priced(k))
  {
    hide IsBot, EntryId;
    var k := t.(accounts := t.accounts + [b]);
    if Registered(t) {
      forall j | 0 <= j < |t.entries|
        ensures Owned(k.accounts, k.entries[j])
      {
        assert Owned(t.accounts, t.entries[j]);
        var i :| 0 <= i < |t.accounts| && t.entries[j].id == EntryId(t.accounts[i].id, t.entries[j].side);
        assert k.entries[j].id == EntryId(k.accounts[i].id, k.entries[j].side);
      }
    }
    if Priced(t) {
      forall s
        ensures PricedOn(k, s)
      {
        assert PricedOn(t, s);
      }
    }
  }

  /** A player's entry, whatever stands for the side: books balanced, nobody overdrawn, nobody above the
    * cap, and the real stake that can be claimed for the slot it was paid from grown by exactly the
    * dollars staked. */
  lemma PlayerEntersKeeps(a: Arena, t: Table, wallet: string, c: Camp, request: real, quote: real)
    requires Proper(a) && Sound(a, t) && PlayerId(wallet)
    ensures var e := PlayerEnters(a, t, wallet, c, request, quote);
            && Sound(a, e.table) && Balanced(a, t, e.table) && e.table.matched == t.matched
            && PricesStand(t, e.table) && e.table.pool == t.pool
            && (forall s :: ClaimStake(e.table, s)
                 == ClaimStake(t, s) + (if e.reply.Entered? && Claims(c, s) then e.reply.usd else 0.0))
            && (e.reply.Entered? ==> e.reply.usd >= MIN_ENTRY && e.reply.stake <= request)
            && (AllNamed(e.table.entries) <==> AllNamed(t.entries) && (e.reply.Entered? ==> c.Army?))
  {
    hide Sound, Balanced, IsBot, ClaimStake, Commit, Usd, Known, Get, PlayerId, AllNamed, Claims;
    KnownKeeps(a, t, wallet);
    var k := Known(t, wallet);
    var side := Slot(c);
    Quote(a, k, side, quote);
    var q := Quoted(k, side, quote);
    BalancedTrans(a, t, k, q);
    SameEntries(t, k);
    var px := At(q.px, side);
    var e := PlayerEnters(a, t, wallet, c, request, quote);
    if e.reply.Entered? {
      var i := Find(q.accounts, wallet);
      var already := SumR(q.entries, SeatGross(EntryId(wallet, c)));
      PlayerCommit(a, q, i, c, e.reply.stake, e.reply.usd, already, wallet);
      BalancedTrans(a, t, q, e.table);
    }
  }

  lemma SameEntries(t: Table, k: Table)
    requires k.entries == t.entries
    ensures SameHumans(t, k)
  {
  }

  lemma StakeWithinHeadroom(stake: real, headroom: real, px: real)
    requires px > 0.0 && stake <= headroom / px
    ensures Usd(stake, px) <= headroom
  {
    UsdOfUnits(headroom, px);
    UsdOrder(stake, headroom / px, px);
  }

  lemma BalancedTrans(a: Arena, t: Table, u: Table, v: Table)
    requires Balanced(a, t, u) && Balanced(a, u, v)
    ensures Balanced(a, t, v)
  {
    hide Held, RingOf;
  }

  lemma PlayerCommit(a: Arena, t: Table, i: nat, c: Camp, stake: real, usd: real, already: real, wallet: string)
    requires Proper(a) && Sound(a, t) && i < |t.accounts| && t.accounts[i].id == wallet && PlayerId(wallet)
    requires At(t.px, Slot(c)) > 0.0 && usd == Usd(stake, At(t.px, Slot(c))) && usd >= MIN_ENTRY
    requires stake <= Get(t.accounts[i], Token(a, Slot(c)))
    requires already == SumR(t.entries, SeatGross(EntryId(wallet, c)))
    requires stake <= Max(0.0, CAP - already) / At(t.px, Slot(c)) && Max(0.0, CAP - already) >= MIN_ENTRY
    ensures var t' := Commit(a, t, i, c, stake, usd, true);
            && Sound(a, t') && Balanced(a, t, t') && t'.px == t.px && t'.matched == t.matched
            && (forall s :: ClaimStake(t', s) == ClaimStake(t, s) + (if Claims(c, s) then usd else 0.0))
            && (AllNamed(t'.entries) <==> AllNamed(t.entries) && c.Army?) && t'.pool == t.pool
  {
    hide Usd, Priced, Registered, Solvent, Balanced, IsBot, EntryId, Machine.Seated, Get, Put, BankFee, InRing, SeatGross, AllNamed, OwnerOf, Claims;
    var t', id := Commit(a, t, i, c, stake, usd, true), EntryId(wallet, c);
    UsdSign(stake, At(t.px, Slot(c)));
    StakeWithinHeadroom(stake, Max(0.0, CAP - already), At(t.px, Slot(c)));
    CommitBalanced(a, t, i, c, stake, usd, true);
    CommitPriced(a, t, i, c, stake, usd, true);
    CommitRegistered(a, t, i, c, stake, usd, true);
    CommitSolvent(a, t, i, c, stake, usd, true);
    AccountsPlain(t, i);
    OwnerOfEntry(wallet, c);
    StakesNonNeg(t);
    SeatedCapped(t.entries, id, c, usd * (1.0 - FEE));
    SeatedNamed(t.entries, id, c, usd * (1.0 - FEE));
    forall s
      ensures ClaimStake(t', s) == ClaimStake(t, s) + (if Claims(c, s) then usd else 0.0)
    {
      SeatedClaims(t.entries, id, c, usd * (1.0 - FEE), s);
    }
  }

  // ---- every lobby ----

  lemma TargetGrows(a: Arena, x: real, y: real)
    requires Proper(a) && x <= y
    ensures Target(a, x) <= Target(a, y)
  {
    assert (y - x) * a.matchRatio >= 0.0;
  }

  lemma TargetIs(a: Arena, x: real)
    ensures Target(a, x) == a.matchRatio * x
  {
  }

  lemma AnsweredByHouse(a: Arena, t: Table, t': Table)
    requires Answered(a, t) && SameHumans(t, t') && t'.matched == t.matched
    ensures Answered(a, t')
  {
    hide ClaimStake;
  }

  /** An answer to part or all of the real stake claimed for a side keeps every answer within the ratio. */
  lemma AnsweredByMatch(a: Arena, t: Table, t': Table, side: Side, stakeUsd: real)
    requires Proper(a) && Answered(a, t) && SameHumans(t, t') && stakeUsd <= ClaimStake(t, side)
    requires At(t'.matched, Foe(side)) <= Max(At(t.matched, Foe(side)), Target(a, stakeUsd))
    requires At(t'.matched, side) == At(t.matched, side)
    ensures Answered(a, t')
  {
    hide ClaimStake, Target;
    TargetGrows(a, stakeUsd, ClaimStake(t, side));
  }

  lemma AnsweredByPlayer(a: Arena, t: Table, t': Table)
    requires Proper(a) && Answered(a, t) && HumansGrow(t, t') && t'.matched == t.matched
    ensures Answered(a, t')
  {
    hide ClaimStake, Target;
    forall side
      ensures At(t'.matched, Foe(side)) <= Target(a, ClaimStake(t', side))
    {
      TargetGrows(a, ClaimStake(t, side), ClaimStake(t', side));
    }
  }

  /** An accepted player entry names one of the two sides. */
  ghost predicate Names(a: Arena, t: Table, step: Step) {
    step.PlayerStep? && PlayerId(step.wallet)
    && PlayerEnters(a, t, step.wallet, step.camp, step.request, step.quote).reply.Entered?
    ==> step.camp.Army?
  }

  /** What a retired bot holds has somewhere to go. */
  ghost predicate Backs(t: Table, step: Step) {
    step.RetireStep? && step.bot < |t.accounts| && IsBot(t.accounts[step.bot].id) ==> Backed(t, step.bot)
  }

  /** A bot that is made takes a new name, or that of an account with nothing in it. */
  ghost predicate Freshly(a: Arena, t: Table, step: Step) {
    step.BirthStep? && BotName(step.id) && Funded(a, t, step.side, step.want, step.spread, step.minStake) ==> Fresh(t, step.id)
  }

  /** What every lobby step keeps. */
  ghost predicate LobbyMove(a: Arena, t: Table, t': Table) {
    && Sound(a, t') && Answered(a, t') && PricesStand(t, t') && HumansGrow(t, t') && |t'.pool| == |t.pool|
  }

  lemma PlayerStepKeeps(a: Arena, t: Table, step: Step)
    requires Proper(a) && Sound(a, t) && Answered(a, t) && step.PlayerStep?
    ensures LobbyMove(a, t, Next(a, t, step)) && Balanced(a, t, Next(a, t, step))
    ensures AllNamed(Next(a, t, step).entries) <==> AllNamed(t.entries) && Names(a, t, step)
  {
    hide Sound, Balanced, ClaimStake, Answered, PlayerEnters, MatchPlayerStake, BotsOf, PlayerId, AllNamed, Claims;
    BalancedSame(a, t);
    if PlayerId(step.wallet) {
      PlayerEntersKeeps(a, t, step.wallet, step.camp, step.request, step.quote);
      var e := PlayerEnters(a, t, step.wallet, step.camp, step.request, step.quote);
      AnsweredByPlayer(a, t, e.table);
      if e.reply.Entered? && BotsOf(e.table, step.bots) {
        SoundClaims(a, t);
        ClaimsItsSlot(step.camp);
        MatchKeeps(a, e.table, step.camp, e.reply.usd, step.bots, step.foeQuote, step.slices);
        var t' := MatchPlayerStake(a, e.table, step.camp, e.reply.usd, step.bots, step.foeQuote, step.slices);
        BalancedTrans(a, t, e.table, t');
        AnsweredByMatch(a, e.table, t', Slot(step.camp), e.reply.usd);
      }
    }
  }

  lemma ClaimsItsSlot(c: Camp)
    ensures Claims(c, Slot(c))
  {
  }

  lemma SoundClaims(a: Arena, t: Table)
    requires Sound(a, t)
    ensures forall s :: ClaimStake(t, s) >= 0.0
  {
    ClaimsNonNeg(t);
  }

  lemma BalancedSame(a: Arena, t: Table)
    ensures Balanced(a, t, t)
  {
  }

  lemma BalancedIsAccounted(a: Arena, t: Table, t': Table)
    requires Balanced(a, t, t')
    ensures Accounted(a, t, t', true)
  {
    hide Held, RingOf;
  }

  /** A bot born or retired, a bot or the treasury levelled: the entries and the answers are as they were,
    * and only a retirement that has nowhere to put the bot's coin, or a birth under the name of an account
    * that has some, burns any. */
  lemma PopulationKeeps(a: Arena, t: Table, step: Step)
    requires Proper(a) && Sound(a, t) && Answered(a, t) && (step.BirthStep? || step.LevelStep? || step.TreasuryStep? || step.RetireStep?)
    ensures LobbyMove(a, t, Next(a, t, step)) && SameNaming(t, Next(a, t, step))
    ensures Accounted(a, t, Next(a, t, step), Backs(t, step) && Freshly(a, t, step))
  {
    hide Priced, Registered, Solvent, Balanced, Accounted, ClaimStake, Answered, BotBorn, BotLevelled, TreasuryLevelled, BotRetired, Backed, Fresh, Funded, IsBot, AllNamed, Gross;
    BalancedSame(a, t);
    var t' := Next(a, t, step);
    match step {
      case BirthStep(id, side, want, spread, minStake) =>
        if BotName(id) {
          BirthKeeps(a, t, id, side, want, spread, minStake);
          if SameIds(t, t') {
            SameBook(t, t');
          } else {
            var b: Account :| b.id == id && t'.accounts == t.accounts + [b];
            NewcomerKeeps(a, t.(pool := t'.pool), b);
            SameBook(t, t.(pool := t'.pool));
          }
        }
      case LevelStep(i, f, ceilingUsd, px) =>
        if i < |t.accounts| && IsBot(t.accounts[i].id) && ceilingUsd >= 0.0 {
          LevelKeeps(a, t, i, f, ceilingUsd, px);
          SameBook(t, t');
        }
      case TreasuryStep(f, ceilingUsd, px) =>
        if ceilingUsd >= 0.0 {
          TreasuryLevelKeeps(a, t, f, ceilingUsd, px);
          SameBook(t, t');
        }
      case RetireStep(i) =>
        if i < |t.accounts| && IsBot(t.accounts[i].id) {
          RetireKeeps(a, t, i);
          SameBook(t, t');
        }
    }
    if Balanced(a, t, t') {
      BalancedIsAccounted(a, t, t');
    }
    SameEntries(t, t');
    AnsweredByHouse(a, t, t');
  }

  /** Every step of a lobby: no coin is minted, and none burned but by a retirement with nowhere to put
    * it or a birth under a name whose account has some; the ring is worth its tokens, nobody is overdrawn, nobody is above the cap, prices stand, and
    * the house never answers more than its ratio. */
  lemma NextKeeps(a: Arena, t: Table, step: Step)
    requires Proper(a) && Sound(a, t) && Answered(a, t)
    ensures LobbyMove(a, t, Next(a, t, step))
    ensures Accounted(a, t, Next(a, t, step), Backs(t, step) && Freshly(a, t, step))
    ensures AllNamed(Next(a, t, step).entries) <==> AllNamed(t.entries) && Names(a, t, step)
  {
    hide Sound, Balanced, Accounted, ClaimStake, Answered, BotEnters, FloorEnters, MatchPlayerStake, PlayerEnters, IsBot, BotsOf, PlayerId, BotBorn, BotLevelled, TreasuryLevelled, BotRetired, Backed, Fresh, Funded, AllNamed, BotName;
    BalancedSame(a, t);
    if Balanced(a, t, Next(a, t, step)) {
      BalancedIsAccounted(a, t, Next(a, t, step));
    }
    match step
    case BotStep(i, side, minStake, sizing, quote) =>
      if i < |t.accounts| && IsBot(t.accounts[i].id) {
        BotEntersKeeps(a, t, i, side, minStake, sizing, quote);
        AnsweredByHouse(a, t, BotEnters(a, t, i, side, minStake, sizing, quote));
      }
    case FloorStep(i, side, minUsd, quote) =>
      if i < |t.accounts| && IsBot(t.accounts[i].id) && minUsd > 0.0 {
        FloorEntersKeeps(a, t, i, side, minUsd, quote);
        AnsweredByHouse(a, t, FloorEnters(a, t, i, side, minUsd, quote));
      }
    case BirthStep(_, _, _, _, _) =>
      PopulationKeeps(a, t, step);
    case LevelStep(_, _, _, _) =>
      PopulationKeeps(a, t, step);
    case TreasuryStep(_, _, _) =>
      PopulationKeeps(a, t, step);
    case RetireStep(_) =>
      PopulationKeeps(a, t, step);
    case PlayerStep(_, _, _, _, _, _, _) =>
      PlayerStepKeeps(a, t, step);
    case WatchStep(side, bots, quote, slices) =>
      if BotsOf(t, bots) && HumanStake(t, side) > MIN_ENTRY {
        SoundWatch(a, t, side);
        MatchKeeps(a, t, Army(side), HumanStake(t, side), bots, quote, slices);
        AnsweredByMatch(a, t, MatchPlayerStake(a, t, Army(side), HumanStake(t, side), bots, quote, slices), side, HumanStake(t, side));
      }
  }

  lemma SoundWatch(a: Arena, t: Table, side: Side)
    requires Sound(a, t)
    ensures HumanStake(t, side) <= ClaimStake(t, side) && Slot(Army(side)) == side
  {
    HumansWithinClaims(t, side);
    Fight.CampCases(Army(side));
  }

  /** A round's table before anybody has entered. */
  ghost predicate Opening(a: Arena, t: Table) {
    && t.px == ZERO && t.out == ZERO && t.paid == ZERO && t.fee == ZERO && t.matched == ZERO && t.entries == []
    && (forall i, j :: 0 <= i < j < |t.accounts| ==> t.accounts[i].id != t.accounts[j].id)
    && (forall i :: 0 <= i < |t.accounts| ==> NoBar(t.accounts[i].id))
    && Solvent(t)
  }

  lemma OpeningIsSound(a: Arena, t: Table)
    requires Proper(a) && Opening(a, t)
    ensures Sound(a, t) && Answered(a, t) && AllNamed(t.entries)
  {
    assert ClaimStake(t, Bull) == ClaimStake(t, Uwu) == 0.0;
  }

  /** Every accepted player entry of a run names one of the two sides. */
  ghost predicate AllName(a: Arena, t: Table, steps: seq<Step>)
    decreases |steps|
  {
    steps != [] ==> Names(a, t, steps[0]) && AllName(a, Next(a, t, steps[0]), steps[1..])
  }

  /** Every retirement of a run can put the bot's coin somewhere. */
  ghost predicate AllBacked(a: Arena, t: Table, steps: seq<Step>)
    decreases |steps|
  {
    steps != [] ==> Backs(t, steps[0]) && AllBacked(a, Next(a, t, steps[0]), steps[1..])
  }

  /** Every bot a run makes takes a new name, or that of an account with nothing in it. */
  ghost predicate AllFresh(a: Arena, t: Table, steps: seq<Step>)
    decreases |steps|
  {
    steps != [] ==> Freshly(a, t, steps[0]) && AllFresh(a, Next(a, t, steps[0]), steps[1..])
  }

  lemma {:induction false} LobbyKeeps(a: Arena, t0: Table, t: Table, steps: seq<Step>, whole: bool)
    requires Proper(a) && Sound(a, t) && Answered(a, t) && Accounted(a, t0, t, whole)
    ensures var t' := Run(a, t, steps);
            && Sound(a, t') && Answered(a, t') && PricesStand(t, t') && HumansGrow(t, t')
            && Accounted(a, t0, t', whole && AllBacked(a, t, steps) && AllFresh(a, t, steps))
            && (AllNamed(t'.entries) <==> AllNamed(t.entries) && AllName(a, t, steps))
            && (t.pool != [] ==> AllBacked(a, t, steps))
    decreases |steps|
  {
    hide Sound, Answered, Accounted, Next, ClaimStake, AllNamed, Names, Fresh, Funded, BotName;
    if steps != [] {
      NextKeeps(a, t, steps[0]);
      var kept := Backs(t, steps[0]) && Freshly(a, t, steps[0]);
      AccountedTrans(a, t0, t, Next(a, t, steps[0]), whole, kept);
      LobbyKeeps(a, t0, Next(a, t, steps[0]), steps[1..], whole && kept);
    }
  }

  /** Over every lobby, from its opening, in any order of bot entries, births, levellings and retirements,
    * player entries, house answers and re-runs of the watcher, at any quotes and any slice sizes: between
    * accounts, pool, treasury and ring no coin is minted, and none burned if and only if every retired
    * bot's coin had somewhere to go, as it always has while there is a pool account, and every bot made
    * took a new name or that of an empty account; nobody -- bot, pool, treasury or
    * player -- is overdrawn; no real fighter is above the cap; the ring is worth exactly the tokens in it
    * at the round's frozen price; and where every accepted entry names a side, the house's recorded
    * answer on each side is within its ratio of the real stake on the other. */
  lemma EveryLobbyKeeps(a: Arena, t0: Table, steps: seq<Step>)
    requires Proper(a) && Opening(a, t0)
    ensures var t := Run(a, t0, steps);
            && Sound(a, t) && Answered(a, t) && Accounted(a, t0, t, AllBacked(a, t0, steps) && AllFresh(a, t0, steps))
            && (t0.pool != [] ==> AllBacked(a, t0, steps))
            && (AllNamed(t.entries) <==> AllName(a, t0, steps))
            && (AllName(a, t0, steps) ==> InRatio(a, t))
  {
    hide Sound, Answered, Balanced, Accounted, Run, AllNamed, AllName, AllBacked, AllFresh, InRatio;
    OpeningIsSound(a, t0);
    BalancedSame(a, t0);
    BalancedIsAccounted(a, t0, t0);
    LobbyKeeps(a, t0, t0, steps, true);
    if AllName(a, t0, steps) {
      NamedInRatio(a, Run(a, t0, steps));
    }
  }

  /** The house's answer on each side is at most its ratio of what the watcher counts on the other. */
  ghost predicate InRatio(a: Arena, t: Table) {
    forall side :: At(t.matched, Foe(side)) <= a.matchRatio * HumanStake(t, side)
  }

  lemma NamedInRatio(a: Arena, t: Table)
    requires Sound(a, t) && Answered(a, t) && AllNamed(t.entries)
    ensures InRatio(a, t)
  {
    hide AllNamed, Target, Priced, Registered, Solvent, Capped, HumanStake, ClaimStake;
    HumansWithinClaims(t, Bull);
    HumansWithinClaims(t, Uwu);
    forall side
      ensures HumanStake(t, side) == ClaimStake(t, side) && Target(a, HumanStake(t, side)) == a.matchRatio * HumanStake(t, side)
    {
      HumansWithinClaims(t, side);
      TargetIs(a, HumanStake(t, side));
    }
  }

  // ---- settlement ----

  /** One row's payout in a token. */
  function RowIn(record: map<string, Payout>, side: Side): string -> real {
    (key: string) => if key !in record then 0.0 else if side == Bull then record[key].bull else record[key].uwu
  }

  function Recorded(record: map<string, Payout>, keys: seq<string>, side: Side): real {
    SumR(keys, RowIn(record, side))
  }

  /** What a side's token pays back over the listed rows, at the round's price. */
  function Earned(t: Table, record: map<string, Payout>, keys: seq<string>, side: Side): real {
    Units(Recorded(record, keys, side), At(t.px, side))
  }

  /** The row is somebody's in the ledger, and a side nobody could price pays it nothing. */
  ghost predicate Payable(t: Table, record: map<string, Payout>, key: string) {
    && Find(t.accounts, OwnerOf(key)) < |t.accounts|
    && forall side :: At(t.px, side) > 0.0 || RowIn(record, side)(key) == 0.0
  }

  /** The ledger after some rows are paid, against the ledger before. */
  ghost predicate PaidOut(a: Arena, t: Table, t': Table, record: map<string, Payout>, keys: seq<string>) {
    && (forall f :: Held(t', f) == Held(t, f)
         + (if f == a.tokA then Earned(t, record, keys, Bull) else if f == a.tokB then Earned(t, record, keys, Uwu) else 0.0))
    && (forall s :: At(t'.paid, s) == At(t.paid, s) + Earned(t, record, keys, s))
    && t'.out == t.out && t'.fee == t.fee && t'.entries == t.entries
    && SameIds(t, t') && PricesStand(t, t')
  }

  lemma {:induction false} FindSame(x: seq<Account>, y: seq<Account>, id: string)
    requires |y| == |x| && forall i :: 0 <= i < |x| ==> y[i].id == x[i].id
    ensures Find(y, id) == Find(x, id)
  {
    if x != [] {
      FindSame(x[1..], y[1..], id);
    }
  }

  lemma UnitsAdd(x: real, y: real, px: real)
    ensures Units(x + y, px) == Units(x, px) + Units(y, px)
    ensures Units(0.0, px) == 0.0
  {
  }

  lemma PayRowEffect(a: Arena, t: Table, key: string, bal: Payout, quotes: Pair, px: Pair)
    requires Proper(a) && Find(t.accounts, OwnerOf(key)) < |t.accounts|
    requires forall s :: At(px, s) > 0.0 ==> At(t.px, s) == At(px, s)
    requires (px.bull > 0.0 || bal.bull == 0.0) && (px.uwu > 0.0 || bal.uwu == 0.0)
    ensures var t' := PayRow(a, t, key, bal, quotes);
            && t'.paid == Pair(t.paid.bull + Units(bal.bull, px.bull), t.paid.uwu + Units(bal.uwu, px.uwu))
            && (forall g :: Held(t', g) == Held(t, g)
                 + (if g == a.tokA then Units(bal.bull, px.bull) else if g == a.tokB then Units(bal.uwu, px.uwu) else 0.0))
            && t'.out == t.out && t'.fee == t.fee && t'.entries == t.entries
            && SameIds(t, t') && (forall s :: At(px, s) > 0.0 ==> At(t'.px, s) == At(px, s))
  {
    hide Units, Get, Put, Total, Quoted;
    var i := Find(t.accounts, OwnerOf(key));
    var q := Quoted(Quoted(t, Bull, quotes.bull), Uwu, quotes.uwu);
    QuotedBoth(t, quotes, px);
    SameUnits(bal.bull, q.px.bull, px.bull);
    SameUnits(bal.uwu, q.px.uwu, px.uwu);
    CreditBoth(a, t, i, Units(bal.bull, px.bull), Units(bal.uwu, px.uwu));
  }

  lemma QuotedBoth(t: Table, quotes: Pair, px: Pair)
    requires forall s :: At(px, s) > 0.0 ==> At(t.px, s) == At(px, s)
    ensures var q := Quoted(Quoted(t, Bull, quotes.bull), Uwu, quotes.uwu);
            && q == t.(px := q.px) && (forall s :: At(px, s) > 0.0 ==> At(q.px, s) == At(px, s))
            && (px.bull > 0.0 ==> q.px.bull == px.bull) && (px.uwu > 0.0 ==> q.px.uwu == px.uwu)
  {
    assert At(px, Bull) == px.bull && At(px, Uwu) == px.uwu;
  }

  lemma SameUnits(usd: real, p: real, q: real)
    requires usd == 0.0 || p == q
    ensures Units(usd, p) == Units(usd, q)
  {
    hide Units;
    if usd == 0.0 {
      UnitsAdd(0.0, 0.0, p);
      UnitsAdd(0.0, 0.0, q);
    }
  }

  /** One account credited in both coins. */
  function Credited(a: Arena, who: Account, retA: real, retB: real): Account {
    var paidA := Put(who, a.tokA, Get(who, a.tokA) + retA);
    Put(paidA, a.tokB, Get(paidA, a.tokB) + retB)
  }

  lemma CreditBoth(a: Arena, t: Table, i: nat, retA: real, retB: real)
    requires Proper(a) && i < |t.accounts|
    ensures var x := Credited(a, t.accounts[i], retA, retB);
            && x.id == t.accounts[i].id
            && forall g :: Total(t.accounts[i := x], g)
                 == Total(t.accounts, g) + (if g == a.tokA then retA else if g == a.tokB then retB else 0.0)
  {
    hide Get, Put, Total;
    var who := t.accounts[i];
    var paidA := Put(who, a.tokA, Get(who, a.tokA) + retA);
    var x := Credited(a, who, retA, retB);
    GetPut(who, a.tokA, Get(who, a.tokA) + retA, a.tokB);
    GetPut(paidA, a.tokB, Get(paidA, a.tokB) + retB, a.tokB);
    forall g
      ensures Total(t.accounts[i := x], g) == Total(t.accounts, g) + (if g == a.tokA then retA else if g == a.tokB then retB else 0.0)
    {
      GetPut(who, a.tokA, Get(who, a.tokA) + retA, g);
      GetPut(who, a.tokA, Get(who, a.tokA) + retA, a.tokB);
      GetPut(paidA, a.tokB, Get(paidA, a.tokB) + retB, g);
      TotalSwap(t.accounts, i, x, g);
    }
  }

  /** One more row paid, on top of those before. */
  lemma PaidOneMore(a: Arena, t: Table, init: Table, record: map<string, Payout>, keys: seq<string>, key: string, quotes: Pair)
    requires Proper(a) && key in record && Payable(t, record, key) && PaidOut(a, t, init, record, keys)
    ensures PaidOut(a, t, PayRow(a, init, key, record[key], quotes), record, keys + [key])
  {
    hide Held, PayRow, Units, SumR;
    FindSame(t.accounts, init.accounts, OwnerOf(key));
    assert RowIn(record, Bull)(key) == record[key].bull && RowIn(record, Uwu)(key) == record[key].uwu;
    assert At(t.px, Bull) == t.px.bull && At(t.px, Uwu) == t.px.uwu;
    PayRowEffect(a, init, key, record[key], quotes, t.px);
    forall s
      ensures Earned(t, record, keys + [key], s) == Earned(t, record, keys, s) + Units(RowIn(record, s)(key), At(t.px, s))
    {
      SumAppendR(keys, [key], RowIn(record, s));
      SumOfOne(key, RowIn(record, s));
      UnitsAdd(SumR(keys, RowIn(record, s)), RowIn(record, s)(key), At(t.px, s));
    }
  }

  lemma SumOfOne<T>(x: T, v: T -> real)
    ensures SumR([x], v) == v(x)
  {
  }

  lemma {:induction false} PayAllEffect(a: Arena, t: Table, record: map<string, Payout>, keys: seq<string>, quotes: nat -> Pair)
    requires Proper(a) && forall k :: 0 <= k < |keys| ==> keys[k] in record && Payable(t, record, keys[k])
    ensures PaidOut(a, t, PayAll(a, t, record, keys, quotes), record, keys)
    decreases |keys|
  {
    hide PayRow, PaidOut, Payable;
    if keys == [] {
      NobodyPaid(a, t, record);
    } else {
      var n := |keys| - 1;
      PayAllEffect(a, t, record, keys[..n], quotes);
      PaidOneMore(a, t, PayAll(a, t, record, keys[..n], quotes), record, keys[..n], keys[n], quotes(n));
      assert keys[..n] + [keys[n]] == keys;
    }
  }

  lemma NobodyPaid(a: Arena, t: Table, record: map<string, Payout>)
    ensures PaidOut(a, t, t, record, [])
  {
    hide Units;
    forall s
      ensures Earned(t, record, [], s) == 0.0
    {
      UnitsAdd(0.0, 0.0, At(t.px, s));
    }
  }

  // ---- the record against the fighters ----

  ghost predicate PaysNobodyLess(F: seq<Fighter>) {
    forall i :: 0 <= i < |F| ==> PayoutIn(Bull)(F[i]) >= 0.0 && PayoutIn(Uwu)(F[i]) >= 0.0
  }

  lemma {:induction false} SumWithout(keys: seq<string>, i: nat, v: string -> real)
    requires i < |keys|
    ensures SumR(keys, v) == SumR(keys[..i] + keys[i + 1..], v) + v(keys[i])
  {
    SumAppendR(keys[..i], keys[i + 1..], v);
    SumAppendR(keys[..i], [keys[i]] + keys[i + 1..], v);
    assert keys == keys[..i] + ([keys[i]] + keys[i + 1..]);
    assert ([keys[i]] + keys[i + 1..])[1..] == keys[i + 1..];
  }

  lemma RowOfLast(F: seq<Fighter>, side: Side)
    requires F != []
    ensures var f := F[|F| - 1]; RowIn(Settlement(F), side)(f.id) == PayoutIn(side)(f)
    ensures forall key :: key != F[|F| - 1].id ==>
              RowIn(Settlement(F), side)(key) == RowIn(Settlement(F[..|F| - 1]), side)(key)
    ensures F[|F| - 1].id in Settlement(F)
    ensures forall key :: key in Settlement(F) <==> key == F[|F| - 1].id || key in Settlement(F[..|F| - 1])
  {
    hide PayoutIn;
  }

  lemma WithoutRow(keys: seq<string>, record: map<string, Payout>, init: map<string, Payout>, key: string, i: nat)
    requires Lists(keys, record) && i < |keys| && keys[i] == key
    requires forall id :: id in record <==> id == key || id in init
    requires key !in init
    ensures Lists(keys[..i] + keys[i + 1..], init)
  {
    var rest := keys[..i] + keys[i + 1..];
    OthersRemain(keys, i);
    forall k | 0 <= k < |rest|
      ensures rest[k] in init
    {
      assert rest[k] in record;
    }
    forall id | id in init
      ensures id in rest
    {
      assert id in record;
    }
  }

  lemma OthersRemain(keys: seq<string>, i: nat)
    requires i < |keys| && forall k, l :: 0 <= k < l < |keys| ==> keys[k] != keys[l]
    ensures var rest := keys[..i] + keys[i + 1..];
            && (forall k, l :: 0 <= k < l < |rest| ==> rest[k] != rest[l])
            && (forall k :: 0 <= k < |rest| ==> rest[k] in keys && rest[k] != keys[i])
            && forall id :: id in keys && id != keys[i] ==> id in rest
  {
    var rest := keys[..i] + keys[i + 1..];
    forall k | 0 <= k < |rest|
      ensures rest[k] == keys[Shift(i, k)] && rest[k] != keys[i]
    {
      assert k >= i ==> rest[k] == keys[i + 1..][k - i];
    }
    assert keys == keys[..i] + [keys[i]] + keys[i + 1..];
  }

  function Shift(i: nat, k: nat): nat { if k < i then k else k + 1 }

  /** However the record is listed, it never pays more than the fighters are owed; and if no two fighters
    * share an id it pays exactly that. A shared id loses the earlier fighter's payout. */
  lemma {:induction false} RecordPays(F: seq<Fighter>, keys: seq<string>, side: Side)
    requires Lists(keys, Settlement(F)) && PaysNobodyLess(F)
    ensures Recorded(Settlement(F), keys, side) <= SumR(F, PayoutIn(side))
    ensures (forall i, j :: 0 <= i < j < |F| ==> F[i].id != F[j].id) ==>
              Recorded(Settlement(F), keys, side) == SumR(F, PayoutIn(side))
    decreases |F|
  {
    hide PayoutIn, RowIn, Settlement;
    if F == [] {
      EmptyRecord();
      assert keys == [];
    } else {
      var n := |F| - 1;
      var init, f := F[..n], F[n];
      assert F == init + [f];
      var record, before := Settlement(F), Settlement(init);
      RowOfLast(F, side);
      SumSnocR(F, n, PayoutIn(side));
      assert F[..n + 1] == F;
      var i :| 0 <= i < |keys| && keys[i] == f.id;
      var rest := keys[..i] + keys[i + 1..];
      SumWithout(keys, i, RowIn(record, side));
      assert forall k :: 0 <= k < |rest| ==> rest[k] != f.id;
      SumSameR(rest, rest, RowIn(record, side), RowIn(before, side));
      PaysInit(F);
      if f.id in before {
        SumWithout(keys, i, RowIn(before, side));
        assert Lists(keys, before);
        RecordPays(init, keys, side);
        RowNonNeg(init, f.id, side);
        SharedId(F);
      } else {
        WithoutRow(keys, record, before, f.id, i);
        RecordPays(init, rest, side);
      }
    }
  }

  lemma SharedId(F: seq<Fighter>)
    requires F != [] && F[|F| - 1].id in Settlement(F[..|F| - 1])
    ensures exists i :: 0 <= i < |F| - 1 && F[i].id == F[|F| - 1].id
  {
    hide Settlement;
    var init := F[..|F| - 1];
    Fight.SettledIds(init);
    var i :| 0 <= i < |init| && init[i].id == F[|F| - 1].id;
    assert F[i].id == F[|F| - 1].id;
  }

  lemma EmptyRecord()
    ensures Settlement([]) == map[]
  {
  }

  lemma PaysInit(F: seq<Fighter>)
    requires F != [] && PaysNobodyLess(F)
    ensures PaysNobodyLess(F[..|F| - 1])
    ensures forall side :: PayoutIn(side)(F[|F| - 1]) >= 0.0
  {
    hide PayoutIn;
    forall side
      ensures PayoutIn(side)(F[|F| - 1]) >= 0.0
    {
      assert PayoutIn(Bull)(F[|F| - 1]) >= 0.0 && PayoutIn(Uwu)(F[|F| - 1]) >= 0.0;
      match side
      case Bull =>
      case Uwu =>
    }
  }

  lemma {:induction false} RowNonNeg(F: seq<Fighter>, key: string, side: Side)
    requires PaysNobodyLess(F)
    ensures RowIn(Settlement(F), side)(key) >= 0.0
    decreases |F|
  {
    hide PayoutIn;
    if F != [] {
      RowOfLast(F, side);
      PaysInit(F);
      if key != F[|F| - 1].id {
        RowNonNeg(F[..|F| - 1], key, side);
      }
    }
  }

  // ---- the lobby, the fight and the settlement together ----

  /** The fighters of a finished fight over the lobby's entries. */
  function Fought(t: Table, cfg: Config, phys: Physics): seq<Fighter> {
    Play(cfg, phys, CreateSim(t.entries, cfg)).x.F
  }

  /** What the fight settles, as far as paying out is concerned. */
  ghost predicate Settles(t: Table, F: seq<Fighter>) {
    && |F| == |t.entries| && (forall i :: 0 <= i < |F| ==> F[i].id == t.entries[i].id)
    && PaysNobodyLess(F)
    && forall tk :: SumR(F, PayoutIn(tk)) == TotalStake(t.entries, tk)
  }

  lemma FightSettles(a: Arena, t: Table, cfg: Config, phys: Physics)
    requires Sound(a, t) && cfg.matchTol >= 0.0
    ensures Settles(t, Fought(t, cfg, phys))
  {
    hide Play, Fight.FairHits, PayoutIn, TotalStake;
    StakesAreFair(a, t);
    Fight.RoundConserves(t.entries, cfg, phys);
  }

  lemma StakesAreFair(a: Arena, t: Table)
    requires Sound(a, t)
    ensures Fight.Stakes(t.entries)
  {
    forall e | e in t.entries
      ensures e.stake >= 0.0
    {
      var k :| 0 <= k < |t.entries| && t.entries[k] == e;
    }
  }

  /** What a slot took in from nobody's side. */
  function StrayOn(side: Side): Entry -> real {
    (e: Entry) => if e.side.Stray? && Slot(e.side) == side then e.stake else 0.0
  }

  function StrayStake(t: Table, side: Side): real { SumR(t.entries, StrayOn(side)) }

  /** A slot's stakes are its side's and the strays'; only the second slot can have strays, and it has
    * some exactly when an entry names no side. */
  lemma SlotSplits(t: Table, side: Side)
    requires Registered(t)
    ensures SlotStake(t.entries, side) == TotalStake(t.entries, side) + StrayStake(t, side)
    ensures StrayStake(t, side) >= 0.0 && StrayStake(t, Bull) == 0.0
    ensures StrayStake(t, Uwu) == 0.0 <==> AllNamed(t.entries)
  {
    hide Priced, EntryId, Owned, NoBar;
    forall i | 0 <= i < |t.entries|
      ensures SlotOn(side)(t.entries[i]) == StakeOn(side)(t.entries[i]) + StrayOn(side)(t.entries[i])
    {
      Fight.CampCases(t.entries[i].side);
    }
    SumPlusR(t.entries, SlotOn(side), StakeOn(side), StrayOn(side));
    StraysNonNeg(t, Bull);
    StraysNonNeg(t, Uwu);
    StraysNonNeg(t, side);
    NoFirstStrays(t.entries);
    if AllNamed(t.entries) {
      AllNamedStrays(t.entries, Uwu);
    } else {
      var k :| 0 <= k < |t.entries| && !t.entries[k].side.Army?;
      assert t.entries[k] in t.entries && StrayOn(Uwu)(t.entries[k]) == t.entries[k].stake > 0.0;
    }
  }

  lemma StraysNonNeg(t: Table, side: Side)
    requires Registered(t)
    ensures StrayStake(t, side) >= 0.0
    ensures forall e :: e in t.entries ==> StrayOn(side)(e) <= StrayStake(t, side)
  {
    StakesNonNeg(t);
    forall e | e in t.entries
      ensures StrayOn(side)(e) >= 0.0
    {
      var k :| 0 <= k < |t.entries| && t.entries[k] == e;
    }
    SumNonNegR(t.entries, StrayOn(side));
  }

  lemma {:induction false} NoFirstStrays(entries: seq<Entry>)
    ensures SumR(entries, StrayOn(Bull)) == 0.0
  {
    if entries != [] {
      NoFirstStrays(entries[1..]);
    }
  }

  lemma {:induction false} AllNamedStrays(entries: seq<Entry>, side: Side)
    requires AllNamed(entries)
    ensures SumR(entries, StrayOn(side)) == 0.0
  {
    if entries != [] {
      AllNamedStrays(entries[1..], side);
    }
  }

  lemma {:induction false} RowsPayable(a: Arena, t: Table, F: seq<Fighter>, keys: seq<string>)
    requires Sound(a, t) && Settles(t, F) && Lists(keys, Settlement(F))
    ensures forall k :: 0 <= k < |keys| ==> keys[k] in Settlement(F) && Payable(t, Settlement(F), keys[k])
  {
    hide RowIn, Settlement, Settles, Registered, Priced, Capped, Solvent, Find, OwnerOf;
    forall k | 0 <= k < |keys|
      ensures Payable(t, Settlement(F), keys[k])
    {
      RowIsOwned(t, F, keys[k]);
      forall side
        ensures At(t.px, side) > 0.0 || RowIn(Settlement(F), side)(keys[k]) == 0.0
      {
        if !(At(t.px, side) > 0.0) {
          UnpricedPaysNothing(t, F, side, keys, k);
        }
      }
    }
  }

  lemma RowIsOwned(t: Table, F: seq<Fighter>, key: string)
    requires Registered(t) && Settles(t, F) && key in Settlement(F)
    ensures Find(t.accounts, OwnerOf(key)) < |t.accounts|
  {
    hide PayoutIn, EntryId, OwnerOf, NoBar, Settlement, PaysNobodyLess, TotalStake;
    Fight.SettledIds(F);
    var i :| 0 <= i < |F| && F[i].id == key;
    assert Owned(t.accounts, t.entries[i]);
    var j :| 0 <= j < |t.accounts| && t.entries[i].id == EntryId(t.accounts[j].id, t.entries[i].side);
    OwnerOfEntry(t.accounts[j].id, t.entries[i].side);
  }

  lemma UnpricedPaysNothing(t: Table, F: seq<Fighter>, side: Side, keys: seq<string>, k: nat)
    requires Priced(t) && Registered(t) && Settles(t, F) && Lists(keys, Settlement(F)) && k < |keys| && !(At(t.px, side) > 0.0)
    ensures RowIn(Settlement(F), side)(keys[k]) == 0.0
  {
    hide PayoutIn, Usd, RowIn, Registered, Settlement, TotalStake;
    assert PricedOn(t, side);
    NobodyStaked(t.entries, side);
    RecordPays(F, keys, side);
    forall key | key in keys
      ensures RowIn(Settlement(F), side)(key) >= 0.0
    {
      RowNonNeg(F, key, side);
    }
    SumNonNegR(keys, RowIn(Settlement(F), side));
    assert keys[k] in keys;
  }

  lemma {:induction false} NobodyStaked(entries: seq<Entry>, side: Side)
    requires EmptyOn(entries, side)
    ensures TotalStake(entries, side) == 0.0
  {
    if entries != [] {
      assert Slot(entries[0].side) != side;
      Fight.CampCases(entries[0].side);
      assert entries[0].side != Army(side);
      NobodyStaked(entries[1..], side);
    }
  }

  /** What comes back of a slot's token is never more than what is in the ring, and it is all of it for
    * a side whose slot took in nothing astray and whose ids are distinct. */
  lemma EarnedAndTheRing(t: Table, F: seq<Fighter>, keys: seq<string>, side: Side)
    requires Priced(t) && Registered(t) && Settles(t, F) && Lists(keys, Settlement(F))
    ensures AllNamed(t.entries) ==> Earned(t, Settlement(F), keys, side) == InRing(t, side)
    ensures StrayStake(t, side) > 0.0 ==> Earned(t, Settlement(F), keys, side) < InRing(t, side)
    ensures Earned(t, Settlement(F), keys, side) <= InRing(t, side)
  {
    hide TotalStake, StrayStake, PayoutIn, RowIn, Settlement, Registered, AllNamed, Fight.DistinctIds, SlotStake, Usd;
    assert PricedOn(t, side);
    SlotSplits(t, side);
    RecordPays(F, keys, side);
    if AllNamed(t.entries) {
      NamedEntriesHaveDistinctIds(t);
      DistinctFighters(t, F);
      NoStraysAt(t, side);
    }
    if At(t.px, side) > 0.0 {
      DivideBack(InRing(t, side), At(t.px, side));
      DivideLess(Recorded(Settlement(F), keys, side), SlotStake(t.entries, side), At(t.px, side));
    } else {
      NoStrayUnpriced(t, side);
    }
  }

  lemma NoStraysAt(t: Table, side: Side)
    requires Registered(t) && AllNamed(t.entries)
    ensures StrayStake(t, side) == 0.0
  {
    AllNamedStrays(t.entries, side);
  }

  lemma NoStrayUnpriced(t: Table, side: Side)
    requires EmptyOn(t.entries, side)
    ensures StrayStake(t, side) == 0.0
  {
    EmptyNoStrays(t.entries, side);
  }

  lemma {:induction false} EmptyNoStrays(entries: seq<Entry>, side: Side)
    requires EmptyOn(entries, side)
    ensures SumR(entries, StrayOn(side)) == 0.0
  {
    if entries != [] {
      assert Slot(entries[0].side) != side;
      EmptyNoStrays(entries[1..], side);
    }
  }

  lemma DistinctFighters(t: Table, F: seq<Fighter>)
    requires Settles(t, F) && Fight.DistinctIds(t.entries)
    ensures forall i, j :: 0 <= i < j < |F| ==> F[i].id != F[j].id
  {
    hide PaysNobodyLess, PayoutIn;
    forall i, j | 0 <= i < j < |F|
      ensures F[i].id != F[j].id
    {
      assert t.entries[i].id != t.entries[j].id;
    }
  }

  lemma DivideBack(x: real, px: real)
    requires px > 0.0
    ensures Usd(x, px) / px == x
  {
  }

  lemma DivideLess(x: real, y: real, px: real)
    requires px > 0.0
    ensures (x < y ==> x / px < y / px) && (x <= y ==> x / px <= y / px)
  {
    UsdOfUnits(x, px);
    UsdOfUnits(y, px);
    UsdOrder(y / px, x / px, px);
  }

  /** Paying the record out, in any order of its rows: where every entry names a side, exactly what was
    * in the ring comes back; where one does not, less of the second slot's token does. */
  lemma SettlementKeeps(a: Arena, t: Table, cfg: Config, phys: Physics, keys: seq<string>, quotes: nat -> Pair)
    requires Proper(a) && Sound(a, t) && cfg.matchTol >= 0.0
    requires Lists(keys, Settlement(Fought(t, cfg, phys)))
    ensures var t' := PayAll(a, t, Settlement(Fought(t, cfg, phys)), keys, quotes);
            && (AllNamed(t.entries) ==>
                  (&& (forall f :: Held(t', f) == Held(t, f) + RingOf(a, t, f))
                   && (forall s :: At(t'.paid, s) - At(t'.out, s) == -At(t'.fee, s))))
            && (!AllNamed(t.entries) ==> Held(t', a.tokB) < Held(t, a.tokB) + RingOf(a, t, a.tokB))
            && (forall f :: Held(t', f) <= Held(t, f) + RingOf(a, t, f))
            && SameIds(t, t')
  {
    hide Fought, PayAll, Held, Recorded, Settlement, Lists, Settles, Solvent, Capped, Registered, Priced, AllNamed, StrayStake;
    var F := Fought(t, cfg, phys);
    FightSettles(a, t, cfg, phys);
    RowsPayable(a, t, F, keys);
    PayAllEffect(a, t, Settlement(F), keys, quotes);
    EarnedAndTheRing(t, F, keys, Bull);
    EarnedAndTheRing(t, F, keys, Uwu);
    SlotSplits(t, Uwu);
  }

  /** Every coin's ledger-wide total -- accounts, pool and treasury -- is what it was. */
  ghost predicate Neutral(t: Table, t': Table) {
    forall f :: Held(t', f) == Held(t, f)
  }

  /** A whole round, end to end: any lobby, then any fight on any trajectory, then the settlement record
    * paid out in any order, with any quotes along the way. The round mints nothing; it burns nothing if
    * and only if every accepted player entry names one of the two sides, every retired bot's coin had
    * somewhere to go, which it has while there is a pool account, and every bot made took a new name or
    * that of an empty account; and then the house's answers keep their ratio too. With every side named
    * the audit's gap on each token is exactly minus the fees recorded as kept, and it never
    * complains. */
  lemma WholeRoundIsNeutralIff(a: Arena, t0: Table, steps: seq<Step>, cfg: Config, phys: Physics, keys: seq<string>, quotes: nat -> Pair)
    requires Proper(a) && Opening(a, t0) && cfg.matchTol >= 0.0
    requires Lists(keys, Settlement(Fought(Run(a, t0, steps), cfg, phys)))
    ensures var t := Run(a, t0, steps);
            var t' := PayAll(a, t, Settlement(Fought(t, cfg, phys)), keys, quotes);
            && (forall f :: Held(t', f) <= Held(t0, f))
            && (Neutral(t0, t') <==> AllName(a, t0, steps) && AllBacked(a, t0, steps) && AllFresh(a, t0, steps))
            && (AllName(a, t0, steps) ==> InRatio(a, t))
            && (t0.pool != [] ==> AllBacked(a, t0, steps))
            && (AllName(a, t0, steps) ==>
                  forall s :: At(t'.paid, s) - At(t'.out, s) == -At(t'.fee, s)
                              && !AuditWarns(At(t'.out, s), At(t'.paid, s), At(t'.fee, s)))
  {
    hide Run, Fought, PayAll, Sound, Held, AllName, AllNamed, AllBacked, AllFresh, InRatio, Lists, Answered, Settlement;
    EveryLobbyKeeps(a, t0, steps);
    SettlementKeeps(a, Run(a, t0, steps), cfg, phys, keys, quotes);
  }
}
