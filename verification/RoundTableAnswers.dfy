/** How much goes in: exactly when a bot or a player enters and for how much, and how much of a
  * player's stake the house meets. */
module RoundTableAnswers {
  import opened Basics
  import opened Sums
  import opened Accounts
  import opened BotBank
  import opened TwoSideSim
  import opened RoundTable
  import opened RoundTableBasics
  import opened RoundTableTheorems
  import Machine = RoundMachine
  import Fight = TwoSideTheorems

  /** What an account holds of a side's coin, in dollars. */
  function Purse(a: Arena, t: Table, i: nat, side: Side, px: real): real
    requires i < |t.accounts|
  {
    Usd(Get(t.accounts[i], Token(a, side)), px)
  }

  // ---- entering ----

  lemma SeatedChanges(entries: seq<Entry>, id: string, c: Camp, stake: real)
    requires stake != 0.0
    ensures Machine.Seated(entries, id, c, stake) != entries
  {
    var i := Machine.Seat(entries, id, c);
    if i < |entries| {
      assert Machine.Seated(entries, id, c, stake)[i].stake != entries[i].stake;
    }
  }

  /** The most a sizing can come to. */
  function Ceiling(sizing: Sizing, bankroll: real): real {
    match sizing
    case Share(_) => Min(CAP, bankroll)
    case Flat(amount) => Min(amount, bankroll)
  }

  /** A bot is in the ring after its turn exactly when a minimum is set, the ceiling of its sizing allows
    * it, and there is a price; its stake is then between the two. Otherwise nothing of its is moved. */
  lemma BotEntersIff(a: Arena, t: Table, i: nat, side: Side, minStake: real, sizing: Sizing, quote: real)
    requires i < |t.accounts|
    ensures var t' := BotEnters(a, t, i, side, minStake, sizing, quote);
            var ceiling := Ceiling(sizing, Get(t.accounts[i], Token(a, side)));
            && (t'.entries != t.entries <==>
                  0.0 < minStake <= ceiling && At(Quoted(t, side, quote).px, side) > 0.0)
            && (t'.entries == t.entries ==> t'.accounts == t.accounts && t'.out == t.out)
            && (t'.entries != t.entries ==> minStake <= At(t'.out, side) - At(t.out, side) <= ceiling)
  {
    hide Machine.Seated, Usd;
    Fight.CampCases(Army(side));
    var stake := StakeFor(sizing, minStake, Get(t.accounts[i], Token(a, side)));
    var q := Quoted(t, side, quote);
    var px := At(q.px, side);
    if minStake > 0.0 && stake >= minStake {
      SignOfUsd(stake, px);
      if Usd(stake, px) > 0.0 {
        SeatedChanges(t.entries, EntryId(t.accounts[i].id, Army(side)), Army(side), Usd(stake, px) * (1.0 - FEE));
      }
    }
  }

  lemma SignOfUsd(x: real, px: real)
    requires x > 0.0
    ensures Usd(x, px) > 0.0 <==> px > 0.0
  {
  }

  /** A player gets in exactly when there is a price, the cap leaves room for a minimum entry, and the
    * least of the request, the bank and the room left is worth one; and then for exactly that least. */
  lemma PlayerStakeIs(a: Arena, t: Table, wallet: string, c: Camp, request: real, quote: real)
    ensures var e := PlayerEnters(a, t, wallet, c, request, quote);
            var side := Slot(c);
            var k := Known(t, wallet);
            var px := At(Quoted(k, side, quote).px, side);
            var headroom := Max(0.0, CAP - SumR(t.entries, SeatGross(EntryId(wallet, c))));
            var least := Min(Min(Usd(request, px), Purse(a, k, Find(k.accounts, wallet), side, px)), headroom);
            && (e.reply == NoPrice <==> px <= 0.0)
            && (e.reply == AtCap <==> px > 0.0 && headroom < MIN_ENTRY)
            && (e.reply.Entered? <==> px > 0.0 && headroom >= MIN_ENTRY && least >= MIN_ENTRY)
            && (e.reply.Entered? ==> (
                  && e.reply.usd == least
                  && Purse(a, e.table, Find(k.accounts, wallet), side, px)
                     == Purse(a, k, Find(k.accounts, wallet), side, px) - least))
            && (!e.reply.Entered? ==> e.table.accounts == k.accounts && e.table.entries == t.entries)
  {
    hide Machine.Seated, Usd, BankFee, Get, Put, SeatGross;
    var side := Slot(c);
    var k := Known(t, wallet);
    var i := Find(k.accounts, wallet);
    var px := At(Quoted(k, side, quote).px, side);
    if px > 0.0 {
      var headroom := Max(0.0, CAP - SumR(t.entries, SeatGross(EntryId(wallet, c))));
      var bank := Get(k.accounts[i], Token(a, side));
      UsdOfMin(request, bank, px);
      UsdOfMin(Min(request, bank), headroom / px, px);
      UsdOfUnits(headroom, px);
      var stake := Min(Min(request, bank), headroom / px);
      GetPut(k.accounts[i], Token(a, side), bank - stake, Token(a, side));
      UsdAdds(bank - stake, stake, px);
    }
  }

  lemma UsdOfMin(x: real, y: real, px: real)
    requires px > 0.0
    ensures Usd(Min(x, y), px) == Min(Usd(x, px), Usd(y, px))
  {
    UsdOrder(x, y, px);
    UsdOrder(y, x, px);
  }

  // ---- who answers ----

  /** Everybody is asked once, and those with no fighter on that side yet before all the others. */
  lemma FreshFightersFirst(t: Table, bots: seq<nat>, side: Side)
    requires BotsOf(t, bots)
    ensures multiset(Ranks(t, bots, side)) == multiset(bots)
    ensures var r := Ranks(t, bots, side);
            forall k, l :: 0 <= k < l < |r| && Deployed(t.entries, t.accounts[r[k]].id, side)
              ==> Deployed(t.entries, t.accounts[r[l]].id, side)
  {
    hide Deployed, IsBot;
    SiftSplits(t, bots, side);
    SiftIs(t, bots, side, false);
    SiftIs(t, bots, side, true);
  }

  ghost predicate AllStand(t: Table, r: seq<nat>, side: Side, deployed: bool)
    requires forall k :: 0 <= k < |r| ==> r[k] < |t.accounts|
  {
    forall k :: 0 <= k < |r| ==> (deployed <==> Deployed(t.entries, t.accounts[r[k]].id, side))
  }

  lemma {:induction false} SiftIs(t: Table, bots: seq<nat>, side: Side, deployed: bool)
    requires BotsOf(t, bots)
    ensures AllStand(t, Sift(t, bots, side, deployed), side, deployed)
    decreases |bots|
  {
    hide IsBot;
    if bots != [] {
      SiftIs(t, bots[1..], side, deployed);
    }
  }

  lemma {:induction false} SiftSplits(t: Table, bots: seq<nat>, side: Side)
    requires BotsOf(t, bots)
    ensures multiset(Sift(t, bots, side, false)) + multiset(Sift(t, bots, side, true)) == multiset(bots)
    decreases |bots|
  {
    hide Deployed, IsBot;
    if bots != [] {
      SiftSplits(t, bots[1..], side);
      assert bots == [bots[0]] + bots[1..];
    }
  }

  // ---- how much is answered ----

  /** A bot that is short is brought up to what is wanted, or as far towards it as the whole float goes. */
  lemma TopUpReaches(a: Arena, t: Table, i: nat, side: Side, want: real, px: real)
    requires i < |t.accounts| && px > 0.0 && Total(t.pool, Token(a, side)) >= 0.0
    ensures var have := Purse(a, t, i, side, px);
            Purse(a, TopUp(a, t, i, side, want, px), i, side, px)
            == if have < want then Min(want, have + Usd(Total(t.pool, Token(a, side)), px)) else have
  {
    hide DrawBank, Total, Get, Put, Usd;
    var f, who := Token(a, side), t.accounts[i];
    var have := Usd(Get(who, f), px);
    if have < want {
      var ask := (want - have) / px;
      var d := DrawBank(t.pool, f, ask, 1.0);
      DrawIsExact(t.pool, f, ask, 1.0);
      UsdOfUnits(want - have, px);
      UsdOfMin(ask, Total(t.pool, f), px);
      UsdAdds(Get(who, f), d.granted, px);
      GetPut(who, f, Get(who, f) + d.granted, f);
      WholeFloat(Total(t.pool, f), ask);
    }
  }

  /** At a spread of one the share is everything. */
  lemma WholeFloat(total: real, want: real)
    requires total >= 0.0 && want > 0.0
    ensures Grant(total, want, 1.0) == Min(want, total)
  {
  }

  /** What one bot gives, exactly. */
  lemma AnswerOneExact(a: Arena, t: Table, i: nat, foe: Side, want: real, px: real)
    requires i < |t.accounts| && px > 0.0 && Total(t.pool, Token(a, foe)) >= 0.0
    ensures var have := Purse(a, t, i, foe, px);
            var able := Max(have, Min(want, have + Usd(Total(t.pool, Token(a, foe)), px)));
            var give := Min(Min(want, able), CAP);
            AnswerOne(a, t, i, foe, want, px).1 == if give < MIN_ENTRY then 0.0 else give
  {
    hide TopUp, Commit, Total, Usd;
    TopUpReaches(a, t, i, foe, want, px);
    UsdOrder(0.0, Total(t.pool, Token(a, foe)), px);
    UsdZero(px);
  }

  /** Slice sizes the source can draw. */
  ghost predicate FairSlices(slices: nat -> real) {
    forall k :: 0.6 <= slices(k) < 1.4
  }

  /** Each bot of the roster, with the whole float behind it, covers what is needed and a crumb for
    * everybody: a bot that is topped up for less than the minimum keeps the coin and gives nothing. */
  ghost predicate Covered(a: Arena, t: Table, roster: seq<nat>, foe: Side, px: real, need: real) {
    && Total(t.pool, Token(a, foe)) >= 0.0
    && forall k :: 0 <= k < |roster| ==> (
         && roster[k] < |t.accounts| && Purse(a, t, roster[k], foe, px) >= 0.0
         && Purse(a, t, roster[k], foe, px) + Float(a, t, foe, px) >= need + |roster| as real * MIN_ENTRY)
  }

  function Float(a: Arena, t: Table, side: Side, px: real): real { Usd(Total(t.pool, Token(a, side)), px) }

  lemma WantBounds(need: real, spread: nat, idx: nat, slice: real)
    requires need > 0.0 && 0.6 <= slice < 1.4
    ensures 0.0 < Want(need, spread, idx, slice) <= need
    ensures idx + 1 >= spread ==> Want(need, spread, idx, slice) >= 0.6 * need
  {
    var left := if spread > idx then spread - idx else 0;
    var d := if left > 1 then left as real else 1.0;
    var fair := need / d;
    assert fair * d == need;
    PositiveQuotient(fair, d);
    ProductPositive(fair, slice);
    if d == 1.0 {
      AtLeastSixTenths(fair, slice);
    }
  }

  lemma PositiveQuotient(q: real, d: real)
    requires d > 0.0 && q * d > 0.0
    ensures q > 0.0
  {
  }

  lemma ProductPositive(x: real, y: real)
    requires x > 0.0 && y > 0.0
    ensures x * y > 0.0
  {
  }

  lemma AtLeastSixTenths(x: real, slice: real)
    requires x > 0.0 && slice >= 0.6
    ensures x * slice >= 0.6 * x
  {
    assert x * (slice - 0.6) >= 0.0;
  }

  /** What an asked bot and the float behind it have left: a bot that can cover what it is asked for
    * gives exactly that, or nothing when that is below the minimum; the float is down by no more than
    * what was given, or by less than a crumb; and nobody else's purse has changed. */
  lemma CoveredGives(a: Arena, t: Table, i: nat, foe: Side, want: real, px: real)
    requires Proper(a) && i < |t.accounts| && px > 0.0 && 0.0 < want <= CAP
    requires Total(t.pool, Token(a, foe)) >= 0.0 && Purse(a, t, i, foe, px) >= 0.0
    requires want <= Purse(a, t, i, foe, px) + Float(a, t, foe, px)
    ensures var (t', gave) := AnswerOne(a, t, i, foe, want, px);
            && gave == (if want < MIN_ENTRY then 0.0 else want)
            && Total(t'.pool, Token(a, foe)) >= 0.0
            && Float(a, t', foe, px) >= Float(a, t, foe, px) - (if gave > 0.0 then gave else MIN_ENTRY)
            && Purse(a, t', i, foe, px) >= 0.0
            && Purse(a, t', i, foe, px) + Float(a, t', foe, px) == Purse(a, t, i, foe, px) + Float(a, t, foe, px) - gave
            && (forall j :: 0 <= j < |t.accounts| && j != i ==> t'.accounts[j] == t.accounts[j])
            && At(t'.matched, foe) == At(t.matched, foe) + gave
  {
    hide Usd, TopUp, Commit, Total, Get, Put;
    AnswerOneExact(a, t, i, foe, want, px);
    TopUpReaches(a, t, i, foe, want, px);
    TopUpDraws(a, t, i, foe, want, px);
    var u := TopUp(a, t, i, foe, want, px);
    UsdOrder(0.0, Total(t.pool, Token(a, foe)), px);
    UsdOrder(0.0, Total(u.pool, Token(a, foe)), px);
    UsdZero(px);
    if want >= MIN_ENTRY {
      CommitTakes(a, u, i, foe, want, px);
    }
  }

  /** A top-up takes off the float what it adds to the purse. */
  lemma TopUpDraws(a: Arena, t: Table, i: nat, side: Side, want: real, px: real)
    requires Proper(a) && i < |t.accounts| && px > 0.0
    ensures var u := TopUp(a, t, i, side, want, px);
            && Purse(a, u, i, side, px) + Float(a, u, side, px) == Purse(a, t, i, side, px) + Float(a, t, side, px)
            && (forall j :: 0 <= j < |t.accounts| && j != i ==> u.accounts[j] == t.accounts[j])
            && u.matched == t.matched
  {
    hide DrawBank, Total, Get, Put, Usd;
    var f, who := Token(a, side), t.accounts[i];
    var have := Usd(Get(who, f), px);
    if have < want {
      var ask := (want - have) / px;
      var d := DrawBank(t.pool, f, ask, 1.0);
      DrawIsExact(t.pool, f, ask, 1.0);
      GrantNonNeg(Total(t.pool, f), ask, 1.0);
      UsdAdds(Get(who, f), d.granted, px);
      UsdAdds(Total(d.pool, f), d.granted, px);
      UsdZero(px);
      GetPut(who, f, Get(who, f) + d.granted, f);
    }
  }

  /** A committed answer takes its dollars off the purse and leaves the float alone. */
  lemma CommitTakes(a: Arena, t: Table, i: nat, foe: Side, give: real, px: real)
    requires i < |t.accounts| && px > 0.0
    ensures var c := Commit(a, t, i, Army(foe), give / px, give, false);
            && Purse(a, c, i, foe, px) == Purse(a, t, i, foe, px) - give
            && c.pool == t.pool && c.matched == t.matched
            && (forall j :: 0 <= j < |t.accounts| && j != i ==> c.accounts[j] == t.accounts[j])
  {
    hide Usd, Get, Put, BankFee, Machine.Seated;
    Fight.CampCases(Army(foe));
    var f := Token(a, foe);
    GetPut(t.accounts[i], f, Get(t.accounts[i], f) - give / px, f);
    UsdAdds(Get(t.accounts[i], f) - give / px, give / px, px);
    UsdOfUnits(give, px);
  }

  /** A fair part of what is left, for number `idx` of `m` fighters; all of it for the last, and after. */
  function FairPart(need: real, m: nat, idx: nat): real {
    need / (if idx + 1 < m then (m - idx) as real else 1.0)
  }

  function Sliced(x: real, slice: real): real { x * slice }

  /** Over how many fighters an answer goes: all there are, or as many as a swarm has, whichever is fewer, and
    * one at least. Each is asked for its fair part of what is left, give or take two fifths of it. */
  lemma AnswerGoesOverASwarm(a: Arena, n: nat, m: nat, need: real, idx: nat, slice: real)
    requires need > 0.0 && 0.6 <= slice < 1.4
    requires m >= 1 && (m == 1 || (m <= n && m <= a.swarm)) && (m >= n || m >= a.swarm)
    ensures var want, part := Want(need, Spread(a, n), idx, slice), FairPart(need, m, idx);
            && 0.6 * part <= want <= need && want <= 1.4 * part
            && (want == need || want == Sliced(part, slice))
  {
    hide Want, FairPart, Sliced;
    assert Spread(a, n) == m;
    WantIs(need, m, idx, slice);
    PartIsFair(need, m, idx, slice);
  }

  lemma WantIs(need: real, m: nat, idx: nat, slice: real)
    ensures Want(need, m, idx, slice) == Min(need, Sliced(FairPart(need, m, idx), slice))
  {
    if idx + 1 < m {
      assert m > idx && m - idx > 1;
    } else {
      assert !(m > idx && m - idx > 1);
    }
  }

  lemma PartIsFair(need: real, m: nat, idx: nat, slice: real)
    requires need > 0.0 && 0.6 <= slice < 1.4
    ensures var part := FairPart(need, m, idx);
            0.0 < part <= need && 0.6 * part <= Sliced(part, slice) <= 1.4 * part
  {
    FairShare(need, if idx + 1 < m then (m - idx) as real else 1.0, slice);
  }

  lemma FairShare(need: real, left: real, slice: real)
    requires need > 0.0 && 0.6 <= slice < 1.4 && left >= 1.0
    ensures var part := need / left; 0.0 < part <= need && 0.6 * part <= Sliced(part, slice) <= 1.4 * part
  {
    hide Sliced;
    var part := need / left;
    assert part * left == need;
    PositiveQuotient(part, left);
    SliceRange(part, slice);
    NotMoreThan(part, left);
  }

  lemma SliceRange(part: real, slice: real)
    requires part > 0.0 && 0.6 <= slice < 1.4
    ensures 0.6 * part <= Sliced(part, slice) <= 1.4 * part
  {
    assert part * (slice - 0.6) >= 0.0 && part * (1.4 - slice) >= 0.0;
  }

  lemma NotMoreThan(x: real, left: real)
    requires x > 0.0 && left >= 1.0
    ensures x <= x * left
  {
    assert x * (left - 1.0) >= 0.0;
  }

  /** No bot is asked for more than an entry may hold: each share of the need, in turn, is within the cap. */
  ghost predicate SharesFit(need: real, spread: nat, idx: nat, n: nat, slices: nat -> real)
    decreases n
  {
    n > 0 && need > MIN_ENTRY ==>
      var want := Want(need, spread, idx, slices(idx));
      want <= CAP && SharesFit(need - (if want < MIN_ENTRY then 0.0 else want), spread, idx + 1, n - 1, slices)
  }

  /** A need within the cap is within it share by share. */
  lemma {:induction false} SmallNeedsFit(need: real, spread: nat, idx: nat, n: nat, slices: nat -> real)
    requires need <= CAP
    ensures SharesFit(need, spread, idx, n, slices)
    decreases n
  {
    hide Want;
    if n > 0 && need > MIN_ENTRY {
      var want := Want(need, spread, idx, slices(idx));
      WantWithin(need, spread, idx, slices(idx));
      SmallNeedsFit(need - (if want < MIN_ENTRY then 0.0 else want), spread, idx + 1, n - 1, slices);
    }
  }

  /** The house meets real action, however many players it comes from: when every bot it asks could cover
    * the need with the float behind it, each share is within the cap, and slices are as they are drawn,
    * what stays unanswered is at most two fifths of the need, or a crumb. */
  lemma {:induction false} HouseAnswersMost(a: Arena, t: Table, roster: seq<nat>, idx: nat, foe: Side, need: real, spread: nat, px: real, slices: nat -> real)
    requires Proper(a) && 0.0 < need && px > 0.0 && FairSlices(slices) && SharesFit(need, spread, idx, |roster|, slices)
    requires Covered(a, t, roster, foe, px, need) && idx + |roster| >= spread && roster != []
    ensures var t' := Answer(a, t, roster, idx, foe, need, spread, px, slices);
            var rest := need - (At(t'.matched, foe) - At(t.matched, foe));
            0.0 <= rest && (rest <= 0.4 * need || 0.6 * rest <= MIN_ENTRY)
    decreases |roster|
  {
    hide AnswerOne, Usd, Want;
    if need > MIN_ENTRY {
      var want := Want(need, spread, idx, slices(idx));
      WantBounds(need, spread, idx, slices(idx));
      CoveredGives(a, t, roster[0], foe, want, px);
      var (t1, gave) := AnswerOne(a, t, roster[0], foe, want, px);
      StillCovered(a, t, t1, roster, foe, px, need, gave);
      if need - gave <= 0.0 {
        AnswerNothing(a, t1, roster[1..], idx + 1, foe, need - gave, spread, px, slices);
      } else if |roster| > 1 {
        HouseAnswersMost(a, t1, roster[1..], idx + 1, foe, need - gave, spread, px, slices);
      }
    }
  }

  lemma AnswerNothing(a: Arena, t: Table, roster: seq<nat>, idx: nat, foe: Side, need: real, spread: nat, px: real, slices: nat -> real)
    requires need <= MIN_ENTRY && px > 0.0 && forall k :: 0 <= k < |roster| ==> roster[k] < |t.accounts|
    ensures Answer(a, t, roster, idx, foe, need, spread, px, slices) == t
  {
  }

  lemma StillCovered(a: Arena, t: Table, t1: Table, roster: seq<nat>, foe: Side, px: real, need: real, gave: real)
    requires roster != [] && Covered(a, t, roster, foe, px, need) && |t1.accounts| == |t.accounts| && gave >= 0.0
    requires forall j :: 0 <= j < |t.accounts| && j != roster[0] ==> t1.accounts[j] == t.accounts[j]
    requires Total(t1.pool, Token(a, foe)) >= 0.0 && Purse(a, t1, roster[0], foe, px) >= 0.0
    requires Float(a, t1, foe, px) >= Float(a, t, foe, px) - (if gave > 0.0 then gave else MIN_ENTRY)
    requires Purse(a, t1, roster[0], foe, px) + Float(a, t1, foe, px) == Purse(a, t, roster[0], foe, px) + Float(a, t, foe, px) - gave
    ensures Covered(a, t1, roster[1..], foe, px, need - gave)
  {
    hide Usd, Total;
    var rest := roster[1..];
    forall k | 0 <= k < |rest|
      ensures rest[k] < |t1.accounts| && Purse(a, t1, rest[k], foe, px) >= 0.0
      ensures Purse(a, t1, rest[k], foe, px) + Float(a, t1, foe, px) >= need - gave + |rest| as real * MIN_ENTRY
    {
      assert rest[k] == roster[k + 1];
      assert Purse(a, t, roster[k + 1], foe, px) + Float(a, t, foe, px) >= need + |roster| as real * MIN_ENTRY;
      assert |roster| as real == |rest| as real + 1.0;
    }
  }

  /** The same for a whole run of the answer, over any bots in any order. */
  lemma MatchAnswersMost(a: Arena, t: Table, c: Camp, stakeUsd: real, bots: seq<nat>, quote: real, slices: nat -> real)
    requires Proper(a) && BotsOf(t, bots) && bots != [] && FairSlices(slices)
    requires At(Quoted(t, Foe(Slot(c)), quote).px, Foe(Slot(c))) > 0.0
    requires 0.0 < Target(a, stakeUsd) - At(t.matched, Foe(Slot(c)))
    requires SharesFit(Target(a, stakeUsd) - At(t.matched, Foe(Slot(c))), Spread(a, |bots|), 0, |bots|, slices)
    requires Covered(a, t, bots, Foe(Slot(c)), At(Quoted(t, Foe(Slot(c)), quote).px, Foe(Slot(c))),
                     Target(a, stakeUsd) - At(t.matched, Foe(Slot(c))))
    ensures var foe := Foe(Slot(c));
            var need := Target(a, stakeUsd) - At(t.matched, foe);
            var rest := Target(a, stakeUsd) - At(MatchPlayerStake(a, t, c, stakeUsd, bots, quote, slices).matched, foe);
            0.0 <= rest && (rest <= 0.4 * need || 0.6 * rest <= MIN_ENTRY)
  {
    hide Target, IsBot, Answer, Usd, Total, Ranks;
    var foe := Foe(Slot(c));
    var q := Quoted(t, foe, quote);
    var px, need := At(q.px, foe), Target(a, stakeUsd) - At(t.matched, foe);
    var roster := Ranks(q, bots, foe);
    FreshFightersFirst(q, bots, foe);
    CoveredAnyOrder(a, t, q, bots, roster, foe, px, need);
    if need > MIN_ENTRY {
      HouseAnswersMost(a, q, roster, 0, foe, need, Spread(a, |roster|), px, slices);
    }
  }

  lemma CoveredAnyOrder(a: Arena, t: Table, q: Table, bots: seq<nat>, roster: seq<nat>, foe: Side, px: real, need: real)
    requires Covered(a, t, bots, foe, px, need) && multiset(roster) == multiset(bots)
    requires q.accounts == t.accounts && q.pool == t.pool
    ensures Covered(a, q, roster, foe, px, need) && |roster| == |bots|
  {
    hide Usd, Total;
    assert |roster| == |multiset(roster)| == |multiset(bots)| == |bots|;
    forall k | 0 <= k < |roster|
      ensures roster[k] < |q.accounts| && Purse(a, q, roster[k], foe, px) >= 0.0
      ensures Purse(a, q, roster[k], foe, px) + Float(a, q, foe, px) >= need + |roster| as real * MIN_ENTRY
    {
      assert roster[k] in multiset(bots);
      var l :| 0 <= l < |bots| && bots[l] == roster[k];
    }
  }
}
