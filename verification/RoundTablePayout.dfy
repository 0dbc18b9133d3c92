/** Who is paid: settlement, account by account. */
module RoundTablePayout {
  import opened Basics
  import opened Sums
  import opened Accounts
  import opened TwoSideSim
  import opened RoundTable
  import opened RoundTableBasics
  import opened RoundTableTheorems
  import Fight = TwoSideTheorems

  /** One row's payout in a token, for the rows of one owner. */
  function RowOf(record: map<string, Payout>, side: Side, owner: string): string -> real {
    (key: string) => if OwnerOf(key) == owner then RowIn(record, side)(key) else 0.0
  }

  /** What an owner's rows come to in a token, at a price. */
  function DueTo(record: map<string, Payout>, keys: seq<string>, side: Side, owner: string, px: real): real {
    Units(SumR(keys, RowOf(record, side, owner)), px)
  }

  /** `x` after it is paid both coins: nothing else of it changes. */
  ghost predicate PaidTo(a: Arena, x: Account, x': Account, due: Pair) {
    && x'.id == x.id && x'.isBot == x.isBot
    && (forall f :: Get(x', f) == Get(x, f) + (if f == a.tokA then due.bull else if f == a.tokB then due.uwu else 0.0))
  }

  /** The first account of its id is the one that id's rows go to. */
  ghost predicate Receives(accounts: seq<Account>, i: nat) {
    i < |accounts| && forall j :: 0 <= j < i ==> accounts[j].id != accounts[i].id
  }

  lemma {:induction false} FindIsFirst(accounts: seq<Account>, id: string, i: nat)
    requires i < |accounts|
    ensures Find(accounts, id) == i <==> accounts[i].id == id && Receives(accounts, i)
  {
    var k := Find(accounts, id);
    if accounts[i].id == id && Receives(accounts, i) {
      assert k <= i by {
        FindAtMost(accounts, id, i);
      }
    }
  }

  lemma {:induction false} FindAtMost(accounts: seq<Account>, id: string, i: nat)
    requires i < |accounts| && accounts[i].id == id
    ensures Find(accounts, id) <= i
  {
    if i > 0 && accounts[0].id != id {
      FindAtMost(accounts[1..], id, i - 1);
    }
  }

  lemma CreditedIsPaid(a: Arena, who: Account, retA: real, retB: real)
    requires Proper(a)
    ensures PaidTo(a, who, Credited(a, who, retA, retB), Pair(retA, retB))
  {
  }

  lemma PaidNothing(a: Arena, x: Account)
    ensures PaidTo(a, x, x, ZERO)
  {
  }

  lemma PaidTwice(a: Arena, x: Account, y: Account, z: Account, p: Pair, q: Pair)
    requires PaidTo(a, x, y, p) && PaidTo(a, y, z, q)
    ensures PaidTo(a, x, z, Pair(p.bull + q.bull, p.uwu + q.uwu))
  {
    hide Get;
  }

  /** One row goes to the first account of the row's owner, and to nobody else. */
  lemma RowGoesToItsOwner(a: Arena, t: Table, key: string, bal: Payout, quotes: Pair, px: Pair, i: nat)
    requires Proper(a) && i < |t.accounts|
    requires forall s :: At(px, s) > 0.0 ==> At(t.px, s) == At(px, s)
    requires (px.bull > 0.0 || bal.bull == 0.0) && (px.uwu > 0.0 || bal.uwu == 0.0)
    ensures var t' := PayRow(a, t, key, bal, quotes);
            && |t'.accounts| == |t.accounts|
            && PaidTo(a, t.accounts[i], t'.accounts[i],
                 if OwnerOf(key) == t.accounts[i].id && Receives(t.accounts, i)
                 then Pair(Units(bal.bull, px.bull), Units(bal.uwu, px.uwu)) else ZERO)
  {
    hide Units, Get, Put, Quoted, Find, OwnerOf, PaidTo, Receives;
    FindIsFirst(t.accounts, OwnerOf(key), i);
    PaidNothing(a, t.accounts[i]);
    QuotedBoth(t, quotes, px);
    var q := Quoted(Quoted(t, Bull, quotes.bull), Uwu, quotes.uwu);
    SameUnits(bal.bull, q.px.bull, px.bull);
    SameUnits(bal.uwu, q.px.uwu, px.uwu);
    CreditedIsPaid(a, t.accounts[i], Units(bal.bull, px.bull), Units(bal.uwu, px.uwu));
  }

  lemma DueOneMore(record: map<string, Payout>, keys: seq<string>, key: string, side: Side, owner: string, px: real)
    ensures DueTo(record, keys + [key], side, owner, px)
         == DueTo(record, keys, side, owner, px) + (if OwnerOf(key) == owner then Units(RowIn(record, side)(key), px) else 0.0)
  {
    hide Units, RowIn, OwnerOf;
    var v := RowOf(record, side, owner);
    SumAppendR(keys, [key], v);
    SumOfOne(key, v);
    UnitsAdd(SumR(keys, v), v(key), px);
  }

  ghost predicate Priceable(t: Table, record: map<string, Payout>, key: string) {
    key in record && forall side :: At(t.px, side) > 0.0 || RowIn(record, side)(key) == 0.0
  }

  /** Who is paid what: an account is up, in each of the two coins, by exactly the units of the rows that its
    * id owns, if it is the first of its id, and not at all otherwise; and nothing else of it changes. Rows
    * of an id that is not in the ledger are paid to nobody. */
  lemma {:induction false} PaysTheOwners(a: Arena, t: Table, record: map<string, Payout>, keys: seq<string>, quotes: nat -> Pair, i: nat)
    requires Proper(a) && i < |t.accounts|
    requires forall k :: 0 <= k < |keys| ==> keys[k] in record && Priceable(t, record, keys[k])
    ensures var t', id := PayAll(a, t, record, keys, quotes), t.accounts[i].id;
            && |t'.accounts| == |t.accounts| && (forall j :: 0 <= j < |t.accounts| ==> t'.accounts[j].id == t.accounts[j].id)
            && (forall s :: At(t.px, s) > 0.0 ==> At(t'.px, s) == At(t.px, s))
            && PaidTo(a, t.accounts[i], t'.accounts[i],
                 if Receives(t.accounts, i)
                 then Pair(DueTo(record, keys, Bull, id, t.px.bull), DueTo(record, keys, Uwu, id, t.px.uwu)) else ZERO)
    decreases |keys|
  {
    hide PayRow, PaidTo, Receives, OwnerOf, DueTo, RowIn;
    var id := t.accounts[i].id;
    if keys == [] {
      PaidNothing(a, t.accounts[i]);
      NothingDue(record, Bull, id, t.px.bull);
      NothingDue(record, Uwu, id, t.px.uwu);
    } else {
      var n := |keys| - 1;
      var init, key := keys[..n], keys[n];
      assert init + [key] == keys;
      PaysTheOwners(a, t, record, init, quotes, i);
      var u := PayAll(a, t, record, init, quotes);
      assert Priceable(t, record, key);
      RowsPriced(t, record, key);
      RowGoesToItsOwner(a, u, key, record[key], quotes(n), t.px, i);
      PayRowKeepsIds(a, u, key, record[key], quotes(n), t.px);
      SameReceiver(t.accounts, u.accounts, i);
      DueOneMore(record, init, key, Bull, id, t.px.bull);
      DueOneMore(record, init, key, Uwu, id, t.px.uwu);
      var before := if Receives(t.accounts, i)
        then Pair(DueTo(record, init, Bull, id, t.px.bull), DueTo(record, init, Uwu, id, t.px.uwu)) else ZERO;
      var more := if OwnerOf(key) == id && Receives(t.accounts, i)
        then Pair(Units(record[key].bull, t.px.bull), Units(record[key].uwu, t.px.uwu)) else ZERO;
      PaidTwice(a, t.accounts[i], u.accounts[i], PayRow(a, u, key, record[key], quotes(n)).accounts[i], before, more);
    }
  }

  lemma RowsPriced(t: Table, record: map<string, Payout>, key: string)
    requires Priceable(t, record, key)
    ensures RowIn(record, Bull)(key) == record[key].bull && RowIn(record, Uwu)(key) == record[key].uwu
    ensures (t.px.bull > 0.0 || record[key].bull == 0.0) && (t.px.uwu > 0.0 || record[key].uwu == 0.0)
  {
    assert At(t.px, Bull) == t.px.bull && At(t.px, Uwu) == t.px.uwu;
  }

  lemma NothingDue(record: map<string, Payout>, side: Side, owner: string, px: real)
    ensures DueTo(record, [], side, owner, px) == 0.0
  {
    hide Units;
    UnitsAdd(0.0, 0.0, px);
  }

  lemma SameReceiver(x: seq<Account>, y: seq<Account>, i: nat)
    requires |y| == |x| && forall j :: 0 <= j < |x| ==> y[j].id == x[j].id
    ensures Receives(x, i) <==> Receives(y, i)
  {
  }

  lemma PayRowKeepsIds(a: Arena, t: Table, key: string, bal: Payout, quotes: Pair, px: Pair)
    requires Proper(a) && forall s :: At(px, s) > 0.0 ==> At(t.px, s) == At(px, s)
    ensures var t' := PayRow(a, t, key, bal, quotes);
            && |t'.accounts| == |t.accounts| && (forall j :: 0 <= j < |t.accounts| ==> t'.accounts[j].id == t.accounts[j].id)
            && (forall s :: At(px, s) > 0.0 ==> At(t'.px, s) == At(px, s))
  {
    hide Units, Get, Quoted, Find, OwnerOf;
    QuotedBoth(t, quotes, px);
  }

  // ---- from the fighters ----

  /** What a fighter is paid in a token, if it is this wallet's. */
  function OwnPayout(side: Side, owner: string): Fighter -> real {
    (f: Fighter) => if OwnerOf(f.id) == owner then PayoutIn(side)(f) else 0.0
  }

  /** The rows of a wallet are its fighters' payouts, where no two fighters share an id. */
  lemma {:induction false} RowsAreTheirFighters(F: seq<Fighter>, keys: seq<string>, side: Side, owner: string)
    requires Lists(keys, Settlement(F)) && forall i, j :: 0 <= i < j < |F| ==> F[i].id != F[j].id
    ensures SumR(keys, RowOf(Settlement(F), side, owner)) == SumR(F, OwnPayout(side, owner))
    decreases |F|
  {
    hide PayoutIn, RowIn, Settlement, OwnerOf;
    if F == [] {
      EmptyRecord();
      FirstIsListed(keys, Settlement(F));
    } else {
      var n := |F| - 1;
      var init, f := F[..n], F[n];
      var record, before := Settlement(F), Settlement(init);
      RowOfLast(F, side);
      SumSnocR(F, n, OwnPayout(side, owner));
      assert F[..n + 1] == F;
      var i :| 0 <= i < |keys| && keys[i] == f.id;
      var rest := keys[..i] + keys[i + 1..];
      SumWithout(keys, i, RowOf(record, side, owner));
      NotThere(F, keys, i);
      SameRows(F, rest, side, owner);
      WithoutRow(keys, record, before, f.id, i);
      RowsAreTheirFighters(init, rest, side, owner);
    }
  }

  lemma FirstIsListed(keys: seq<string>, record: map<string, Payout>)
    requires Lists(keys, record)
    ensures keys != [] ==> keys[0] in record
  {
  }

  lemma SameRows(F: seq<Fighter>, rest: seq<string>, side: Side, owner: string)
    requires F != [] && forall k :: 0 <= k < |rest| ==> rest[k] != F[|F| - 1].id
    ensures SumR(rest, RowOf(Settlement(F), side, owner)) == SumR(rest, RowOf(Settlement(F[..|F| - 1]), side, owner))
  {
    hide PayoutIn, RowIn, Settlement, OwnerOf;
    RowOfLast(F, side);
    SumSameR(rest, rest, RowOf(Settlement(F), side, owner), RowOf(Settlement(F[..|F| - 1]), side, owner));
  }

  lemma NotThere(F: seq<Fighter>, keys: seq<string>, i: nat)
    requires F != [] && forall k, l :: 0 <= k < l < |F| ==> F[k].id != F[l].id
    requires Lists(keys, Settlement(F)) && i < |keys| && keys[i] == F[|F| - 1].id
    ensures F[|F| - 1].id !in Settlement(F[..|F| - 1])
    ensures var rest := keys[..i] + keys[i + 1..]; forall k :: 0 <= k < |rest| ==> rest[k] != F[|F| - 1].id
  {
    hide Settlement;
    if F[|F| - 1].id in Settlement(F[..|F| - 1]) {
      SharedId(F);
    }
    OthersRemain(keys, i);
  }

  /** End to end: after any lobby in which every accepted entry named a side, any fight, and the record paid
    * out in any order, every account is up by exactly the units, at the frozen price, of what its own
    * fighters are owed in each token -- and nobody's account changes in any other way. */
  lemma EverybodyIsPaidTheirOwn(a: Arena, t0: Table, steps: seq<Step>, cfg: Config, phys: Physics, keys: seq<string>, quotes: nat -> Pair, i: nat)
    requires Proper(a) && Opening(a, t0) && cfg.matchTol >= 0.0 && AllName(a, t0, steps)
    requires Lists(keys, Settlement(Fought(Run(a, t0, steps), cfg, phys))) && i < |Run(a, t0, steps).accounts|
    ensures var t := Run(a, t0, steps);
            var F := Fought(t, cfg, phys);
            var t', id := PayAll(a, t, Settlement(F), keys, quotes), t.accounts[i].id;
            && |t'.accounts| == |t.accounts|
            && PaidTo(a, t.accounts[i], t'.accounts[i],
                 Pair(Units(SumR(F, OwnPayout(Bull, id)), t.px.bull), Units(SumR(F, OwnPayout(Uwu, id)), t.px.uwu)))
  {
    hide Run, Fought, PayAll, Settlement, Lists, Settles, AllName, AllNamed, Fight.DistinctIds, Solvent, Capped, Priced, PaidTo,
         RowIn, PayoutIn, Answered, Accounted, AllBacked, AllFresh, InRatio, OwnPayout, RowOf, NoBar, Owned;
    var t := Run(a, t0, steps);
    var F := Fought(t, cfg, phys);
    EveryLobbyKeeps(a, t0, steps);
    FightSettles(a, t, cfg, phys);
    RowsPayable(a, t, F, keys);
    NamedEntriesHaveDistinctIds(t);
    DistinctFighters(t, F);
    forall k | 0 <= k < |keys|
      ensures keys[k] in Settlement(F) && Priceable(t, Settlement(F), keys[k])
    {
    }
    PaysTheOwners(a, t, Settlement(F), keys, quotes, i);
    RowsAreTheirFighters(F, keys, Bull, t.accounts[i].id);
    RowsAreTheirFighters(F, keys, Uwu, t.accounts[i].id);
    assert Receives(t.accounts, i);
  }
}
