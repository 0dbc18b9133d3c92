/** What the single moves of the round ledger do: one entry, one top-up, one price. */
module RoundTableBasics {
  import opened Sums
  import opened Accounts
  import opened BotBank
  import opened TwoSideSim
  import opened RoundTable
  import Machine = RoundMachine
  import Fight = TwoSideTheorems

  /** Everything of one coin the ledger has: accounts, pool and treasury. */
  function Held(t: Table, f: Field): real {
    Total(t.accounts, f) + Total(t.pool, f) + Get(t.treasury, f)
  }

  /** Tokens of one side that have left the ledger for the ring and not come back. */
  function InRing(t: Table, side: Side): real {
    At(t.out, side) - At(t.paid, side) - At(t.fee, side)
  }

  function RingOf(a: Arena, t: Table, f: Field): real {
    if f == a.tokA then InRing(t, Bull) else if f == a.tokB then InRing(t, Uwu) else 0.0
  }

  /** No coin was minted or burned between the two tables. */
  ghost predicate Balanced(a: Arena, t: Table, t': Table) {
    forall f :: Held(t', f) + RingOf(a, t', f) == Held(t, f) + RingOf(a, t, f)
  }

  /** No coin was minted, and none burned exactly when `whole`. */
  ghost predicate Accounted(a: Arena, t: Table, t': Table, whole: bool) {
    && (forall f :: Held(t', f) + RingOf(a, t', f) <= Held(t, f) + RingOf(a, t, f))
    && (whole <==> Balanced(a, t, t'))
  }

  lemma AccountedTrans(a: Arena, t: Table, u: Table, v: Table, p: bool, q: bool)
    requires Accounted(a, t, u, p) && Accounted(a, u, v, q)
    ensures Accounted(a, t, v, p && q)
  {
    hide Held, RingOf;
  }

  /** The ring's dollars are the ring's tokens at the frozen price, and a side without a price is empty. */
  ghost predicate Priced(t: Table) {
    forall side :: PricedOn(t, side)
  }

  ghost predicate PricedOn(t: Table, side: Side) {
    && SlotStake(t.entries, side) == Usd(InRing(t, side), At(t.px, side))
    && (At(t.px, side) > 0.0 || (InRing(t, side) == 0.0 && EmptyOn(t.entries, side)))
  }

  /** What was staked in a slot's token: on its side, or on no side. */
  function SlotOn(side: Side): Entry -> real {
    (e: Entry) => if Slot(e.side) == side then e.stake else 0.0
  }

  function SlotStake(entries: seq<Entry>, side: Side): real { SumR(entries, SlotOn(side)) }

  ghost predicate EmptyOn(entries: seq<Entry>, side: Side) {
    forall k :: 0 <= k < |entries| ==> Slot(entries[k].side) != side
  }

  ghost predicate NoBar(id: string) {
    forall i :: 0 <= i < |id| ==> id[i] != '|'
  }

  ghost predicate Owned(accounts: seq<Account>, e: Entry) {
    exists i :: 0 <= i < |accounts| && e.id == EntryId(accounts[i].id, e.side)
  }

  /** Every fighter belongs to an account, one fighter per account and side, each with a stake. */
  ghost predicate Registered(t: Table) {
    && (forall i, j :: 0 <= i < j < |t.accounts| ==> t.accounts[i].id != t.accounts[j].id)
    && (forall i :: 0 <= i < |t.accounts| ==> NoBar(t.accounts[i].id))
    && (forall k :: 0 <= k < |t.entries| ==> Owned(t.accounts, t.entries[k]) && t.entries[k].stake > 0.0)
    && Machine.DistinctSeats(t.entries)
  }

  /** The same accounts, whatever is in them. */
  ghost predicate SameIds(t: Table, u: Table) {
    |u.accounts| == |t.accounts| && forall j :: 0 <= j < |t.accounts| ==> u.accounts[j].id == t.accounts[j].id
  }

  ghost predicate SolventIn(t: Table, f: Field) {
    NonNegative(t.accounts, f) && NonNegative(t.pool, f) && Get(t.treasury, f) >= 0.0
  }

  /** Nobody owes any coin. */
  ghost predicate Solvent(t: Table) {
    forall f :: SolventIn(t, f)
  }

  ghost predicate Capped(t: Table) {
    forall k :: 0 <= k < |t.entries| && !IsBot(t.entries[k].id) ==> Gross(t.entries[k]) <= CAP
  }

  // ---- arithmetic ----

  lemma UsdAdds(x: real, y: real, px: real)
    ensures Usd(x + y, px) == Usd(x, px) + Usd(y, px)
    ensures Usd(x * (1.0 - FEE), px) == Usd(x, px) * (1.0 - FEE)
  {
  }

  lemma UsdOfUnits(usd: real, px: real)
    requires px > 0.0
    ensures Usd(usd / px, px) == usd
    ensures usd > 0.0 ==> usd / px > 0.0
  {
  }

  lemma UsdSign(x: real, px: real)
    requires px > 0.0
    ensures Usd(x, px) > 0.0 <==> x > 0.0
    ensures Usd(x, px) >= 0.0 <==> x >= 0.0
  {
  }

  lemma UsdOrder(x: real, y: real, px: real)
    requires px > 0.0
    ensures Usd(x, px) <= Usd(y, px) <==> x <= y
  {
    UsdAdds(y - x, x, px);
    UsdSign(y - x, px);
  }

  lemma UsdZero(px: real)
    ensures Usd(0.0, px) == 0.0
  {
  }

  // ---- seats ----

  /** Seating a stake changes one entry, or appends one. */
  lemma SeatedSum(entries: seq<Entry>, id: string, c: Camp, stake: real, v: Entry -> real)
    ensures var i := Machine.Seat(entries, id, c);
            var before := if i < |entries| then v(entries[i]) else 0.0;
            var after := v(Entry(id, c, if i < |entries| then entries[i].stake + stake else stake));
            SumR(Machine.Seated(entries, id, c, stake), v) == SumR(entries, v) - before + after
  {
    var i := Machine.Seat(entries, id, c);
    if i < |entries| {
      assert entries[i].(stake := entries[i].stake + stake) == Entry(id, c, entries[i].stake + stake);
      SumUpdateR(entries, i, Entry(id, c, entries[i].stake + stake), v);
    } else {
      SumAppendR(entries, [Entry(id, c, stake)], v);
    }
  }

  lemma SeatedStakes(entries: seq<Entry>, id: string, c: Camp, stake: real, s: Side)
    ensures SlotStake(Machine.Seated(entries, id, c, stake), s) == SlotStake(entries, s) + (if s == Slot(c) then stake else 0.0)
  {
    hide Slot;
    SeatedSum(entries, id, c, stake, SlotOn(s));
  }

  lemma SeatedHumans(entries: seq<Entry>, id: string, c: Camp, stake: real, s: Side)
    ensures SumR(Machine.Seated(entries, id, c, stake), HumanOn(s))
         == SumR(entries, HumanOn(s)) + (if Text(c) == SideName(s) && !IsBot(id) then stake / (1.0 - FEE) else 0.0)
  {
    hide IsBot, Text;
    SeatedSum(entries, id, c, stake, HumanOn(s));
  }

  /** Real money that could be answered as a side's: staked in its token, or printed as it. */
  function ClaimOn(side: Side): Entry -> real {
    (e: Entry) => if Claims(e.side, side) && !IsBot(OwnerOf(e.id)) then Gross(e) else 0.0
  }

  predicate Claims(c: Camp, side: Side) { Slot(c) == side || Text(c) == SideName(side) }

  function ClaimStake(t: Table, side: Side): real { SumR(t.entries, ClaimOn(side)) }

  lemma SeatedClaims(entries: seq<Entry>, id: string, c: Camp, stake: real, s: Side)
    ensures SumR(Machine.Seated(entries, id, c, stake), ClaimOn(s))
         == SumR(entries, ClaimOn(s)) + (if Claims(c, s) && !IsBot(OwnerOf(id)) then stake / (1.0 - FEE) else 0.0)
  {
    hide IsBot, Claims, OwnerOf;
    SeatedSum(entries, id, c, stake, ClaimOn(s));
  }

  // ---- one entry ----

  lemma GetPut(x: Account, f: Field, v: real, g: Field)
    ensures Get(Put(x, f, v), g) == (if g == f then v else Get(x, g)) && Put(x, f, v).id == x.id
  {
  }

  lemma TotalPut(s: seq<Account>, i: nat, f: Field, v: real, g: Field)
    requires i < |s|
    ensures Total(s[i := Put(s[i], f, v)], g) == Total(s, g) + (if g == f then v - Get(s[i], f) else 0.0)
  {
    SumUpdateR(s, i, Put(s[i], f, v), Accounts.Holding(g));
  }

  lemma FeeBanked(treasury: Account, f: Field, tokens: real, g: Field)
    requires tokens >= 0.0
    ensures Get(BankFee(treasury, f, tokens), g) == Get(treasury, g) + (if g == f then tokens else 0.0)
  {
  }

  /** An entry moves coin from an account to the ring and the treasury, and loses none of it. */
  lemma CommitBalanced(a: Arena, t: Table, i: nat, c: Camp, tokens: real, usd: real, human: bool)
    requires i < |t.accounts| && a.tokA != a.tokB && tokens >= 0.0
    ensures Balanced(a, t, Commit(a, t, i, c, tokens, usd, human))
    ensures var t' := Commit(a, t, i, c, tokens, usd, human);
            forall s :: InRing(t', s) == InRing(t, s) + (if s == Slot(c) then tokens * (1.0 - FEE) else 0.0)
  {
    hide Total, Get, Put, BankFee, Machine.Seated;
    var t', f := Commit(a, t, i, c, tokens, usd, human), Token(a, Slot(c));
    forall g
      ensures Held(t', g) == Held(t, g) - (if g == f then tokens * (1.0 - FEE) else 0.0)
    {
      TotalPut(t.accounts, i, f, Get(t.accounts[i], f) - tokens, g);
      FeeBanked(t.treasury, f, tokens * FEE, g);
    }
  }

  /** An entry at the frozen price keeps the ring's dollars and tokens in step. */
  lemma CommitPriced(a: Arena, t: Table, i: nat, c: Camp, tokens: real, usd: real, human: bool)
    requires i < |t.accounts| && a.tokA != a.tokB && tokens >= 0.0
    requires Priced(t) && At(t.px, Slot(c)) > 0.0 && usd == Usd(tokens, At(t.px, Slot(c)))
    ensures Priced(Commit(a, t, i, c, tokens, usd, human))
  {
    hide Usd, SlotStake, Put, Get, BankFee, EmptyOn;
    var side := Slot(c);
    var t' := Commit(a, t, i, c, tokens, usd, human);
    var id, stake := EntryId(t.accounts[i].id, c), usd * (1.0 - FEE);
    CommitBalanced(a, t, i, c, tokens, usd, human);
    forall s
      ensures PricedOn(t', s)
    {
      assert PricedOn(t, s);
      SeatedStakes(t.entries, id, c, stake, s);
      UsdAdds(InRing(t, s), tokens * (1.0 - FEE), At(t.px, s));
      UsdAdds(tokens, 0.0, At(t.px, s));
      if s != side && EmptyOn(t.entries, s) {
        SeatedSides(t.entries, id, c, stake, s);
      }
    }
  }

  lemma SeatedSides(entries: seq<Entry>, id: string, c: Camp, stake: real, s: Side)
    requires s != Slot(c) && EmptyOn(entries, s)
    ensures EmptyOn(Machine.Seated(entries, id, c, stake), s)
  {
  }

  lemma CommitRegistered(a: Arena, t: Table, i: nat, c: Camp, tokens: real, usd: real, human: bool)
    requires i < |t.accounts| && Registered(t) && usd > 0.0
    ensures Registered(Commit(a, t, i, c, tokens, usd, human))
  {
    hide NoBar, EntryId, Get, Put, Machine.DistinctSeats;
    var t' := Commit(a, t, i, c, tokens, usd, human);
    var id := EntryId(t.accounts[i].id, c);
    GetPut(t.accounts[i], Token(a, Slot(c)), Get(t.accounts[i], Token(a, Slot(c))) - tokens, BullCoin);
    Machine.SeatedKeepsSeats(t.entries, id, c, usd * (1.0 - FEE));
    assert forall j :: 0 <= j < |t.accounts| ==> t'.accounts[j].id == t.accounts[j].id;
    forall k | 0 <= k < |t'.entries|
      ensures Owned(t'.accounts, t'.entries[k]) && t'.entries[k].stake > 0.0
    {
      if k < |t.entries| && t'.entries[k].id == t.entries[k].id && t'.entries[k].side == t.entries[k].side {
        assert Owned(t.accounts, t.entries[k]);
        var j :| 0 <= j < |t.accounts| && t.entries[k].id == EntryId(t.accounts[j].id, t.entries[k].side);
        assert t'.entries[k].id == EntryId(t'.accounts[j].id, t'.entries[k].side);
      } else {
        assert t'.entries[k].id == EntryId(t'.accounts[i].id, c);
      }
    }
  }

  lemma CommitSolvent(a: Arena, t: Table, i: nat, c: Camp, tokens: real, usd: real, human: bool)
    requires i < |t.accounts| && Solvent(t) && 0.0 <= tokens <= Get(t.accounts[i], Token(a, Slot(c)))
    ensures Solvent(Commit(a, t, i, c, tokens, usd, human))
  {
    hide Get, Put, BankFee, Machine.Seated;
    var f, t' := Token(a, Slot(c)), Commit(a, t, i, c, tokens, usd, human);
    forall g
      ensures SolventIn(t', g)
    {
      assert SolventIn(t, g);
      GetPut(t.accounts[i], f, Get(t.accounts[i], f) - tokens, g);
      FeeBanked(t.treasury, f, tokens * FEE, g);
    }
  }

  // ---- bots are bots wherever they stand ----

  lemma EntryIdBot(id: string, side: Side)
    ensures IsBot(EntryId(id, Army(side))) <==> IsBot(id)
  {
    var s := EntryId(id, Army(side));
    assert |s| <= |id| + 5 && s[|id|] == '|';
    assert forall i :: 0 <= i < |id| ==> s[i] == id[i];
    if IsBot(id) {
      var i :| 0 <= i <= |id| - 5 && BotMarkAt(id, i);
      assert BotMarkAt(s, i);
    }
    if IsBot(s) {
      var i :| 0 <= i <= |s| - 5 && BotMarkAt(s, i);
      assert BotMarkAt(id, i);
    }
  }

  lemma {:induction false} OwnerIsPrefix(id: string)
    ensures |OwnerOf(id)| <= |id| && forall i :: 0 <= i < |OwnerOf(id)| ==> OwnerOf(id)[i] == id[i]
  {
    if id != [] && id[0] != '|' {
      OwnerIsPrefix(id[1..]);
    }
  }

  lemma BotOwner(id: string)
    requires IsBot(OwnerOf(id))
    ensures IsBot(id)
  {
    OwnerIsPrefix(id);
    var i :| 0 <= i <= |OwnerOf(id)| - 5 && BotMarkAt(OwnerOf(id), i);
    assert BotMarkAt(id, i);
  }

  lemma OwnerOfEntry(id: string, c: Camp)
    requires NoBar(id)
    ensures OwnerOf(EntryId(id, c)) == id
  {
    OwnerBeforeBar(id, Text(c));
  }

  lemma {:induction false} OwnerBeforeBar(id: string, rest: string)
    requires NoBar(id)
    ensures OwnerOf(id + "|" + rest) == id
  {
    var s := id + "|" + rest;
    if id == "" {
      assert s[0] == '|';
    } else {
      assert s[0] == id[0] && s[1..] == id[1..] + "|" + rest;
      OwnerBeforeBar(id[1..], rest);
    }
  }

  lemma EntryIdInjective(x: string, s: Side, y: string, r: Side)
    requires NoBar(x) && NoBar(y) && EntryId(x, Army(s)) == EntryId(y, Army(r))
    ensures x == y && s == r
  {
    OwnerOfEntry(x, Army(s));
    OwnerOfEntry(y, Army(r));
    assert SideName(Bull)[0] == 'b' && SideName(Uwu)[0] == 'u';
    assert EntryId(x, Army(s))[|x| + 1] == SideName(s)[0];
    assert EntryId(y, Army(r))[|y| + 1] == SideName(r)[0];
  }

  ghost predicate AllNamed(entries: seq<Entry>) {
    forall k :: 0 <= k < |entries| ==> entries[k].side.Army?
  }

  /** Where every entry names a side, no two entries share an id: one account, one side, one fighter. */
  lemma NamedEntriesHaveDistinctIds(t: Table)
    requires Registered(t) && AllNamed(t.entries)
    ensures Fight.DistinctIds(t.entries)
  {
    hide EntryId, NoBar;
    forall i, j | 0 <= i < j < |t.entries|
      ensures t.entries[i].id != t.entries[j].id
    {
      assert Owned(t.accounts, t.entries[i]) && Owned(t.accounts, t.entries[j]);
      var k :| 0 <= k < |t.accounts| && t.entries[i].id == EntryId(t.accounts[k].id, t.entries[i].side);
      var l :| 0 <= l < |t.accounts| && t.entries[j].id == EntryId(t.accounts[l].id, t.entries[j].side);
      if t.entries[i].id == t.entries[j].id {
        EntryIdInjective(t.accounts[k].id, t.entries[i].side.side, t.accounts[l].id, t.entries[j].side.side);
      }
    }
  }

  // ---- one top-up ----

  /** A top-up moves coin from the pool to the bot's account and nothing else. */
  lemma TopUpKeeps(a: Arena, t: Table, i: nat, side: Side, want: real, px: real)
    requires i < |t.accounts| && px > 0.0 && a.tokA != a.tokB
    ensures var u := TopUp(a, t, i, side, want, px);
            && Balanced(a, t, u)
            && u == t.(accounts := u.accounts, pool := u.pool) && |u.pool| == |t.pool|
            && (forall j :: 0 <= j < |t.accounts| ==> u.accounts[j].id == t.accounts[j].id)
            && (Solvent(t) ==> Solvent(u))
  {
    hide DrawBank, Total, Get, Put;
    var f, who := Token(a, side), t.accounts[i];
    if Usd(Get(who, f), px) < want {
      var ask := (want - Usd(Get(who, f), px)) / px;
      var d := DrawBank(t.pool, f, ask, 1.0);
      DrawIsExact(t.pool, f, ask, 1.0);
      GrantNonNeg(Total(t.pool, f), ask, 1.0);
      var u := TopUp(a, t, i, side, want, px);
      forall g
        ensures Held(u, g) == Held(t, g)
      {
        TotalPut(t.accounts, i, f, Get(who, f) + d.granted, g);
        if g != f {
          OtherFieldsKept(t.pool, d.pool, f, g);
        }
      }
      TopUpSolvent(t, i, f, d);
    }
  }

  lemma GrantNonNeg(total: real, want: real, spread: real)
    ensures Grant(total, want, spread) >= 0.0
  {
    if total > 0.0 {
      ShareIsAPart(total, spread);
    }
  }

  lemma TopUpSolvent(t: Table, i: nat, f: Field, d: Draw)
    requires i < |t.accounts| && OnlyField(t.pool, d.pool, f) && Shrunk(t.pool, d.pool, f)
    ensures var accounts := if d.granted > 0.0 then t.accounts[i := Put(t.accounts[i], f, Get(t.accounts[i], f) + d.granted)] else t.accounts;
            && SameIds(t, t.(accounts := accounts))
            && (Solvent(t) ==> Solvent(t.(accounts := accounts, pool := d.pool)))
  {
    hide Get, Put;
    GetPut(t.accounts[i], f, Get(t.accounts[i], f) + d.granted, f);
    var u := t.(accounts := if d.granted > 0.0 then t.accounts[i := Put(t.accounts[i], f, Get(t.accounts[i], f) + d.granted)] else t.accounts,
                pool := d.pool);
    if Solvent(t) {
      forall g
        ensures NonNegative(d.pool, g)
      {
        assert SolventIn(t, g);
        forall j | 0 <= j < |t.pool|
          ensures Get(d.pool[j], g) >= 0.0
        {
          GetPut(t.pool[j], f, Get(d.pool[j], f), g);
        }
      }
      forall g
        ensures Get(Put(t.accounts[i], f, Get(t.accounts[i], f) + d.granted), g) == Get(t.accounts[i], g) + (if g == f then d.granted else 0.0)
      {
        GetPut(t.accounts[i], f, Get(t.accounts[i], f) + d.granted, g);
      }
      forall g
        ensures SolventIn(u, g)
      {
        assert SolventIn(t, g);
      }
    }
  }

  lemma SameMoney(t: Table, u: Table)
    requires Solvent(t) && u.accounts == t.accounts && u.pool == t.pool && u.treasury == t.treasury
    ensures Solvent(u)
  {
    forall g
      ensures SolventIn(u, g)
    {
      assert SolventIn(t, g);
    }
  }

  // ---- the population ----

  /** The float grants a bot enough for the minimum stake, so its record is set. */
  ghost predicate Funded(a: Arena, t: Table, side: Side, want: real, spread: real, minStake: real) {
    NewBank(t.pool, Token(a, side), want, spread).granted >= minStake
  }

  /** The name is new, or whoever has it holds nothing. */
  ghost predicate Fresh(t: Table, id: string) {
    Find(t.accounts, id) == |t.accounts| || forall g :: Get(t.accounts[Find(t.accounts, id)], g) <= 0.0
  }

  ghost predicate OneMore(t: Table, u: Table, id: string) {
    Find(t.accounts, id) == |t.accounts| && exists b: Account :: b.id == id && u.accounts == t.accounts + [b]
  }

  /** A bot's birth moves coin from the pool to its account, or out and back. It mints none, and burns some
    * exactly when the bot is made under a name whose holder has something: the old record is gone. */
  lemma BirthKeeps(a: Arena, t: Table, id: string, side: Side, want: real, spread: real, minStake: real)
    requires Solvent(t)
    ensures var u := BotBorn(a, t, id, side, want, spread, minStake);
            && Accounted(a, t, u, Funded(a, t, side, want, spread, minStake) ==> Fresh(t, id))
            && u == t.(accounts := u.accounts, pool := u.pool) && |u.pool| == |t.pool|
            && (SameIds(t, u) || OneMore(t, u, id)) && Solvent(u)
  {
    hide DrawBank, ReturnBank, Total, Get, Put, NewBank, Filed, Solvent;
    var f := Token(a, side);
    var d := NewBank(t.pool, f, want, spread);
    NewBankIsExact(t.pool, f, want, spread);
    SolventPool(t, f, d.pool);
    var u := BotBorn(a, t, id, side, want, spread, minStake);
    assert forall g :: RingOf(a, u, g) == RingOf(a, t, g);
    if d.granted >= minStake {
      var b := Put(Account(id, true, 0.0, 0.0, 0.0), f, d.granted);
      Newborn(id, f, d.granted);
      FiledEffect(t.(pool := d.pool), b);
      forall g
        ensures Held(u, g) == Held(t, g) - Overwritten(t, id, g) && Overwritten(t, id, g) >= 0.0
        ensures Overwritten(t, id, g) == 0.0 <==> (Find(t.accounts, id) == |t.accounts| || Get(t.accounts[Find(t.accounts, id)], g) <= 0.0)
      {
        FiledTotal(t.accounts, b, g);
        PoolTotal(t.pool, d.pool, f, g);
        OverwrittenSign(t, id, g);
      }
      assert Balanced(a, t, u) <==> forall g :: Held(u, g) == Held(t, g);
    } else {
      ReturnFeedsThePoorest(d.pool, f, d.granted);
      PoolOfNothing(t.pool, f, want, spread);
      forall g
        ensures Held(u, g) == Held(t, g)
      {
        PoolTotal(t.pool, d.pool, f, g);
        PoolTotal(d.pool, u.pool, f, g);
      }
      ReturnSolvent(t.(pool := d.pool), f, d.granted);
    }
  }

  /** What the record a name had before holds of a coin. */
  function Overwritten(t: Table, id: string, g: Field): real {
    var i := Find(t.accounts, id);
    if i < |t.accounts| then Get(t.accounts[i], g) else 0.0
  }

  lemma OverwrittenSign(t: Table, id: string, g: Field)
    requires Solvent(t)
    ensures Overwritten(t, id, g) >= 0.0
  {
    assert SolventIn(t, g);
  }

  lemma FiledTotal(accounts: seq<Account>, b: Account, g: Field)
    ensures Total(Filed(accounts, b), g) == Total(accounts, g) + Get(b, g)
         - (if Find(accounts, b.id) < |accounts| then Get(accounts[Find(accounts, b.id)], g) else 0.0)
  {
    hide Get;
    var i := Find(accounts, b.id);
    if i < |accounts| {
      TotalSwap(accounts, i, b, g);
    } else {
      AccountAdded(accounts, b, g);
    }
  }

  lemma FiledEffect(t: Table, b: Account)
    requires Solvent(t) && forall g :: Get(b, g) >= 0.0
    ensures var u := t.(accounts := Filed(t.accounts, b));
            Solvent(u) && (SameIds(t, u) || OneMore(t, u, b.id))
  {
    hide Get;
    var u := t.(accounts := Filed(t.accounts, b));
    forall g
      ensures SolventIn(u, g)
    {
      assert SolventIn(t, g);
    }
  }

  lemma NewBankIsExact(pool: seq<Account>, f: Field, want: real, spread: real)
    ensures var d := NewBank(pool, f, want, spread);
            && d.granted >= 0.0 && Total(d.pool, f) == Total(pool, f) - d.granted
            && OnlyField(pool, d.pool, f) && Shrunk(pool, d.pool, f)
  {
    hide DrawBank, Total, PoolReady;
    DrawIsExact(pool, f, want, spread);
    GrantNonNeg(Total(pool, f), want, spread);
    Untouched(pool, f);
  }

  /** Nothing comes out of an empty pool. */
  lemma PoolOfNothing(pool: seq<Account>, f: Field, want: real, spread: real)
    ensures var d := NewBank(pool, f, want, spread); d.pool == [] ==> d.granted == 0.0
  {
    hide Put, Get;
    NewBankIsExact(pool, f, want, spread);
  }

  lemma Newborn(id: string, f: Field, v: real)
    ensures var b := Put(Account(id, true, 0.0, 0.0, 0.0), f, v);
            b.id == id && forall g :: Get(b, g) == if g == f then v else 0.0
  {
  }

  lemma AccountAdded(s: seq<Account>, b: Account, g: Field)
    ensures Total(s + [b], g) == Total(s, g) + Get(b, g)
  {
    SumAppendR(s, [b], Accounts.Holding(g));
  }

  lemma PoolTotal(s: seq<Account>, r: seq<Account>, f: Field, g: Field)
    requires OnlyField(s, r, f)
    ensures g != f ==> Total(r, g) == Total(s, g)
  {
    if g != f {
      OtherFieldsKept(s, r, f, g);
    }
  }

  lemma SolventPool(t: Table, f: Field, pool: seq<Account>)
    requires OnlyField(t.pool, pool, f) && Shrunk(t.pool, pool, f) && Solvent(t)
    ensures Solvent(t.(pool := pool))
  {
    hide Get, Put;
    forall g, j | 0 <= j < |t.pool|
      ensures Get(pool[j], g) >= 0.0
    {
      assert SolventIn(t, g);
      GetPut(t.pool[j], f, Get(pool[j], f), g);
    }
    forall g
      ensures SolventIn(t.(pool := pool), g)
    {
      assert SolventIn(t, g);
    }
  }

  lemma ReturnSolvent(t: Table, f: Field, amount: real)
    requires Solvent(t)
    ensures Solvent(t.(pool := ReturnBank(t.pool, f, amount)))
  {
    hide ReturnBank, NonNegative;
    forall g
      ensures SolventIn(t.(pool := ReturnBank(t.pool, f, amount)), g)
    {
      assert SolventIn(t, g);
      ReturnNonNegative(t.pool, f, amount, g);
    }
  }

  lemma ReturnNonNegative(pool: seq<Account>, f: Field, amount: real, g: Field)
    requires NonNegative(pool, g)
    ensures NonNegative(ReturnBank(pool, f, amount), g)
  {
    hide Get, Put;
    if amount > 0.0 && pool != [] {
      var r := Poorest(pool, f, 0, 0);
      GetPut(pool[r], f, Get(pool[r], f) + amount, g);
    }
  }

  /** Levelling moves what is above the ceiling from the account to the pool and leaves it the ceiling. */
  lemma LevelledEffect(pool: seq<Account>, who: Account, f: Field, ceilingUsd: real, px: real, g: Field)
    requires ceilingUsd >= 0.0
    ensures var (pool', who') := Levelled(pool, who, f, ceilingUsd, px);
            && |pool'| == |pool| && who'.id == who.id
            && Total(pool', g) + Get(who', g) == Total(pool, g) + Get(who, g)
            && (NonNegative(pool, g) ==> NonNegative(pool', g)) && (Get(who, g) >= 0.0 ==> Get(who', g) >= 0.0)
            && (who' != who ==> Usd(Get(who', f), px) == ceilingUsd)
  {
    hide ReturnBank, Total, Get, Put, Usd, NonNegative;
    if PoolReady(pool) && px > 0.0 && Usd(Get(who, f), px) > ceilingUsd {
      var skim := (Usd(Get(who, f), px) - ceilingUsd) / px;
      UsdOfUnits(Usd(Get(who, f), px) - ceilingUsd, px);
      UsdAdds(Get(who, f) - skim, skim, px);
      UsdSign(Get(who, f) - skim, px);
      ReturnFeedsThePoorest(pool, f, skim);
      PoolTotal(pool, ReturnBank(pool, f, skim), f, g);
      if NonNegative(pool, g) {
        ReturnNonNegative(pool, f, skim, g);
      }
      GetPut(who, f, Get(who, f) - skim, g);
      GetPut(who, f, Get(who, f) - skim, f);
    }
  }

  /** A bot is levelled. */
  lemma LevelKeeps(a: Arena, t: Table, i: nat, f: Field, ceilingUsd: real, px: real)
    requires i < |t.accounts| && ceilingUsd >= 0.0
    ensures var u := BotLevelled(t, i, f, ceilingUsd, px);
            && Balanced(a, t, u) && u == t.(accounts := u.accounts, pool := u.pool) && |u.pool| == |t.pool|
            && SameIds(t, u) && (Solvent(t) ==> Solvent(u))
            && (u.accounts[i] != t.accounts[i] ==> Usd(Get(u.accounts[i], f), px) == ceilingUsd)
  {
    hide Levelled, Total, Get, Usd;
    var u := BotLevelled(t, i, f, ceilingUsd, px);
    LevelledEffect(t.pool, t.accounts[i], f, ceilingUsd, px, f);
    forall g
      ensures Held(u, g) == Held(t, g) && RingOf(a, u, g) == RingOf(a, t, g)
      ensures SolventIn(t, g) ==> SolventIn(u, g)
    {
      LevelledEffect(t.pool, t.accounts[i], f, ceilingUsd, px, g);
      TotalSwap(t.accounts, i, u.accounts[i], g);
    }
  }

  /** The treasury's fees above the ceiling go to the pool. */
  lemma TreasuryLevelKeeps(a: Arena, t: Table, f: Field, ceilingUsd: real, px: real)
    requires ceilingUsd >= 0.0
    ensures var u := TreasuryLevelled(t, f, ceilingUsd, px);
            && Balanced(a, t, u) && u == t.(treasury := u.treasury, pool := u.pool) && |u.pool| == |t.pool|
            && (Solvent(t) ==> Solvent(u))
            && (u.treasury != t.treasury ==> Usd(Get(u.treasury, f), px) == ceilingUsd)
  {
    hide Levelled, Total, Get, Usd;
    var u := TreasuryLevelled(t, f, ceilingUsd, px);
    LevelledEffect(t.pool, t.treasury, f, ceilingUsd, px, f);
    forall g
      ensures Held(u, g) == Held(t, g) && RingOf(a, u, g) == RingOf(a, t, g)
      ensures SolventIn(t, g) ==> SolventIn(u, g)
    {
      LevelledEffect(t.pool, t.treasury, f, ceilingUsd, px, g);
    }
  }

  /** Where what a bot holds can go to when it is retired: there is a pool account, or it holds nothing. */
  ghost predicate Backed(t: Table, i: nat)
    requires i < |t.accounts|
  {
    t.pool != [] || forall g :: Get(t.accounts[i], g) <= 0.0
  }

  /** Retiring a bot mints nothing, and burns what it holds exactly when that has nowhere to go. */
  lemma RetireKeeps(a: Arena, t: Table, i: nat)
    requires i < |t.accounts|
    ensures var u := BotRetired(t, i);
            && Accounted(a, t, u, Backed(t, i)) && u == t.(accounts := u.accounts, pool := u.pool)
            && SameIds(t, u) && |u.pool| == |t.pool|
            && (Solvent(t) ==> Solvent(u))
  {
    hide Retire, Total, Get;
    var who, u := t.accounts[i], BotRetired(t, i);
    RetireConservesIff(t.pool, who);
    RetireEffect(t.pool, who, BullCoin);
    RetireSolvent(t, i);
    forall g
      ensures Held(u, g) - Held(t, g) == Total(u.pool, g) + Get(u.accounts[i], g) - Total(t.pool, g) - Get(who, g)
      ensures Held(u, g) <= Held(t, g)
    {
      RetireEffect(t.pool, who, g);
      TotalSwap(t.accounts, i, u.accounts[i], g);
    }
    assert forall g :: RingOf(a, u, g) == RingOf(a, t, g);
    assert Balanced(a, t, u) <==> forall g :: Held(u, g) == Held(t, g);
  }

  lemma RetireSolvent(t: Table, i: nat)
    requires i < |t.accounts|
    ensures BotRetired(t, i).accounts[i].id == t.accounts[i].id
    ensures Solvent(t) ==> Solvent(BotRetired(t, i))
  {
    hide HandBack;
    var who := t.accounts[i];
    var (p1, w1) := HandBack(t.pool, who, BullCoin);
    var (p2, w2) := HandBack(p1, w1, UwuCoin);
    HandBackNonNegative(t.pool, who, BullCoin);
    HandBackNonNegative(p1, w1, UwuCoin);
    HandBackNonNegative(p2, w2, SolCoin);
    forall g
      ensures SolventIn(t, g) ==> SolventIn(BotRetired(t, i), g)
    {
    }
  }

  lemma HandBackNonNegative(pool: seq<Account>, who: Account, f: Field)
    ensures var (pool', who') := HandBack(pool, who, f);
            && who'.id == who.id
            && forall g :: (NonNegative(pool, g) ==> NonNegative(pool', g)) && (Get(who, g) >= 0.0 ==> Get(who', g) >= 0.0)
  {
    hide Poorest;
  }

  // ---- a price ----

  /** Asking for a price changes no money, and only ever the price of a side nobody is on. */
  lemma QuotedKeeps(a: Arena, t: Table, side: Side, quote: real)
    requires Priced(t)
    ensures var q := Quoted(t, side, quote);
            && Priced(q) && Balanced(a, t, q) && q == t.(px := q.px)
            && (forall s :: At(t.px, s) > 0.0 ==> At(q.px, s) == At(t.px, s))
  {
    hide Usd, SlotStake, EmptyOn;
    var q := Quoted(t, side, quote);
    forall s
      ensures PricedOn(q, s)
    {
      assert PricedOn(t, s);
      UsdZero(At(t.px, s));
      UsdZero(At(q.px, s));
    }
  }
}
