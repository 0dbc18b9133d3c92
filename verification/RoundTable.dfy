/** The money around one two-team round: entries debit the ledger at a price frozen for the round, the
  * house answers player stakes from its float, and settlement credits the payouts back. */
module RoundTable {
  import opened Basics
  import opened Sums
  import opened Accounts
  import opened BotBank
  import opened TwoSideSim
  import Seats = RoundMachine

  const FEE: real := 0.002
  const CAP: real := 100.0
  const MIN_ENTRY: real := 0.01

  /** The tokens of the two slots, how much of a player's stake the house answers, and over how many
    * fighters. */
  datatype Arena = Arena(tokA: Field, tokB: Field, matchRatio: real, swarm: nat)

  /** One number per side, and so, the two slots' tokens being different, per token. */
  datatype Pair = Pair(bull: real, uwu: real)

  const ZERO := Pair(0.0, 0.0)

  function At(p: Pair, side: Side): real { if side == Bull then p.bull else p.uwu }

  function With(p: Pair, side: Side, v: real): Pair { if side == Bull then p.(bull := v) else p.(uwu := v) }

  /** `px` is the round's frozen prices (0 until quoted); `out`, `paid` and `fee` are the round's flow. */
  datatype Table = Table(
    accounts: seq<Account>, pool: seq<Account>, treasury: Account,
    px: Pair, out: Pair, paid: Pair, fee: Pair, entries: seq<Entry>, matched: Pair)

  function Token(a: Arena, side: Side): Field { if side == Bull then a.tokA else a.tokB }

  /** The id an entry is stored under: the wallet, a bar, and the side as it prints. */
  function EntryId(id: string, c: Camp): string { id + "|" + Text(c) }

  predicate IsBot(id: string) { exists i :: 0 <= i <= |id| - 5 && BotMarkAt(id, i) }

  predicate BotMarkAt(id: string, i: nat)
    requires i + 5 <= |id|
  {
    id[i] == ':' && id[i + 1] == 'b' && id[i + 2] == 'o' && id[i + 3] == 't' && id[i + 4] == ':'
  }

  function Usd(tokens: real, px: real): real { tokens * px }

  /** Tokens for dollars; nothing while there is no price. */
  function Units(usd: real, px: real): real { if px > 0.0 then usd / px else 0.0 }

  /** A price is asked for until one is positive, and then stays for the round. */
  function Quoted(t: Table, side: Side, quote: real): Table {
    if At(t.px, side) > 0.0 then t else t.(px := With(t.px, side, quote))
  }

  function BankFee(treasury: Account, f: Field, tokens: real): Account {
    if !(tokens > 0.0) then treasury else Put(treasury, f, Get(treasury, f) + tokens)
  }

  /** What every entry does to the books: debit the token, bank the fee, and put the rest in the ring. A
    * player's fee is recorded as kept; a bot's is recorded as paid back to the house. */
  function Commit(a: Arena, t: Table, i: nat, c: Camp, tokens: real, usd: real, human: bool): (r: Table)
    requires i < |t.accounts|
    ensures |r.accounts| == |t.accounts|
  {
    var side := Slot(c);
    var f, who, feeTok := Token(a, side), t.accounts[i], tokens * FEE;
    t.(accounts := t.accounts[i := Put(who, f, Get(who, f) - tokens)],
       treasury := BankFee(t.treasury, f, feeTok),
       out := With(t.out, side, At(t.out, side) + tokens),
       fee := if human then With(t.fee, side, At(t.fee, side) + feeTok) else t.fee,
       paid := if human then t.paid else With(t.paid, side, At(t.paid, side) + feeTok),
       entries := Seats.Seated(t.entries, EntryId(who.id, c), c, usd * (1.0 - FEE)))
  }

  // ---- a bot enters on its own account ----

  /** How a bot's stake is sized: a share of its bank within the minimum and the cap, or, where the
    * operator sets a largest stake in tokens, an amount between the minimum and that. */
  datatype Sizing = Share(ask: real) | Flat(amount: real)

  function StakeFor(sizing: Sizing, minStake: real, bankroll: real): real {
    match sizing
    case Share(ask) => Min(Min(Max(minStake, ask), CAP), bankroll)
    case Flat(amount) => Min(amount, bankroll)
  }

  function BotEnters(a: Arena, t: Table, i: nat, side: Side, minStake: real, sizing: Sizing, quote: real): Table
    requires i < |t.accounts|
  {
    var stake := StakeFor(sizing, minStake, Get(t.accounts[i], Token(a, side)));
    if !(minStake > 0.0) || stake < minStake then t else
    var q := Quoted(t, side, quote);
    var usd := Usd(stake, At(q.px, side));
    if !(usd > 0.0) then q else Commit(a, q, i, Army(side), stake, usd, false)
  }

  // ---- the house answers ----

  predicate Deployed(entries: seq<Entry>, id: string, side: Side) {
    exists k :: 0 <= k < |entries| && entries[k].id == EntryId(id, Army(side))
  }

  ghost predicate BotsOf(t: Table, bots: seq<nat>) {
    forall k :: 0 <= k < |bots| ==> bots[k] < |t.accounts| && IsBot(t.accounts[bots[k]].id)
  }

  /** Those of `bots` that are, or are not, in the ring on that side already. */
  function Sift(t: Table, bots: seq<nat>, side: Side, deployed: bool): (r: seq<nat>)
    requires BotsOf(t, bots)
    ensures BotsOf(t, r)
    decreases |bots|
  {
    if bots == [] then []
    else if Deployed(t.entries, t.accounts[bots[0]].id, side) == deployed then
      [bots[0]] + Sift(t, bots[1..], side, deployed)
    else Sift(t, bots[1..], side, deployed)
  }

  /** Bots with no fighter on that side come first. */
  function Ranks(t: Table, bots: seq<nat>, side: Side): (r: seq<nat>)
    requires BotsOf(t, bots)
    ensures BotsOf(t, r)
  {
    Sift(t, bots, side, false) + Sift(t, bots, side, true)
  }

  /** A bot that is short is topped up from the whole float. */
  function TopUp(a: Arena, t: Table, i: nat, side: Side, want: real, px: real): (r: Table)
    requires i < |t.accounts| && px > 0.0
    ensures |r.accounts| == |t.accounts|
  {
    var f, who := Token(a, side), t.accounts[i];
    var have := Usd(Get(who, f), px);
    if have < want then
      var d := DrawBank(t.pool, f, (want - have) / px, 1.0);
      t.(pool := d.pool,
         accounts := if d.granted > 0.0 then t.accounts[i := Put(who, f, Get(who, f) + d.granted)] else t.accounts)
    else t
  }

  function Give(a: Arena, t: Table, i: nat, side: Side, want: real, px: real): real
    requires i < |t.accounts|
  {
    Min(Min(want, Usd(Get(t.accounts[i], Token(a, side)), px)), CAP)
  }

  /** One bot's part of the answer; the result's second part is what it gave. */
  function AnswerOne(a: Arena, t: Table, i: nat, foe: Side, want: real, px: real): (r: (Table, real))
    requires i < |t.accounts| && px > 0.0
    ensures |r.0.accounts| == |t.accounts|
  {
    var u := TopUp(a, t, i, foe, want, px);
    var give := Give(a, u, i, foe, want, px);
    if give < MIN_ENTRY then (u, 0.0) else
    var c := Commit(a, u, i, Army(foe), give / px, give, false);
    (c.(matched := With(c.matched, foe, At(c.matched, foe) + give)), give)
  }

  /** What bot number `idx` of the answer is asked for: an uneven slice of a fair share of the rest. */
  function Want(need: real, spread: nat, idx: nat, slice: real): real {
    var left := if spread > idx then spread - idx else 0;
    var fair := need / (if left > 1 then left as real else 1.0);
    Min(need, fair * slice)
  }

  function Answer(a: Arena, t: Table, roster: seq<nat>, idx: nat, foe: Side, need: real, spread: nat, px: real, slices: nat -> real): (r: Table)
    requires px > 0.0 && forall k :: 0 <= k < |roster| ==> roster[k] < |t.accounts|
    ensures |r.accounts| == |t.accounts|
    decreases |roster|
  {
    if roster == [] || need <= MIN_ENTRY then t else
    var (t', gave) := AnswerOne(a, t, roster[0], foe, Want(need, spread, idx, slices(idx)), px);
    Answer(a, t', roster[1..], idx + 1, foe, need - gave, spread, px, slices)
  }

  function Spread(a: Arena, n: nat): nat {
    var m := if n < a.swarm then n else a.swarm;
    if m > 1 then m else 1
  }

  /** How much of the house's money a stake is to be met with. */
  function Target(a: Arena, stakeUsd: real): real { stakeUsd * a.matchRatio }

  /** Whatever is not the first side is answered as if it were the second. */
  function MatchPlayerStake(a: Arena, t: Table, c: Camp, stakeUsd: real, bots: seq<nat>, quote: real, slices: nat -> real): Table
    requires BotsOf(t, bots)
  {
    var foe := Foe(Slot(c));
    var q := Quoted(t, foe, quote);
    var px := At(q.px, foe);
    if !(px > 0.0) then q else
    var need := Target(a, stakeUsd) - At(q.matched, foe);
    if need <= MIN_ENTRY then q else
    var roster := Ranks(q, bots, foe);
    Answer(a, q, roster, 0, foe, need, Spread(a, |roster|), px, slices)
  }

  // ---- the house fills a thin side ----

  /** One bot not yet on that side is topped up to the minimum stake and put in at exactly that. */
  function FloorEnters(a: Arena, t: Table, i: nat, side: Side, minUsd: real, quote: real): Table
    requires i < |t.accounts|
  {
    var q := Quoted(t, side, quote);
    var px := At(q.px, side);
    if !(px > 0.0) || Deployed(q.entries, q.accounts[i].id, side) then q else
    var u := TopUp(a, q, i, side, minUsd, px);
    if Usd(Get(u.accounts[i], Token(a, side)), px) < minUsd then u
    else Commit(a, u, i, Army(side), minUsd / px, minUsd, false)
  }

  // ---- the population ----

  /** The float can fund a bot: there are pool wallets, and something in them. */
  predicate PoolReady(pool: seq<Account>) {
    pool != [] && Total(pool, BullCoin) + Total(pool, UwuCoin) + Total(pool, SolCoin) > 0.0
  }

  function NewBank(pool: seq<Account>, f: Field, want: real, spread: real): Draw {
    if PoolReady(pool) then DrawBank(pool, f, want, spread) else Draw(pool, 0.0)
  }

  /** The ledger with a record set under its id: in the place of the one there was, if there was one. */
  function Filed(accounts: seq<Account>, b: Account): seq<Account> {
    var i := Find(accounts, b.id);
    if i < |accounts| then accounts[i := b] else accounts + [b]
  }

  /** A new bot is funded from the float, and dropped again if it cannot afford one minimum stake. Nobody
    * looks whether its name is taken. */
  function BotBorn(a: Arena, t: Table, id: string, side: Side, want: real, spread: real, minStake: real): Table {
    var f := Token(a, side);
    var d := NewBank(t.pool, f, want, spread);
    if !(d.granted >= minStake) then t.(pool := ReturnBank(d.pool, f, d.granted))
    else t.(pool := d.pool, accounts := Filed(t.accounts, Put(Account(id, true, 0.0, 0.0, 0.0), f, d.granted)))
  }

  /** What an account holds of one coin above the ceiling goes back to the float. */
  function Levelled(pool: seq<Account>, who: Account, f: Field, ceilingUsd: real, px: real): (seq<Account>, Account) {
    if !PoolReady(pool) || !(px > 0.0) || Usd(Get(who, f), px) <= ceilingUsd then (pool, who) else
    var skim := (Usd(Get(who, f), px) - ceilingUsd) / px;
    (ReturnBank(pool, f, skim), Put(who, f, Get(who, f) - skim))
  }

  function BotLevelled(t: Table, i: nat, f: Field, ceilingUsd: real, px: real): Table
    requires i < |t.accounts|
  {
    var (pool, who) := Levelled(t.pool, t.accounts[i], f, ceilingUsd, px);
    t.(pool := pool, accounts := t.accounts[i := who])
  }

  /** The treasury's account is flagged as a bot's, and is levelled like one. */
  function TreasuryLevelled(t: Table, f: Field, ceilingUsd: real, px: real): Table {
    var (pool, who) := Levelled(t.pool, t.treasury, f, ceilingUsd, px);
    t.(pool := pool, treasury := who)
  }

  /** A bot leaving the population hands everything it holds to the float. */
  function BotRetired(t: Table, i: nat): Table
    requires i < |t.accounts|
  {
    var (pool, who) := Retire(t.pool, t.accounts[i]);
    t.(pool := pool, accounts := t.accounts[i := who])
  }

  // ---- a player enters ----

  /** Where the account is, or the length. */
  function Find(accounts: seq<Account>, id: string): (i: nat)
    ensures i <= |accounts|
    ensures i < |accounts| ==> accounts[i].id == id
    ensures forall j :: 0 <= j < i ==> accounts[j].id != id
  {
    if accounts == [] || accounts[0].id == id then 0 else 1 + Find(accounts[1..], id)
  }

  /** A wallet seen for the first time gets an empty account. */
  function Known(t: Table, wallet: string): (r: Table)
    ensures Find(r.accounts, wallet) < |r.accounts|
  {
    if Find(t.accounts, wallet) < |t.accounts| then t else
    FindAppended(t.accounts, wallet);
    t.(accounts := t.accounts + [NewAccount(wallet)])
  }

  function NewAccount(wallet: string): Account { Account(wallet, false, 0.0, 0.0, 0.0) }

  lemma {:induction false} FindAppended(accounts: seq<Account>, wallet: string)
    requires Find(accounts, wallet) == |accounts|
    ensures Find(accounts + [NewAccount(wallet)], wallet) == |accounts|
  {
    if accounts == [] {
      assert accounts + [NewAccount(wallet)] == [NewAccount(wallet)];
    } else {
      assert (accounts + [NewAccount(wallet)])[1..] == accounts[1..] + [NewAccount(wallet)];
      FindAppended(accounts[1..], wallet);
    }
  }

  /** A fighter's stake before the fee. */
  function Gross(e: Entry): real { e.stake / (1.0 - FEE) }

  function SeatGross(id: string): Entry -> real {
    (e: Entry) => if e.id == id then Gross(e) else 0.0
  }

  datatype Reply = NoPrice | AtCap | TooSmall | Entered(stake: real, usd: real)

  datatype Entrance = Entrance(table: Table, reply: Reply)

  /** Up to the point where the house answers. Nobody checks the side. */
  function PlayerEnters(a: Arena, t: Table, wallet: string, c: Camp, request: real, quote: real): (r: Entrance)
  {
    var k := Known(t, wallet);
    var i, side := Find(k.accounts, wallet), Slot(c);
    var bank := Get(k.accounts[i], Token(a, side));
    var q := Quoted(k, side, quote);
    var px := At(q.px, side);
    if !(px > 0.0) then Entrance(q, NoPrice) else
    var already := SumR(q.entries, SeatGross(EntryId(wallet, c)));
    var headroom := Max(0.0, CAP - already);
    var stake := Min(Min(request, bank), headroom / px);
    var usd := Usd(stake, px);
    if headroom < MIN_ENTRY then Entrance(q, AtCap)
    else if usd < MIN_ENTRY then Entrance(q, TooSmall)
    else Entrance(Commit(a, q, i, c, stake, usd, true), Entered(stake, usd))
  }

  // ---- the lobby, step by step ----

  /** What the watcher counts as real money on a side, before fees: it goes by the printed side. */
  function HumanOn(side: Side): Entry -> real {
    (e: Entry) => if Text(e.side) == SideName(side) && !IsBot(e.id) then Gross(e) else 0.0
  }

  function HumanStake(t: Table, side: Side): real { SumR(t.entries, HumanOn(side)) }

  datatype Step =
    | BotStep(bot: nat, side: Side, minStake: real, sizing: Sizing, quote: real)
    | FloorStep(bot: nat, side: Side, minUsd: real, quote: real)
    | BirthStep(id: string, side: Side, want: real, spread: real, minStake: real)
    | LevelStep(bot: nat, field: Field, ceilingUsd: real, px: real)
    | TreasuryStep(field: Field, ceilingUsd: real, px: real)
    | RetireStep(bot: nat)
    | PlayerStep(wallet: string, camp: Camp, request: real, quote: real, bots: seq<nat>, foeQuote: real, slices: nat -> real)
    | WatchStep(side: Side, bots: seq<nat>, quote: real, slices: nat -> real)

  /** The watcher answers all the human money on a side, once there is more than a crumb of it. */
  function Watched(a: Arena, t: Table, side: Side, bots: seq<nat>, quote: real, slices: nat -> real): Table
    requires BotsOf(t, bots)
  {
    if HumanStake(t, side) <= MIN_ENTRY then t
    else MatchPlayerStake(a, t, Army(side), HumanStake(t, side), bots, quote, slices)
  }

  /** A name a bot can be given. A counter that starts over with the server makes them, so it may be one
    * that is in the ledger already. */
  ghost predicate BotName(id: string) {
    IsBot(id) && forall i :: 0 <= i < |id| ==> id[i] != '|'
  }

  /** A step that names no bot account, no bot's name, a minimum stake or a ceiling below nothing, or a
    * wallet no player can have changes nothing. */
  ghost function Next(a: Arena, t: Table, step: Step): Table {
    match step
    case BotStep(i, side, minStake, sizing, quote) =>
      if i < |t.accounts| && IsBot(t.accounts[i].id) then BotEnters(a, t, i, side, minStake, sizing, quote) else t
    case FloorStep(i, side, minUsd, quote) =>
      if i < |t.accounts| && IsBot(t.accounts[i].id) && minUsd > 0.0 then FloorEnters(a, t, i, side, minUsd, quote) else t
    case BirthStep(id, side, want, spread, minStake) =>
      if BotName(id) then BotBorn(a, t, id, side, want, spread, minStake) else t
    case LevelStep(i, f, ceilingUsd, px) =>
      if i < |t.accounts| && IsBot(t.accounts[i].id) && ceilingUsd >= 0.0 then BotLevelled(t, i, f, ceilingUsd, px) else t
    case TreasuryStep(f, ceilingUsd, px) =>
      if ceilingUsd >= 0.0 then TreasuryLevelled(t, f, ceilingUsd, px) else t
    case RetireStep(i) =>
      if i < |t.accounts| && IsBot(t.accounts[i].id) then BotRetired(t, i) else t
    case PlayerStep(wallet, c, request, quote, bots, foeQuote, slices) =>
      if !PlayerId(wallet) then t else
      var e := PlayerEnters(a, t, wallet, c, request, quote);
      if e.reply.Entered? && BotsOf(e.table, bots) then
        MatchPlayerStake(a, e.table, c, e.reply.usd, bots, foeQuote, slices)
      else e.table
    case WatchStep(side, bots, quote, slices) =>
      if BotsOf(t, bots) then Watched(a, t, side, bots, quote, slices) else t
  }

  /** A wallet address: no bar in it, and not a bot's name. */
  ghost predicate PlayerId(wallet: string) {
    !IsBot(wallet) && forall i :: 0 <= i < |wallet| ==> wallet[i] != '|'
  }

  ghost function Run(a: Arena, t: Table, steps: seq<Step>): Table
    decreases |steps|
  {
    if steps == [] then t else Run(a, Next(a, t, steps[0]), steps[1..])
  }

  // ---- settlement ----

  /** Credit one row of the settlement record, in each slot's own token at the round's price; an id that
    * is not in the ledger is skipped. */
  function PayRow(a: Arena, t: Table, key: string, bal: Payout, quotes: Pair): Table {
    var i := Find(t.accounts, OwnerOf(key));
    if i == |t.accounts| then t else
    var q := Quoted(Quoted(t, Bull, quotes.bull), Uwu, quotes.uwu);
    var retA := Units(bal.bull, q.px.bull);
    var retB := Units(bal.uwu, q.px.uwu);
    var who := q.accounts[i];
    var paidA := Put(who, a.tokA, Get(who, a.tokA) + retA);
    var paidB := Put(paidA, a.tokB, Get(paidA, a.tokB) + retB);
    q.(accounts := q.accounts[i := paidB], paid := Pair(q.paid.bull + retA, q.paid.uwu + retB))
  }

  /** `keys` lists the record's rows, each once, in whatever order they are visited. */
  ghost predicate Lists(keys: seq<string>, record: map<string, Payout>) {
    && (forall k :: 0 <= k < |keys| ==> keys[k] in record)
    && (forall k, l :: 0 <= k < l < |keys| ==> keys[k] != keys[l])
    && (forall id :: id in record ==> id in keys)
  }

  /** The settlement record is paid out row by row. */
  function PayAll(a: Arena, t: Table, record: map<string, Payout>, keys: seq<string>, quotes: nat -> Pair): Table
    requires forall k :: 0 <= k < |keys| ==> keys[k] in record
    decreases |keys|
  {
    if keys == [] then t
    else
      var n := |keys| - 1;
      PayRow(a, PayAll(a, t, record, keys[..n], quotes), keys[n], record[keys[n]], quotes(n))
  }

  function Abs(x: real): real { if x < 0.0 then -x else x }

  /** Whether the audit complains about one token's flow. */
  predicate AuditWarns(out: real, paid: real, fee: real) {
    !(out < 0.000000001 && paid < 0.000000001)
    && Abs(paid - out - (-fee)) > Max(0.000001, out * 0.001)
  }
}
