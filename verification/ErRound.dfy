/** The integer round: entry, hash-driven ticks, mid-fight extraction and settlement.
  * `Round` is the value a round has at one moment; the object the engine updates is `ERRound` in `ErEngine`. */
module ErRound {
  import opened Basics
  import opened ErDraw
  import opened ErPenalty
  import opened Sums

  datatype Side = SideA | SideB

  datatype Fighter = Fighter(wallet: string, side: Side, dead: bool, stake: int, hp: int, banked: int)

  datatype Error = ZeroStake | RoundFull | NothingToExtract

  datatype Result<+T> = Ok(value: T) | Err(error: Error)

  datatype Round = Round(
    fighters: seq<Fighter>, tickCount: nat,
    pot: int, penaltiesCollected: int, feesCollected: int, winner: Option<Side>)

  datatype Extraction = Extraction(round: Round, taken: int, split: Split)

  /** The digest of each cursor, for one fixed seed. Nothing is assumed about it. */
  type Chain = nat -> Digest

  const DUST: int := 1_000

  const NEW_ROUND := Round([], 0, 0, 0, 0, None)

  function HpOf(f: Fighter): int { f.hp }

  function ValueOf(f: Fighter): int { f.hp + f.banked }

  function ValueOnA(f: Fighter): int { if f.side == SideA then ValueOf(f) else 0 }

  function ValueOnB(f: Fighter): int { if f.side == SideB then ValueOf(f) else 0 }

  function TotalHp(r: Round): int { Sum(r.fighters, HpOf) }

  function TotalValue(r: Round): int { Sum(r.fighters, ValueOf) }

  function HouseTook(r: Round): int { r.penaltiesCollected + r.feesCollected }

  function GrossDeposits(r: Round): int { r.pot + r.feesCollected }

  predicate ConservationHolds(r: Round) {
    TotalValue(r) + HouseTook(r) == GrossDeposits(r)
  }

  /** The first fighter that satisfies `p`, or the length when there is none. */
  function FirstIndex(fs: seq<Fighter>, p: Fighter -> bool): (i: nat)
    ensures i <= |fs| && (i < |fs| ==> p(fs[i]))
    ensures forall j :: 0 <= j < i ==> !p(fs[j])
  {
    if fs == [] || p(fs[0]) then 0 else 1 + FirstIndex(fs[1..], p)
  }

  function Seat(wallet: string, side: Side): Fighter -> bool {
    (f: Fighter) => f.wallet == wallet && f.side == side
  }

  function Standing(wallet: string): Fighter -> bool {
    (f: Fighter) => f.wallet == wallet && !f.dead && f.hp > 0
  }

  // ---- the operations ----

  function FeeOn(stake: int, feeBps: int): int {
    TruncDiv(stake * feeBps, BPS)
  }

  function Enter(r: Round, wallet: string, side: Side, stake: int, feeBps: int): Result<Round> {
    if stake <= 0 then Err(ZeroStake) else
    var fee := FeeOn(stake, feeBps);
    var net := stake - fee;
    var fs := r.fighters;
    var i := FirstIndex(fs, Seat(wallet, side));
    if i == |fs| && |fs| >= MAX_FIGHTERS then Err(RoundFull) else
    var seated :=
      if i < |fs| then fs[i := fs[i].(stake := fs[i].stake + net, hp := fs[i].hp + net)]
      else fs + [Fighter(wallet, side, false, net, net, 0)];
    Ok(r.(fighters := seated, pot := r.pot + net, feesCollected := r.feesCollected + fee))
  }

  function Sat(a: int, b: int): int {
    if a > b then a - b else 0
  }

  /** Never your own team, never your own wallet, never the fallen. */
  predicate Legal(attacker: Fighter, defender: Fighter) {
    attacker.side != defender.side && attacker.wallet != defender.wallet && !attacker.dead && !defender.dead
  }

  /** A share of the smaller ring, except that a defender down to dust loses the remainder. */
  function Damage(attacker: Fighter, defender: Fighter, roll: nat): int {
    var basis := if attacker.hp < defender.hp then attacker.hp else defender.hp;
    if defender.hp <= DUST then defender.hp else TruncDiv(basis * roll, 100)
  }

  function Strike(fs: seq<Fighter>, a: nat, d: nat, roll: nat): (fs': seq<Fighter>)
    requires a < |fs| && d < |fs| && a != d
    ensures |fs'| == |fs|
  {
    var dmg := Damage(fs[a], fs[d], roll);
    if !Legal(fs[a], fs[d]) || dmg == 0 then fs else
    var hp := Sat(fs[d].hp, dmg);
    fs[d := fs[d].(hp := hp, dead := hp == 0)][a := fs[a].(banked := fs[a].banked + dmg)]
  }

  function Step(chain: Chain, r: Round): (r': Round)
    requires |r.fighters| >= 2
    ensures |r'.fighters| == |r.fighters| && r'.tickCount == r.tickCount + 1
  {
    var h := chain(r.tickCount);
    var pair := DrawPair(h, |r.fighters|).value;
    r.(tickCount := r.tickCount + 1, fighters := Strike(r.fighters, pair.0, pair.1, RollOf(h)))
  }

  function Tick(chain: Chain, r: Round, steps: nat): (r': Round)
    ensures |r'.fighters| == |r.fighters|
    decreases steps
  {
    if steps == 0 || |r.fighters| < 2 then r else Tick(chain, Step(chain, r), steps - 1)
  }

  function Extract(r: Round, wallet: string): Result<Extraction> {
    var fs := r.fighters;
    var i := FirstIndex(fs, Standing(wallet));
    if i == |fs| then Err(NothingToExtract) else
    var taken := fs[i].hp;
    var split := SplitExtraction(taken, |fs|, r.tickCount);
    var out := fs[i].(banked := fs[i].banked + split.kept, hp := 0, dead := true);
    Ok(Extraction(r.(fighters := fs[i := out], penaltiesCollected := r.penaltiesCollected + split.penalty), taken, split))
  }

  function WinnerOf(fs: seq<Fighter>): Side {
    if Sum(fs, ValueOnA) >= Sum(fs, ValueOnB) then SideA else SideB
  }

  // ---- one blow ----

  predicate IsRoll(roll: nat) {
    1 <= roll <= 22 || roll == CRIT_ROLL
  }

  /** A blow never takes more than the defender holds, whatever the signs; above the dust it is exactly the
    * roll's percentage of the smaller ring, rounded down, and at or below the dust all there is. */
  lemma DamageRange(attacker: Fighter, defender: Fighter, roll: nat)
    requires IsRoll(roll)
    ensures Damage(attacker, defender, roll) <= defender.hp
    ensures attacker.hp >= 0 && defender.hp >= 0 ==> 0 <= Damage(attacker, defender, roll)
    ensures DUST < defender.hp && 0 <= attacker.hp ==>
              var basis := if attacker.hp < defender.hp then attacker.hp else defender.hp;
              var dmg := Damage(attacker, defender, roll);
              100 * dmg <= roll * basis < 100 * (dmg + 1)
    ensures defender.hp <= 1_000 ==> Damage(attacker, defender, roll) == defender.hp
  {
    PercentOf(if attacker.hp < defender.hp then attacker.hp else defender.hp, roll);
  }

  lemma PercentOf(basis: int, roll: nat)
    requires roll <= 100
    ensures var q := TruncDiv(basis * roll, 100);
            if basis >= 0 then 0 <= q <= basis && 100 * q <= roll * basis < 100 * (q + 1) else q <= 0
  {
    TruncDivBounds(basis * roll, 100);
    if basis >= 0 {
      MulOrder(roll, 100, basis);
      MulOrder(0, basis, roll);
    } else {
      MulOrder(basis, 0, roll);
    }
  }

  /** What one strike does, in full: nothing at all, or it moves exactly `dmg` of ring value from a
    * living enemy of another wallet to the attacker's bank, killing the defender if nothing is left. */
  ghost predicate Moved(fs: seq<Fighter>, fs': seq<Fighter>, a: nat, d: nat, dmg: int)
    requires a < |fs| && d < |fs| && a != d
  {
    && |fs'| == |fs|
    && fs[a].side != fs[d].side && fs[a].wallet != fs[d].wallet && !fs[a].dead && !fs[d].dead
    && dmg != 0 && dmg <= fs[d].hp
    && fs'[a] == fs[a].(banked := fs[a].banked + dmg)
    && fs'[d] == fs[d].(hp := fs[d].hp - dmg, dead := fs[d].hp == dmg)
    && forall k :: 0 <= k < |fs| && k != a && k != d ==> fs'[k] == fs[k]
  }

  lemma StrikeMoves(fs: seq<Fighter>, a: nat, d: nat, roll: nat)
    requires a < |fs| && d < |fs| && a != d && IsRoll(roll)
    ensures var dmg := Damage(fs[a], fs[d], roll);
            if fs[a].side != fs[d].side && fs[a].wallet != fs[d].wallet && !fs[a].dead && !fs[d].dead && dmg != 0
            then Moved(fs, Strike(fs, a, d, roll), a, d, dmg)
            else Strike(fs, a, d, roll) == fs
  {
    DamageRange(fs[a], fs[d], roll);
  }

  lemma MovedSums(fs: seq<Fighter>, fs': seq<Fighter>, a: nat, d: nat, dmg: int)
    requires a < |fs| && d < |fs| && a != d && Moved(fs, fs', a, d, dmg)
    ensures Sum(fs', ValueOf) == Sum(fs, ValueOf)
    ensures Sum(fs', HpOf) == Sum(fs, HpOf) - dmg
  {
    var hit := fs[d := fs'[d]];
    SumUpdate(fs, d, fs'[d], ValueOf);
    SumUpdate(hit, a, fs'[a], ValueOf);
    SumUpdate(fs, d, fs'[d], HpOf);
    SumUpdate(hit, a, fs'[a], HpOf);
    assert hit[a := fs'[a]] == fs';
  }

  lemma StepMoves(chain: Chain, r: Round)
    requires |r.fighters| >= 2
    ensures TotalValue(Step(chain, r)) == TotalValue(r)
    ensures var p := DrawPair(chain(r.tickCount), |r.fighters|).value;
            TotalHp(Step(chain, r)) == TotalHp(r)
              - (if Legal(r.fighters[p.0], r.fighters[p.1])
                 then Damage(r.fighters[p.0], r.fighters[p.1], RollOf(chain(r.tickCount))) else 0)
  {
    var h := chain(r.tickCount);
    var p := DrawPair(h, |r.fighters|).value;
    var fs := r.fighters;
    var dmg := Damage(fs[p.0], fs[p.1], RollOf(h));
    StrikeMoves(fs, p.0, p.1, RollOf(h));
    if Legal(fs[p.0], fs[p.1]) && dmg != 0 {
      MovedSums(fs, Step(chain, r).fighters, p.0, p.1, dmg);
    }
  }

  lemma {:induction false} TickConserves(chain: Chain, r: Round, steps: nat)
    ensures TotalValue(Tick(chain, r, steps)) == TotalValue(r)
    ensures var r' := Tick(chain, r, steps);
            r'.pot == r.pot && r'.penaltiesCollected == r.penaltiesCollected && r'.feesCollected == r.feesCollected
    decreases steps
  {
    hide Damage;
    if steps > 0 && |r.fighters| >= 2 {
      StepMoves(chain, r);
      TickConserves(chain, Step(chain, r), steps - 1);
    }
  }

  /** Every tick draws once and moves the cursor by one, but with fewer than two seats none does. */
  lemma {:induction false} TicksMoveTheCursor(chain: Chain, r: Round, steps: nat)
    ensures Tick(chain, r, steps).tickCount == r.tickCount + (if |r.fighters| >= 2 then steps else 0)
    ensures |r.fighters| < 2 ==> Tick(chain, r, steps) == r
    decreases steps
  {
    hide Damage;
    if steps > 0 && |r.fighters| >= 2 {
      TicksMoveTheCursor(chain, Step(chain, r), steps - 1);
    }
  }

  /** A fighter who is out -- killed or extracted -- is untouchable and strikes nobody. */
  lemma {:induction false} DeadIsFrozen(chain: Chain, r: Round, steps: nat, k: nat)
    requires k < |r.fighters| && r.fighters[k].dead
    ensures Tick(chain, r, steps).fighters[k] == r.fighters[k]
    decreases steps
  {
    if steps > 0 && |r.fighters| >= 2 {
      assert Step(chain, r).fighters[k] == r.fighters[k];
      DeadIsFrozen(chain, Step(chain, r), steps - 1, k);
    }
  }

  // ---- entry ----

  function SeatTotal(fs: seq<Fighter>, wallet: string, side: Side): int {
    Sum(fs, SeatHp(wallet, side))
  }

  function SeatHp(wallet: string, side: Side): Fighter -> int {
    (f: Fighter) => if f.wallet == wallet && f.side == side then f.hp else 0
  }

  predicate OneSeatEach(fs: seq<Fighter>) {
    forall i, j :: 0 <= i < j < |fs| ==> fs[i].wallet != fs[j].wallet || fs[i].side != fs[j].side
  }

  /** An entry is refused in exactly two cases. */
  lemma EnterRefusals(r: Round, wallet: string, side: Side, stake: int, feeBps: int)
    ensures Enter(r, wallet, side, stake, feeBps) == Err(ZeroStake) <==> stake <= 0
    ensures Enter(r, wallet, side, stake, feeBps) == Err(RoundFull) <==>
              (stake > 0 && |r.fighters| >= 48
               && forall f :: f in r.fighters ==> f.wallet != wallet || f.side != side)
  {
    hide FeeOn;
    var i := FirstIndex(r.fighters, Seat(wallet, side));
    if i < |r.fighters| {
      assert r.fighters[i] in r.fighters;
    }
  }

  /** An accepted entry is a top-up of the wallet's first seat on that side, or one new seat at the end;
    * every other seat, and everything else about that one, is as it was. */
  lemma EnterTouchesOneSeat(r: Round, wallet: string, side: Side, stake: int, feeBps: int) returns (i: nat)
    ensures i <= |r.fighters|
    ensures var e, net, fs := Enter(r, wallet, side, stake, feeBps), stake - FeeOn(stake, feeBps), r.fighters;
            e.Ok? ==>
              if i < |fs| then
                && fs[i].wallet == wallet && fs[i].side == side
                && (forall j :: 0 <= j < i ==> fs[j].wallet != wallet || fs[j].side != side)
                && e.value.fighters == fs[i := fs[i].(stake := fs[i].stake + net, hp := fs[i].hp + net)]
              else
                && (forall f :: f in fs ==> f.wallet != wallet || f.side != side)
                && e.value.fighters == fs + [Fighter(wallet, side, false, net, net, 0)]
  {
    hide FeeOn;
    i := FirstIndex(r.fighters, Seat(wallet, side));
  }

  /** A fee is its rate of the stake, in hundredths of a percent, rounded down. */
  lemma FeeIsSlice(stake: int, feeBps: int)
    requires stake >= 0 && feeBps >= 0
    ensures IsSlice(FeeOn(stake, feeBps), stake, feeBps) && 0 <= FeeOn(stake, feeBps)
    ensures feeBps <= 10_000 ==> FeeOn(stake, feeBps) <= stake
  {
    MulOrder(0, stake, feeBps);
    TruncDivBounds(stake * feeBps, BPS);
    if feeBps <= 10_000 {
      MulOrder(feeBps, 10_000, stake);
    }
  }

  /** What an accepted entry records as the fee is that slice of the stake, and the pot grows by the rest. */
  lemma EnterRecordsTheFee(r: Round, wallet: string, side: Side, stake: int, feeBps: int)
    requires feeBps >= 0
    ensures var e := Enter(r, wallet, side, stake, feeBps);
            e.Ok? ==>
              && IsSlice(e.value.feesCollected - r.feesCollected, stake, feeBps)
              && e.value.pot - r.pot == stake - (e.value.feesCollected - r.feesCollected)
  {
    hide FeeOn, IsSlice, Seat;
    if stake > 0 {
      FeeIsSlice(stake, feeBps);
    }
  }

  /** An accepted entry splits the stake exactly into a net and a recorded fee, and adds the net to the
    * ring of that wallet on that side and of nobody else. */
  lemma EnterEffect(r: Round, wallet: string, side: Side, stake: int, feeBps: int)
    requires OneSeatEach(r.fighters)
    ensures var e := Enter(r, wallet, side, stake, feeBps);
            e.Ok? ==>
              OneSeatEach(e.value.fighters) && |e.value.fighters| <= |r.fighters| + 1
              && (|r.fighters| <= MAX_FIGHTERS ==> |e.value.fighters| <= MAX_FIGHTERS)
              && GrossDeposits(e.value) == GrossDeposits(r) + stake
              && e.value.feesCollected == r.feesCollected + FeeOn(stake, feeBps)
              && TotalValue(e.value) == TotalValue(r) + (e.value.pot - r.pot)
              && TotalHp(e.value) == TotalHp(r) + (e.value.pot - r.pot)
              && e.value.penaltiesCollected == r.penaltiesCollected
              && forall w, s :: SeatTotal(e.value.fighters, w, s)
                   == SeatTotal(r.fighters, w, s) + (if w == wallet && s == side then e.value.pot - r.pot else 0)
  {
    hide FeeOn;
    var e := Enter(r, wallet, side, stake, feeBps);
    if e.Ok? {
      var fs, net := r.fighters, e.value.pot - r.pot;
      var i := FirstIndex(fs, Seat(wallet, side));
      if i < |fs| {
        SeatGrows(fs, i, net);
      } else {
        SeatAdded(fs, wallet, side, net);
      }
    }
  }

  lemma SeatGrows(fs: seq<Fighter>, i: nat, net: int)
    requires i < |fs|
    ensures var fs' := fs[i := fs[i].(stake := fs[i].stake + net, hp := fs[i].hp + net)];
            Sum(fs', ValueOf) == Sum(fs, ValueOf) + net && Sum(fs', HpOf) == Sum(fs, HpOf) + net
            && forall w, s :: SeatTotal(fs', w, s)
                 == SeatTotal(fs, w, s) + (if w == fs[i].wallet && s == fs[i].side then net else 0)
  {
    var topped := fs[i].(stake := fs[i].stake + net, hp := fs[i].hp + net);
    SumUpdate(fs, i, topped, ValueOf);
    SumUpdate(fs, i, topped, HpOf);
    forall w, s
      ensures SeatTotal(fs[i := topped], w, s)
              == SeatTotal(fs, w, s) + (if w == fs[i].wallet && s == fs[i].side then net else 0)
    {
      SumUpdate(fs, i, topped, SeatHp(w, s));
    }
  }

  lemma SeatAdded(fs: seq<Fighter>, wallet: string, side: Side, net: int)
    ensures var fs' := fs + [Fighter(wallet, side, false, net, net, 0)];
            Sum(fs', ValueOf) == Sum(fs, ValueOf) + net && Sum(fs', HpOf) == Sum(fs, HpOf) + net
            && forall w, s :: SeatTotal(fs', w, s)
                 == SeatTotal(fs, w, s) + (if w == wallet && s == side then net else 0)
  {
    var newcomer := [Fighter(wallet, side, false, net, net, 0)];
    SumAppend(fs, newcomer, ValueOf);
    SumAppend(fs, newcomer, HpOf);
    forall w, s
      ensures SeatTotal(fs + newcomer, w, s) == SeatTotal(fs, w, s) + (if w == wallet && s == side then net else 0)
    {
      SumAppend(fs, newcomer, SeatHp(w, s));
      assert Sum(newcomer, SeatHp(w, s)) == SeatHp(w, s)(newcomer[0]);
    }
  }

  // ---- extraction ----

  /** An exit empties exactly one fighter, the first living one of that wallet -- there being none is the
    * only refusal. What it held in the ring is split without remainder between its bank and the house;
    * the house's part is the rate of the penalty curve, and at most a fifth. */
  lemma ExtractEffect(r: Round, wallet: string) returns (i: nat)
    ensures Extract(r, wallet).Err? <==> i == |r.fighters|
    ensures i <= |r.fighters|
    ensures forall j :: 0 <= j < i ==>
              r.fighters[j].wallet != wallet || r.fighters[j].dead || r.fighters[j].hp <= 0
    ensures i < |r.fighters| ==>
              var f, x := r.fighters[i], Extract(r, wallet).value;
              && f.wallet == wallet && !f.dead && f.hp > 0
              && x.taken == f.hp && x.split.kept + x.split.penalty == x.taken
              && OnTheLine(ExtractPenaltyBps(|r.fighters|, r.tickCount), |r.fighters|, r.tickCount)
              && IsSlice(x.split.penalty, x.taken, ExtractPenaltyBps(|r.fighters|, r.tickCount))
              && 0 <= 5 * x.split.penalty <= x.taken
              && x.round == r.(fighters := x.round.fighters, penaltiesCollected := r.penaltiesCollected + x.split.penalty)
              && x.round.fighters == r.fighters[i := f.(hp := 0, dead := true, banked := f.banked + x.split.kept)]
  {
    hide TruncDiv, OnTheLine, IsSlice, ExtractPenaltyBps;
    i := FirstIndex(r.fighters, Standing(wallet));
    if i < |r.fighters| {
      SplitBounds(r.fighters[i].hp, |r.fighters|, r.tickCount);
    }
  }

  lemma ExtractSums(r: Round, wallet: string)
    requires Extract(r, wallet).Ok?
    ensures var x := Extract(r, wallet).value;
            && TotalHp(x.round) == TotalHp(r) - x.taken
            && TotalValue(x.round) == TotalValue(r) - x.split.penalty
  {
    hide Extract, OnTheLine, IsSlice;
    var i := ExtractEffect(r, wallet);
    var x := Extract(r, wallet).value;
    SumUpdate(r.fighters, i, x.round.fighters[i], ValueOf);
    SumUpdate(r.fighters, i, x.round.fighters[i], HpOf);
  }

  // ---- whole runs ----

  datatype Op =
    | OpEnter(wallet: string, side: Side, stake: int, feeBps: int)
    | OpTick(steps: nat)
    | OpExtract(wallet: string)

  /** A refused operation throws before it has changed anything. */
  function Apply(chain: Chain, r: Round, op: Op): Round {
    match op
    case OpEnter(w, side, stake, bps) => (match Enter(r, w, side, stake, bps) case Ok(r') => r' case Err(_) => r)
    case OpTick(n) => Tick(chain, r, n)
    case OpExtract(w) => (match Extract(r, w) case Ok(x) => x.round case Err(_) => r)
  }

  function Run(chain: Chain, r: Round, ops: seq<Op>): Round
    decreases |ops|
  {
    if ops == [] then r else Run(chain, Apply(chain, r, ops[0]), ops[1..])
  }

  lemma {:induction false} SeatsUnchanged(chain: Chain, r: Round, steps: nat)
    ensures forall i :: 0 <= i < |r.fighters| ==>
              Tick(chain, r, steps).fighters[i].wallet == r.fighters[i].wallet
              && Tick(chain, r, steps).fighters[i].side == r.fighters[i].side
              && Tick(chain, r, steps).fighters[i].stake == r.fighters[i].stake
    decreases steps
  {
    if steps > 0 && |r.fighters| >= 2 {
      SeatsUnchanged(chain, Step(chain, r), steps - 1);
    }
  }

  ghost predicate Books(r: Round) {
    ConservationHolds(r) && OneSeatEach(r.fighters) && |r.fighters| <= MAX_FIGHTERS
  }

  lemma ApplyKeepsBooks(chain: Chain, r: Round, op: Op)
    requires Books(r)
    ensures Books(Apply(chain, r, op))
  {
    match op
    case OpEnter(w, side, stake, bps) => EnterEffect(r, w, side, stake, bps);
    case OpTick(n) =>
      TickConserves(chain, r, n);
      SeatsUnchanged(chain, r, n);
    case OpExtract(w) =>
      var i := ExtractEffect(r, w);
      if i < |r.fighters| {
        ExtractSums(r, w);
      }
  }

  /** Over every interleaving of entries, ticks and extractions -- at any fee rate, accepted or
    * refused -- what fighters hold plus what the house took is what players were charged; no wallet
    * ever holds two seats on one side; and the lineup never exceeds its cap. */
  lemma {:induction false} ConservationOverRuns(chain: Chain, r: Round, ops: seq<Op>)
    requires Books(r)
    ensures Books(Run(chain, r, ops))
    decreases |ops|
  {
    if ops != [] {
      ApplyKeepsBooks(chain, r, ops[0]);
      ConservationOverRuns(chain, Apply(chain, r, ops[0]), ops[1..]);
    }
  }

  /** Nobody's ring is negative, the living hold something, and five times the penalties plus
    * everything still in the ring fits inside the pot. */
  ghost predicate RingSound(r: Round) {
    (forall f :: f in r.fighters ==> f.hp >= 0 && (!f.dead ==> f.hp > 0))
    && 5 * r.penaltiesCollected + TotalHp(r) <= r.pot && r.penaltiesCollected >= 0
  }

  predicate FeesBelowAll(ops: seq<Op>) {
    forall i :: 0 <= i < |ops| && ops[i].OpEnter? ==> ops[i].feeBps < BPS
  }

  lemma NetPositive(stake: int, feeBps: int)
    requires stake > 0 && feeBps < BPS
    ensures stake - FeeOn(stake, feeBps) > 0
  {
    if feeBps >= 0 {
      MulOrder(feeBps, BPS - 1, stake);
      assert feeBps * stake == stake * feeBps;
    } else {
      MulOrder(feeBps, -1, stake);
    }
    TruncDivBounds(stake * feeBps, BPS);
  }

  lemma {:induction false} TickKeepsRing(chain: Chain, r: Round, steps: nat)
    requires RingSound(r)
    ensures RingSound(Tick(chain, r, steps))
    ensures TotalHp(Tick(chain, r, steps)) <= TotalHp(r)
    decreases steps
  {
    hide Step;
    if steps > 0 && |r.fighters| >= 2 {
      StepKeepsRing(chain, r);
      TickKeepsRing(chain, Step(chain, r), steps - 1);
    }
  }

  lemma StepKeepsRing(chain: Chain, r: Round)
    requires RingSound(r) && |r.fighters| >= 2
    ensures RingSound(Step(chain, r))
    ensures TotalHp(Step(chain, r)) <= TotalHp(r)
  {
    var h := chain(r.tickCount);
    var p := DrawPair(h, |r.fighters|).value;
    var fs := r.fighters;
    assert fs[p.0] in fs && fs[p.1] in fs;
    DamageRange(fs[p.0], fs[p.1], RollOf(h));
    StrikeMoves(fs, p.0, p.1, RollOf(h));
    StepMoves(chain, r);
  }

  lemma ApplyKeepsRing(chain: Chain, r: Round, op: Op)
    requires Books(r) && RingSound(r) && (op.OpEnter? ==> op.feeBps < BPS)
    ensures RingSound(Apply(chain, r, op))
  {
    match op
    case OpEnter(w, side, stake, bps) =>
      EnterEffect(r, w, side, stake, bps);
      if stake > 0 {
        NetPositive(stake, bps);
      }
    case OpTick(n) => TickKeepsRing(chain, r, n);
    case OpExtract(w) =>
      var i := ExtractEffect(r, w);
      if i < |r.fighters| {
        ExtractSums(r, w);
      }
  }

  /** However players time their exits, the house's penalties never exceed a fifth of the pot. */
  lemma {:induction false} PenaltiesWithinAFifth(chain: Chain, r: Round, ops: seq<Op>)
    requires Books(r) && RingSound(r)
    requires FeesBelowAll(ops)
    ensures RingSound(Run(chain, r, ops))
    decreases |ops|
  {
    if ops != [] {
      ApplyKeepsRing(chain, r, ops[0]);
      ApplyKeepsBooks(chain, r, ops[0]);
      PenaltiesWithinAFifth(chain, Apply(chain, r, ops[0]), ops[1..]);
    }
  }

  lemma NewRoundIsSound()
    ensures Books(NEW_ROUND) && RingSound(NEW_ROUND)
  {
  }

  lemma SoundMeansWithinAFifth(r: Round)
    requires RingSound(r)
    ensures 5 * r.penaltiesCollected <= r.pot && 0 <= TotalHp(r)
  {
    SumNonNeg(r.fighters, HpOf);
  }

  lemma EveryReachableRoundConserves(chain: Chain, ops: seq<Op>)
    ensures ConservationHolds(Run(chain, NEW_ROUND, ops))
  {
    NewRoundIsSound();
    ConservationOverRuns(chain, NEW_ROUND, ops);
  }

  lemma EveryReachableRoundIsSound(chain: Chain, ops: seq<Op>)
    requires FeesBelowAll(ops)
    ensures RingSound(Run(chain, NEW_ROUND, ops))
  {
    NewRoundIsSound();
    PenaltiesWithinAFifth(chain, NEW_ROUND, ops);
  }

  // ---- settlement ----

  /** The sides' values partition what is on the table, and the winner is a side that holds at least
    * half of it; an exact tie goes to side A. */
  lemma {:induction false} SettleSplitsTheTable(fs: seq<Fighter>)
    ensures Sum(fs, ValueOnA) + Sum(fs, ValueOnB) == Sum(fs, ValueOf)
    ensures WinnerOf(fs) == SideA <==> 2 * Sum(fs, ValueOnA) >= Sum(fs, ValueOf)
  {
    if fs != [] {
      SettleSplitsTheTable(fs[1..]);
    }
  }
}
