/** The two-army collision fight: matched book, simultaneous blows, settlement. Positions, velocities
  * and the hit cooldown are an arbitrary oracle that says which pairs trade blows and how hard. */
module TwoSideSim {
  import opened Basics
  import opened Sums

  datatype Side = Bull | Uwu

  /** What an entry carries as its side. The engine's own code writes one of the two; a client message
    * is not checked, so anything else may stand there: it prints as `text`, and `mark` tells apart
    * values that print alike without being identical. */
  datatype Camp = Army(side: Side) | Stray(text: string, mark: nat)

  datatype Mode = Normal | Extraction

  datatype Entry = Entry(id: string, side: Camp, stake: real)

  datatype Fighter = Fighter(
    id: string, side: Camp, bull: real, uwu: real, sBull: real, sUwu: real,
    deposited: real, raided: real, dmgDealt: real, dmgTaken: real, bestHit: real,
    dead: bool, unmatched: real)

  datatype Config = Config(mode: Mode, hitCapFrac: real, matchTol: real, steps: nat)

  datatype HitLog = HitLog(t: nat, atk: string, def: string, amt: real, tk: Side)

  datatype Hit = Hit(tk: Side, amt: real)

  /** For tick `t` and fighters `i < j`: the raw strength of both blows, when the bodies collide and
    * their cooldown has run out. */
  type Physics = (nat, nat, nat) -> Option<(real, real)>

  const FINISH_RATIO: real := 0.08
  const DUST_FRAC: real := 0.03

  function Foe(side: Side): Side { if side == Bull then Uwu else Bull }

  function SideName(side: Side): string { if side == Bull then "bull" else "uwu" }

  function Text(c: Camp): string {
    match c
    case Army(side) => SideName(side)
    case Stray(text, _) => text
  }

  /** The slot a test for `"bull"` with everything else falling through picks. */
  function Slot(c: Camp): Side { if c == Army(Bull) then Bull else Uwu }

  function Ring(f: Fighter): real { f.bull + f.uwu }

  function DustFor(f: Fighter): real { Max(0.005, f.deposited * DUST_FRAC) }

  predicate Alive(f: Fighter) { !f.dead && Ring(f) > DustFor(f) }

  /** The wallet an entry id belongs to: everything before the first bar. */
  function OwnerOf(id: string): string {
    if id == [] || id[0] == '|' then [] else [id[0]] + OwnerOf(id[1..])
  }

  // ---- the matched book ----

  function StakeOn(side: Side): Entry -> real {
    (e: Entry) => if e.side == Army(side) then e.stake else 0.0
  }

  function TotalStake(entries: seq<Entry>, side: Side): real {
    SumR(entries, StakeOn(side))
  }

  /** The book is kept under the printed side, so whatever prints as a side counts on it. */
  function BookOn(side: Side): Entry -> real {
    (e: Entry) => if Text(e.side) == SideName(side) then e.stake else 0.0
  }

  function BookTotal(entries: seq<Entry>, side: Side): real {
    SumR(entries, BookOn(side))
  }

  /** The share of a side's stakes that is actually at risk. */
  function InPlayFrac(mine: real, foe: real, tol: real): real {
    if mine > 0.0 then Min(1.0, foe * (1.0 + tol) / mine) else 1.0
  }

  /** A side that is in nobody's book has no total to compare, and keeps everything in play. */
  function FracFor(entries: seq<Entry>, c: Camp, tol: real): real {
    if Text(c) == "bull" then InPlayFrac(BookTotal(entries, Bull), BookTotal(entries, Foe(Slot(c))), tol)
    else if Text(c) == "uwu" then InPlayFrac(BookTotal(entries, Uwu), BookTotal(entries, Foe(Slot(c))), tol)
    else 1.0
  }

  function Spawn(e: Entry, frac: real): Fighter {
    Enlist(e, InPlay(e, frac))
  }

  function InPlay(e: Entry, frac: real): real { e.stake * frac }

  function Enlist(e: Entry, inPlay: real): Fighter {
    Fighter(e.id, e.side,
            if e.side == Army(Bull) then inPlay else 0.0, if e.side == Army(Uwu) then inPlay else 0.0,
            0.0, 0.0, e.stake, 0.0, 0.0, 0.0, 0.0, false, e.stake - inPlay)
  }

  function Muster(entries: seq<Entry>, tol: real): (fs: seq<Fighter>)
    ensures |fs| == |entries|
  {
    seq(|entries|, i requires 0 <= i < |entries| => Spawn(entries[i], FracFor(entries, entries[i].side, tol)))
  }

  // ---- one clash ----

  function Holding(f: Fighter, tk: Side): real {
    if tk == Bull then f.bull else f.uwu
  }

  /** Stolen coins are lost first, once there is more than a speck of them; a blow takes one coin. */
  function PlanHit(def: Fighter, dmg: real): Hit {
    var own := Slot(def.side);
    var tk := if Holding(def, Foe(own)) > 0.05 then Foe(own) else own;
    Hit(tk, Min(dmg, Holding(def, tk)))
  }

  function Landed(def: Fighter, hit: Hit): real {
    Min(hit.amt, Holding(def, hit.tk))
  }

  function Suffer(def: Fighter, hit: Hit): Fighter {
    var amt := Landed(def, hit);
    if amt <= 0.01 then def
    else if hit.tk == Bull then def.(bull := def.bull - amt, dmgTaken := def.dmgTaken + amt)
    else def.(uwu := def.uwu - amt, dmgTaken := def.dmgTaken + amt)
  }

  function Credit(mode: Mode, atk: Fighter, tk: Side, amt: real): Fighter {
    match (mode, tk)
    case (Extraction, Bull) => atk.(sBull := atk.sBull + amt)
    case (Extraction, Uwu) => atk.(sUwu := atk.sUwu + amt)
    case (Normal, Bull) => atk.(bull := atk.bull + amt)
    case (Normal, Uwu) => atk.(uwu := atk.uwu + amt)
  }

  function Reward(mode: Mode, atk: Fighter, def: Fighter, hit: Hit): Fighter {
    var amt := Landed(def, hit);
    if amt <= 0.01 then atk
    else Credit(mode, atk, hit.tk, amt).(
           raided := atk.raided + amt, dmgDealt := atk.dmgDealt + amt, bestHit := Max(amt, atk.bestHit))
  }

  function LogOf(t: nat, atk: Fighter, def: Fighter, hit: Hit): seq<HitLog> {
    if Landed(def, hit) <= 0.01 then [] else [HitLog(t, atk.id, def.id, Landed(def, hit), hit.tk)]
  }

  function CapFor(def: Fighter, atk: Fighter, hitCapFrac: real, late: bool, duelBoost: real): real {
    if late && Ring(def) < Ring(atk) * FINISH_RATIO then Ring(def)
    else Min(Ring(def), Min(Ring(def), Ring(atk)) * hitCapFrac * duelBoost)
  }

  function Bury(f: Fighter): Fighter {
    if Ring(f) <= DustFor(f) then f.(dead := true) else f
  }

  /** Both blows are planned before either lands; `a` strikes first. */
  function Exchange(mode: Mode, a: Fighter, b: Fighter, hitOnB: Hit, hitOnA: Hit): (Fighter, Fighter) {
    var a1, b1 := Reward(mode, a, b, hitOnB), Suffer(b, hitOnB);
    var b2, a2 := Reward(mode, b1, a1, hitOnA), Suffer(a1, hitOnA);
    (a2, b2)
  }

  /** Losing a planned amount and gaining another are independent of their order. */
  lemma LossAndGainCommute(mode: Mode, f: Fighter, loss: Hit, foe: Fighter, gain: Hit)
    requires loss.amt <= Holding(f, loss.tk)
    ensures Landed(Reward(mode, f, foe, gain), loss) == Landed(f, loss) == loss.amt
    ensures Suffer(Reward(mode, f, foe, gain), loss) == Reward(mode, Suffer(f, loss), foe, gain)
  {
  }

  /** What a blow earns depends on the defender only through the amount that lands. */
  lemma RewardByAmount(mode: Mode, atk: Fighter, def: Fighter, def': Fighter, hit: Hit)
    requires Landed(def, hit) == Landed(def', hit)
    ensures Reward(mode, atk, def, hit) == Reward(mode, atk, def', hit)
  {
  }

  /** The two blows of one clash commute: planned on the snapshot, each lands exactly as planned
    * whichever goes first, because the first can only have added to its attacker's holdings. */
  lemma BlowsCommute(mode: Mode, a: Fighter, b: Fighter, dAB: real, dBA: real)
    ensures var onB, onA := PlanHit(b, dAB), PlanHit(a, dBA);
            var swapped := Exchange(mode, b, a, onA, onB);
            && Exchange(mode, a, b, onB, onA) == (swapped.1, swapped.0)
            && Landed(b, onB) == onB.amt && Landed(Reward(mode, a, b, onB), onA) == onA.amt
  {
    hide Reward, Suffer;
    var onB, onA := PlanHit(b, dAB), PlanHit(a, dBA);
    LossAndGainCommute(mode, a, onA, b, onB);
    LossAndGainCommute(mode, b, onB, a, onA);
    var a1, b1 := Reward(mode, a, b, onB), Reward(mode, b, a, onA);
    RewardByAmount(mode, Suffer(b, onB), a1, a, onA);
    RewardByAmount(mode, Suffer(a, onA), b1, b, onB);
  }

  // ---- one tick ----

  datatype Melee = Melee(F: seq<Fighter>, hits: seq<HitLog>)

  /** The blows a colliding pair plans: raw strength, capped by a share of the smaller position. */
  function Plans(cfg: Config, t: nat, duel: bool, a: Fighter, b: Fighter, raw: (real, real)): (Hit, Hit) {
    var late := 2 * t > cfg.steps;
    var boost := if duel then 1.0 + 3.0 * (t as real / Max(1.0, cfg.steps as real)) else 1.0;
    (PlanHit(b, Min(raw.0, CapFor(b, a, cfg.hitCapFrac, late, boost))),
     PlanHit(a, Min(raw.1, CapFor(a, b, cfg.hitCapFrac, late, boost))))
  }

  function ExchangeLog(mode: Mode, t: nat, a: Fighter, b: Fighter, onB: Hit, onA: Hit): seq<HitLog> {
    LogOf(t, a, b, onB) + LogOf(t, Suffer(b, onB), Reward(mode, a, b, onB), onA)
  }

  /** Own army and own wallet never trade blows, and neither do the fallen. */
  predicate Enemies(a: Fighter, b: Fighter) {
    !a.dead && !b.dead && a.side != b.side && OwnerOf(a.id) != OwnerOf(b.id)
  }

  function ClashAt(cfg: Config, phys: Physics, t: nat, duel: bool, x: Melee, i: nat, j: nat): (x': Melee)
    requires i < |x.F| && j < |x.F| && i != j
    ensures |x'.F| == |x.F|
  {
    var a, b := x.F[i], x.F[j];
    var contact := phys(t, i, j);
    if contact.None? || !Enemies(a, b) then x else
    var (onB, onA) := Plans(cfg, t, duel, a, b, contact.value);
    var (a2, b2) := Exchange(cfg.mode, a, b, onB, onA);
    Melee(x.F[i := Bury(a2)][j := Bury(b2)], x.hits + ExchangeLog(cfg.mode, t, a, b, onB, onA))
  }

  /** The double loop over `A`, from the pair at positions `i`, `j` on. */
  function ClashesFrom(cfg: Config, phys: Physics, t: nat, duel: bool, x: Melee, A: seq<nat>, i: nat, j: nat): (x': Melee)
    requires Roster(A, |x.F|) && i < j
    ensures |x'.F| == |x.F|
    decreases |A| - i, |A| - j
  {
    if i >= |A| then x
    else if j >= |A| then ClashesFrom(cfg, phys, t, duel, x, A, i + 1, i + 2)
    else ClashesFrom(cfg, phys, t, duel, ClashAt(cfg, phys, t, duel, x, A[i], A[j]), A, i, j + 1)
  }

  predicate Roster(A: seq<nat>, n: nat) {
    (forall k :: 0 <= k < |A| ==> A[k] < n) && forall k, l :: 0 <= k < l < |A| ==> A[k] < A[l]
  }

  function LivingFrom(F: seq<Fighter>, k: nat): (A: seq<nat>)
    requires k <= |F|
    ensures Roster(A, |F|) && forall l :: 0 <= l < |A| ==> k <= A[l] && Alive(F[A[l]])
    decreases |F| - k
  {
    if k == |F| then []
    else if Alive(F[k]) then [k] + LivingFrom(F, k + 1)
    else LivingFrom(F, k + 1)
  }

  function Count(F: seq<Fighter>, A: seq<nat>, side: Side): nat
    requires Roster(A, |F|)
  {
    if A == [] then 0 else (if F[A[0]].side == Army(side) then 1 else 0) + Count(F, A[1..], side)
  }

  datatype Sim = Sim(x: Melee, t: nat, endTick: nat, done: bool)

  function CreateSim(entries: seq<Entry>, cfg: Config): Sim {
    Sim(Melee(Muster(entries, cfg.matchTol), []), 0, cfg.steps, false)
  }

  function StepSim(cfg: Config, phys: Physics, s: Sim): Sim {
    if s.done then s else
    var A := LivingFrom(s.x.F, 0);
    var bulls, unis := Count(s.x.F, A, Bull), Count(s.x.F, A, Uwu);
    if bulls == 0 || unis == 0 then s.(endTick := s.t, done := true)
    else if s.t >= cfg.steps then s.(endTick := cfg.steps, done := true)
    else
      var x := ClashesFrom(cfg, phys, s.t, bulls == 1 && unis == 1, s.x, A, 0, 1);
      if s.t + 1 >= cfg.steps then Sim(x, s.t + 1, cfg.steps, true) else Sim(x, s.t + 1, s.endTick, false)
  }

  /** `while (!s.done) stepSim(s)`. */
  function Play(cfg: Config, phys: Physics, s: Sim): (r: Sim)
    ensures r.done
    decreases !s.done, cfg.steps - s.t
  {
    if s.done then s else Play(cfg, phys, StepSim(cfg, phys, s))
  }

  // ---- settlement ----

  /** What a fighter is paid in one token: what it holds in the ring and out of it, plus the refund of
    * its own stake's unmatched part. */
  function PayoutIn(tk: Side): Fighter -> real {
    (f: Fighter) => (if tk == Bull then f.bull + f.sBull else f.uwu + f.sUwu)
                    + (if f.side == Army(tk) then f.unmatched else 0.0)
  }

  datatype Payout = Payout(id: string, bull: real, uwu: real)

  function PayoutOf(f: Fighter): Payout {
    Payout(f.id, PayoutIn(Bull)(f), PayoutIn(Uwu)(f))
  }

  /** The settlement record: keyed by entry id, a repeated id keeping only its last fighter. */
  function Settlement(F: seq<Fighter>): map<string, Payout> {
    if F == [] then map[]
    else Settlement(F[..|F| - 1])[F[|F| - 1].id := PayoutOf(F[|F| - 1])]
  }

  function WorthOn(side: Side): Fighter -> real {
    (f: Fighter) => if f.side == Army(side) then Ring(f) + f.sBull + f.sUwu else 0.0
  }

  function WinnerOf(F: seq<Fighter>): Side {
    if SumR(F, WorthOn(Bull)) >= SumR(F, WorthOn(Uwu)) then Bull else Uwu
  }
}
