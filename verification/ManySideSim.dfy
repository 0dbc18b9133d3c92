/** The N-army fight: three-way and free-for-all arenas. A fighter's ring holds its own coin and a
  * pot of coin raided from each team. Collisions are an arbitrary oracle, as in the two-army fight. */
module ManySideSim {
  import opened Basics
  import opened Sums

  datatype Mode = Normal | Extraction

  datatype MatchRule = Median | Smallest | Unmatched

  datatype Entry = Entry(id: string, team: nat, stake: real)

  datatype Fighter = Fighter(
    id: string, team: nat, own: real, stolen: seq<real>, banked: real, unmatched: real,
    deposited: real, raided: real, dmgDealt: real, dmgTaken: real, bestHit: real, dead: bool)

  /** `teams == 0` is the free-for-all: every fighter its own team. */
  datatype Config = Config(mode: Mode, teams: nat, hitCapFrac: real, steps: nat, rule: MatchRule)

  datatype HitLog = HitLog(t: nat, atk: string, def: string, amt: real)

  /** The field at one moment: the fighters, and every hit so far. */
  datatype Melee = Melee(F: seq<Fighter>, hits: seq<HitLog>)

  datatype Src = Own | Stolen(team: nat)

  datatype Take = Take(src: Src, amt: real)

  type Physics = (nat, nat, nat) -> Option<(real, real)>

  const FINISH_RATIO: real := 0.08
  const DUST_FRAC: real := 0.03

  function Itself(x: real): real { x }

  function Ring(f: Fighter): real { f.own + SumR(f.stolen, Itself) }

  function DustFor(f: Fighter): real { Max(0.005, f.deposited * DUST_FRAC) }

  predicate Alive(f: Fighter) { !f.dead && Ring(f) > DustFor(f) }

  // ---- the matched book ----

  function TeamOf(cfg: Config, entries: seq<Entry>, i: nat): nat
    requires i < |entries|
  {
    if cfg.teams == 0 then i else entries[i].team
  }

  function TeamCount(cfg: Config, entries: seq<Entry>): nat {
    if cfg.teams == 0 then |entries| else cfg.teams
  }

  /** What the first `i` entries staked on `team`. */
  function TeamTotal(cfg: Config, entries: seq<Entry>, i: nat, team: nat): real
    requires i <= |entries|
  {
    if i == 0 then 0.0
    else TeamTotal(cfg, entries, i - 1, team)
         + (if TeamOf(cfg, entries, i - 1) == team then entries[i - 1].stake else 0.0)
  }

  function Totals(cfg: Config, entries: seq<Entry>): seq<real> {
    seq(TeamCount(cfg, entries), (k: nat) => TeamTotal(cfg, entries, |entries|, k))
  }

  function InsertReal(x: real, s: seq<real>): seq<real> {
    if s == [] || x <= s[0] then [x] + s else [s[0]] + InsertReal(x, s[1..])
  }

  function SortReals(s: seq<real>): (r: seq<real>)
    ensures |r| == |s|
  {
    if s == [] then [] else SortedLength(s[0], SortReals(s[1..])); InsertReal(s[0], SortReals(s[1..]))
  }

  lemma {:induction false} SortedLength(x: real, s: seq<real>)
    ensures |InsertReal(x, s)| == |s| + 1
  {
    if s != [] && x > s[0] {
      SortedLength(x, s[1..]);
    }
  }

  function FirstPositive(s: seq<real>): real {
    if s == [] then 0.0 else if s[0] > 0.0 then s[0] else FirstPositive(s[1..])
  }

  /** The most any one team may put in play; `None` is no limit. */
  function CapPer(cfg: Config, totals: seq<real>): Option<real> {
    if cfg.teams == 0 || cfg.rule == Unmatched || |totals| < 2 then None else
    var sorted := SortReals(totals);
    var cap := if cfg.rule == Smallest then sorted[0] else sorted[(|sorted| - 1) / 2];
    Some(if cap <= 0.0 then FirstPositive(sorted) else cap)
  }

  function Frac(total: real, capPer: Option<real>): real {
    if total > 0.0 && capPer.Some? then Min(1.0, capPer.value / total) else 1.0
  }

  function Enlist(id: string, team: nat, nTeams: nat, stake: real, inPlay: real): Fighter {
    Fighter(id, team, inPlay, seq(nTeams, _ => 0.0), 0.0, stake - inPlay, stake, 0.0, 0.0, 0.0, 0.0, false)
  }

  function InPlay(stake: real, frac: real): real { stake * frac }

  function FracOf(cfg: Config, entries: seq<Entry>, team: nat): real
    requires team < TeamCount(cfg, entries)
  {
    var totals := Totals(cfg, entries);
    Frac(totals[team], CapPer(cfg, totals))
  }

  /** Every entry names a team of the arena. */
  ghost predicate TeamsExist(cfg: Config, entries: seq<Entry>) {
    cfg.teams != 0 ==> forall i :: 0 <= i < |entries| ==> entries[i].team < cfg.teams
  }

  function Muster(cfg: Config, entries: seq<Entry>): (fs: seq<Fighter>)
    requires TeamsExist(cfg, entries)
    ensures |fs| == |entries|
  {
    seq(|entries|, i requires 0 <= i < |entries| =>
      var team := TeamOf(cfg, entries, i);
      Enlist(entries[i].id, team, TeamCount(cfg, entries), entries[i].stake,
             InPlay(entries[i].stake, FracOf(cfg, entries, team))))
  }

  // ---- planning a blow ----

  /** The raided pots worth taking from, in team order. */
  function Pots(stolen: seq<real>, k: nat): (ps: seq<nat>)
    requires k <= |stolen|
    ensures forall l :: 0 <= l < |ps| ==> k <= ps[l] < |stolen| && stolen[ps[l]] > 0.001
    ensures forall l, m :: 0 <= l < m < |ps| ==> ps[l] < ps[m]
    decreases |stolen| - k
  {
    if k == |stolen| then []
    else if stolen[k] > 0.001 then [k] + Pots(stolen, k + 1)
    else Pots(stolen, k + 1)
  }

  ghost predicate Within(ps: seq<nat>, n: nat) {
    forall l :: 0 <= l < |ps| ==> ps[l] < n
  }

  /** Stable insertion, largest pot first. */
  function InsertPot(stolen: seq<real>, p: nat, ps: seq<nat>): (r: seq<nat>)
    requires p < |stolen| && Within(ps, |stolen|)
    ensures Within(r, |stolen|)
  {
    if ps == [] || stolen[ps[0]] <= stolen[p] then [p] + ps else [ps[0]] + InsertPot(stolen, p, ps[1..])
  }

  function LargestFirst(stolen: seq<real>, ps: seq<nat>): (r: seq<nat>)
    requires Within(ps, |stolen|)
    ensures Within(r, |stolen|)
  {
    if ps == [] then [] else InsertPot(stolen, ps[0], LargestFirst(stolen, ps[1..]))
  }

  /** Walk the pots until nothing is left to take. */
  function Grab(stolen: seq<real>, ps: seq<nat>, left: real): (r: (seq<Take>, real))
    requires Within(ps, |stolen|)
  {
    if ps == [] || left <= 0.0 then ([], left) else
    var take := Min(stolen[ps[0]], left);
    var (rest, left') := Grab(stolen, ps[1..], left - take);
    ([Take(Stolen(ps[0]), take)] + rest, left')
  }

  function TakeFrom(def: Fighter, want: real): seq<Take> {
    var (pots, left) := Grab(def.stolen, LargestFirst(def.stolen, Pots(def.stolen, 0)), want);
    var own := Min(def.own, left);
    if left > 0.0 && own > 0.0 then pots + [Take(Own, own)] else pots
  }

  // ---- landing a blow ----

  function Holding(f: Fighter, src: Src): real {
    match src
    case Own => f.own
    case Stolen(k) => if k < |f.stolen| then f.stolen[k] else 0.0
  }

  function Lose(f: Fighter, src: Src, amt: real): Fighter {
    match src
    case Own => f.(own := f.own - amt)
    case Stolen(k) => if k < |f.stolen| then f.(stolen := f.stolen[k := f.stolen[k] - amt]) else f
  }

  /** Whose coin a source of `team`'s fighter holds. */
  function CoinOf(src: Src, team: nat): nat {
    match src case Own => team case Stolen(k) => k
  }

  function Win(mode: Mode, f: Fighter, coin: nat, amt: real): Fighter {
    if mode == Extraction then f.(banked := f.banked + amt)
    else if coin == f.team then f.(own := f.own + amt)
    else if coin < |f.stolen| then f.(stolen := f.stolen[coin := f.stolen[coin] + amt])
    else f
  }

  datatype Landing = Landing(atk: Fighter, def: Fighter, got: real)

  function Land(mode: Mode, x: Landing, plan: seq<Take>): Landing
    decreases |plan|
  {
    if plan == [] then x else
    var take := Min(plan[0].amt, Holding(x.def, plan[0].src));
    if take <= 0.005 then Land(mode, x, plan[1..]) else
    Land(mode, Landing(Win(mode, x.atk, CoinOf(plan[0].src, x.def.team), take),
                       Lose(x.def, plan[0].src, take), x.got + take), plan[1..])
  }

  function Scored(f: Fighter, got: real): Fighter {
    if got <= 0.005 then f
    else f.(raided := f.raided + got, dmgDealt := f.dmgDealt + got, bestHit := Max(got, f.bestHit))
  }

  function Hurt(f: Fighter, got: real): Fighter {
    if got <= 0.005 then f else f.(dmgTaken := f.dmgTaken + got)
  }

  /** `a` strikes `b` by a plan. */
  function Apply(mode: Mode, atk: Fighter, def: Fighter, plan: seq<Take>): (Fighter, Fighter) {
    var x := Land(mode, Landing(atk, def, 0.0), plan);
    (Scored(x.atk, x.got), Hurt(x.def, x.got))
  }

  /** What a blow logs: nothing when it is too small to register. */
  function LogOf(mode: Mode, t: nat, atk: Fighter, def: Fighter, plan: seq<Take>): seq<HitLog> {
    var got := Land(mode, Landing(atk, def, 0.0), plan).got;
    if got <= 0.005 then [] else [HitLog(t, atk.id, def.id, got)]
  }

  /** Both plans are made before either blow; `a` strikes first. */
  function Exchange(mode: Mode, a: Fighter, b: Fighter, planB: seq<Take>, planA: seq<Take>): (Fighter, Fighter) {
    var (a1, b1) := Apply(mode, a, b, planB);
    var (b2, a2) := Apply(mode, b1, a1, planA);
    (a2, b2)
  }

  function ExchangeLog(mode: Mode, t: nat, a: Fighter, b: Fighter, planB: seq<Take>, planA: seq<Take>): seq<HitLog> {
    var (a1, b1) := Apply(mode, a, b, planB);
    LogOf(mode, t, a, b, planB) + LogOf(mode, t, b1, a1, planA)
  }

  function CapFor(def: Fighter, atk: Fighter, hitCapFrac: real, late: bool): real {
    if late && Ring(def) < Ring(atk) * FINISH_RATIO then Ring(def)
    else Min(Ring(def), Ring(atk)) * hitCapFrac
  }

  function Bury(f: Fighter): Fighter {
    if Ring(f) <= DustFor(f) then f.(dead := true) else f
  }

  function Plans(cfg: Config, t: nat, a: Fighter, b: Fighter, raw: (real, real)): (seq<Take>, seq<Take>) {
    var late := 2 * t > cfg.steps;
    (TakeFrom(b, Min(raw.0, CapFor(b, a, cfg.hitCapFrac, late))),
     TakeFrom(a, Min(raw.1, CapFor(a, b, cfg.hitCapFrac, late))))
  }

  function ClashAt(cfg: Config, phys: Physics, t: nat, x: Melee, i: nat, j: nat): (x': Melee)
    requires i < |x.F| && j < |x.F| && i != j
    ensures |x'.F| == |x.F|
  {
    var a, b := x.F[i], x.F[j];
    var contact := phys(t, i, j);
    if a.dead || b.dead || contact.None? || a.team == b.team then x else
    var (planB, planA) := Plans(cfg, t, a, b, contact.value);
    var (a2, b2) := Exchange(cfg.mode, a, b, planB, planA);
    Melee(x.F[i := Bury(a2)][j := Bury(b2)], x.hits + ExchangeLog(cfg.mode, t, a, b, planB, planA))
  }

  predicate Roster(A: seq<nat>, n: nat) {
    (forall k :: 0 <= k < |A| ==> A[k] < n) && forall k, l :: 0 <= k < l < |A| ==> A[k] < A[l]
  }

  function LivingFrom(F: seq<Fighter>, k: nat): (A: seq<nat>)
    requires k <= |F|
    ensures Roster(A, |F|) && forall l :: 0 <= l < |A| ==> k <= A[l] && Alive(F[A[l]])
    decreases |F| - k
  {
    if k == |F| then []
    else if Alive(F[k]) then [k] + LivingFrom(F, k + 1)
    else LivingFrom(F, k + 1)
  }

  function ClashesFrom(cfg: Config, phys: Physics, t: nat, x: Melee, A: seq<nat>, i: nat, j: nat): (x': Melee)
    requires Roster(A, |x.F|) && i < j
    ensures |x'.F| == |x.F|
    decreases |A| - i, |A| - j
  {
    if i >= |A| then x
    else if j >= |A| then ClashesFrom(cfg, phys, t, x, A, i + 1, i + 2)
    else ClashesFrom(cfg, phys, t, ClashAt(cfg, phys, t, x, A[i], A[j]), A, i, j + 1)
  }

  predicate OneTeamLeft(F: seq<Fighter>, A: seq<nat>)
    requires Roster(A, |F|)
  {
    forall k :: 0 <= k < |A| ==> F[A[k]].team == F[A[0]].team
  }

  function PlayFrom(cfg: Config, phys: Physics, t: nat, x: Melee): (x': Melee)
    ensures |x'.F| == |x.F|
    decreases cfg.steps - t
  {
    if t >= cfg.steps then x else
    var A := LivingFrom(x.F, 0);
    if OneTeamLeft(x.F, A) then x else PlayFrom(cfg, phys, t + 1, ClashesFrom(cfg, phys, t, x, A, 0, 1))
  }

  function Payout(f: Fighter): real { Ring(f) + f.banked + f.unmatched }

  function Simulate(cfg: Config, phys: Physics, entries: seq<Entry>): (x: Melee)
    requires TeamsExist(cfg, entries)
    ensures |x.F| == |entries|
  {
    PlayFrom(cfg, phys, 0, Melee(Muster(cfg, entries), []))
  }

  /** The search for the biggest bag from fighter `k` on, with the best so far. */
  function Leading(F: seq<Fighter>, k: nat, bestBag: real, id: string): string
    requires k <= |F|
    decreases |F| - k
  {
    if k == |F| then id
    else if Payout(F[k]) > bestBag then Leading(F, k + 1, Payout(F[k]), F[k].id)
    else Leading(F, k + 1, bestBag, id)
  }

  function WinnerId(F: seq<Fighter>): string { Leading(F, 0, -1.0, "") }
}
