/** What a blow of the N-army fight is, told apart from how it is computed: how much a plan takes, where
  * the loot goes, who meets whom in a tick, and when a fighter or a fight is over. */
module ManySideBlows {
  import opened Basics
  import opened Sums
  import opened ManySideSim
  import opened ManySideTheorems
  import opened ManySideLedger
  import opened Pairs

  // ---- how much a plan takes ----

  function AboveSpeck(x: real): real { if x > 0.001 then x else 0.0 }

  /** What the raided pots worth taking from come to. */
  function PotsWorth(f: Fighter): real { SumR(f.stolen, AboveSpeck) }

  function PotAt(stolen: seq<real>): nat -> real {
    (p: nat) => if p < |stolen| then stolen[p] else 0.0
  }

  lemma {:induction false} PotsSum(stolen: seq<real>, k: nat)
    requires k <= |stolen|
    ensures SumR(Pots(stolen, k), PotAt(stolen)) == SumR(stolen[k..], AboveSpeck)
    decreases |stolen| - k
  {
    if k < |stolen| {
      PotsSum(stolen, k + 1);
      assert stolen[k..][1..] == stolen[k + 1..];
      if stolen[k] > 0.001 {
        assert ([k] + Pots(stolen, k + 1))[1..] == Pots(stolen, k + 1);
      }
    }
  }

  lemma {:induction false} InsertSum(stolen: seq<real>, p: nat, ps: seq<nat>)
    requires p < |stolen| && Within(ps, |stolen|)
    ensures SumR(InsertPot(stolen, p, ps), PotAt(stolen)) == stolen[p] + SumR(ps, PotAt(stolen))
  {
    if ps == [] || stolen[ps[0]] <= stolen[p] {
      assert ([p] + ps)[1..] == ps;
    } else {
      InsertSum(stolen, p, ps[1..]);
      assert ([ps[0]] + InsertPot(stolen, p, ps[1..]))[1..] == InsertPot(stolen, p, ps[1..]);
    }
  }

  lemma {:induction false} OrderKeepsSum(stolen: seq<real>, ps: seq<nat>)
    requires Within(ps, |stolen|)
    ensures SumR(LargestFirst(stolen, ps), PotAt(stolen)) == SumR(ps, PotAt(stolen))
  {
    if ps != [] {
      OrderKeepsSum(stolen, ps[1..]);
      InsertSum(stolen, ps[0], LargestFirst(stolen, ps[1..]));
    }
  }

  /** A walk over pots leaves exactly what they do not cover. */
  lemma {:induction false} GrabLeaves(stolen: seq<real>, ps: seq<nat>, left: real)
    requires Within(ps, |stolen|) && left >= 0.0 && forall l :: 0 <= l < |ps| ==> stolen[ps[l]] > 0.0
    ensures Grab(stolen, ps, left).1 == Max(0.0, left - SumR(ps, PotAt(stolen)))
    ensures SumR(ps, PotAt(stolen)) >= 0.0
  {
    if ps != [] {
      var take := Min(stolen[ps[0]], left);
      GrabLeaves(stolen, ps[1..], left - take);
    }
  }

  /** A plan takes exactly the blow, or all there is to take: the pots above the speck and own coin. Own
    * coin is in it exactly when the pots do not cover the blow and there is some. */
  lemma TakesTheWholeBlow(f: Fighter, n: nat, want: real)
    requires Sound(f, n) && want >= 0.0
    ensures SumR(TakeFrom(f, want), AmountOf) == Min(want, f.own + PotsWorth(f))
    ensures (exists l :: 0 <= l < |TakeFrom(f, want)| && TakeFrom(f, want)[l].src == Own)
            <==> want > PotsWorth(f) && f.own > 0.0
  {
    hide Ring, Grab, SumR, AboveSpeck, AmountOf;
    var pots, left := GrabbedExactly(f, want);
    var own := Take(Own, Min(f.own, left));
    var plan := TakeFrom(f, want);
    OwnPart(pots, own);
    PotsHoldNoOwn(pots);
    if left > 0.0 && f.own > 0.0 {
      assert plan == pots + [own] && plan[|pots|].src == Own;
    } else {
      assert plan == pots;
    }
  }

  lemma PotsHoldNoOwn(pots: seq<Take>)
    requires forall l :: 0 <= l < |pots| ==> pots[l].src.Stolen?
    ensures !exists l :: 0 <= l < |pots| && pots[l].src == Own
  {
  }

  lemma OwnPart(pots: seq<Take>, own: Take)
    ensures SumR(pots + [own], AmountOf) == SumR(pots, AmountOf) + own.amt
  {
    SumAppendR(pots, [own], AmountOf);
  }

  lemma GrabbedExactly(f: Fighter, want: real) returns (pots: seq<Take>, left: real)
    requires want >= 0.0
    ensures (pots, left) == Grab(f.stolen, LargestFirst(f.stolen, Pots(f.stolen, 0)), want)
    ensures left == Max(0.0, want - PotsWorth(f)) && SumR(pots, AmountOf) == want - left
    ensures forall l :: 0 <= l < |pots| ==> pots[l].src.Stolen?
  {
    hide Grab, Pots, LargestFirst, SumR, AboveSpeck;
    var ps := Order(f);
    OrderedPots(f);
    OrderKeepsSum(f.stolen, Pots(f.stolen, 0));
    PotsSum(f.stolen, 0);
    assert f.stolen[0..] == f.stolen;
    GrabLeaves(f.stolen, ps, want);
    GrabShape(f.stolen, ps, want);
    var g := Grab(f.stolen, ps, want);
    pots, left := g.0, g.1;
  }

  // ---- the cap on a blow ----

  /** The most a blow may take: a share of either ring, whichever is smaller; but past half time all of a
    * ring that is below 8% of the attacker's. */
  ghost predicate IsCap(cap: real, def: Fighter, atk: Fighter, share: real, late: bool) {
    var mine, his := def.own + SumR(def.stolen, Itself), atk.own + SumR(atk.stolen, Itself);
    if late && 100.0 * mine < 8.0 * his then cap == mine
    else cap <= mine * share && cap <= his * share && (cap == mine * share || cap == his * share)
  }

  ghost predicate IsBlow(cfg: Config, t: nat, plan: seq<Take>, def: Fighter, atk: Fighter, raw: real) {
    exists cap: real :: IsCap(cap, def, atk, cfg.hitCapFrac, 2 * t > cfg.steps) && plan == TakeFrom(def, Min(raw, cap))
  }

  lemma CapIs(def: Fighter, atk: Fighter, share: real, late: bool)
    requires share >= 0.0
    ensures IsCap(CapFor(def, atk, share, late), def, atk, share, late)
  {
    hide SumR;
    LesserShare(Ring(def), Ring(atk), share);
  }

  lemma LesserShare(mine: real, his: real, share: real)
    requires share >= 0.0
    ensures var cap := Min(mine, his) * share;
            cap <= mine * share && cap <= his * share && (cap == mine * share || cap == his * share)
  {
    if mine < his {
      assert (his - mine) * share >= 0.0;
    } else {
      assert (mine - his) * share >= 0.0;
    }
  }

  lemma BothAreBlows(cfg: Config, t: nat, a: Fighter, b: Fighter, raw: (real, real))
    requires cfg.hitCapFrac >= 0.0
    ensures var (planB, planA) := Plans(cfg, t, a, b, raw);
            IsBlow(cfg, t, planB, b, a, raw.0) && IsBlow(cfg, t, planA, a, b, raw.1)
  {
    hide CapFor, IsCap, TakeFrom;
    CapIs(b, a, cfg.hitCapFrac, 2 * t > cfg.steps);
    CapIs(a, b, cfg.hitCapFrac, 2 * t > cfg.steps);
  }

  // ---- where the loot goes ----

  /** What a plan takes from one source, by the items large enough to land. */
  function FromSrc(plan: seq<Take>, src: Src): real
    decreases |plan|
  {
    if plan == [] then 0.0
    else (if plan[0].amt > 0.005 && plan[0].src == src then plan[0].amt else 0.0) + FromSrc(plan[1..], src)
  }

  /** What a fighter of team `mine` gets of coin `k` from a plan against one of team `his`. */
  function LootOf(mode: Mode, plan: seq<Take>, his: nat, k: nat): real {
    if mode == Normal then CoinsIn(plan, his, k) else 0.0
  }

  lemma {:induction false} LostIs(f: Fighter, n: nat, plan: seq<Take>)
    requires Rich(f, n) && Fits(plan, f)
    ensures var g := Lost(f, plan);
            && g.own == f.own - FromSrc(plan, Own) && |g.stolen| == n
            && (forall k :: 0 <= k < n ==> g.stolen[k] == f.stolen[k] - FromSrc(plan, Stolen(k)))
            && g == f.(own := g.own, stolen := g.stolen)
    decreases |plan|
  {
    hide Ring, SumR;
    if plan != [] {
      FitsRest(plan, f);
      assert Fit(plan[0], f);
      if plan[0].amt <= 0.005 {
        LostIs(f, n, plan[1..]);
      } else {
        LoseEffect(f, n, plan[0]);
        LostIs(Lose(f, plan[0].src, plan[0].amt), n, plan[1..]);
      }
    }
  }

  /** In normal mode loot enters the ring, own coin as own and everybody else's in its pot; in extraction
    * mode all of it is banked. */
  lemma {:induction false} WonIs(mode: Mode, f: Fighter, n: nat, team: nat, plan: seq<Take>)
    requires |f.stolen| == n && forall l :: 0 <= l < |plan| ==> CoinOf(plan[l].src, team) < n
    ensures var g := Won(mode, f, team, plan);
            && g.own == f.own + LootOf(mode, plan, team, f.team) && |g.stolen| == n
            && (forall k :: 0 <= k < n ==> g.stolen[k] == f.stolen[k] + (if k != f.team then LootOf(mode, plan, team, k) else 0.0))
            && g.banked == f.banked + (if mode == Extraction then Got(plan) else 0.0)
            && g == f.(own := g.own, stolen := g.stolen, banked := g.banked)
    decreases |plan|
  {
    hide Ring, SumR;
    if plan != [] {
      if plan[0].amt <= 0.005 {
        WonIs(mode, f, n, team, plan[1..]);
      } else {
        WonIs(mode, Win(mode, f, CoinOf(plan[0].src, team), plan[0].amt), n, team, plan[1..]);
      }
    }
  }

  /** `f` lost what one plan took and won what the other did, and its statistics say so. */
  ghost predicate Traded(mode: Mode, n: nat, f: Fighter, f': Fighter, foe: nat, lost: seq<Take>, won: seq<Take>) {
    && |f.stolen| == |f'.stolen| == n
    && f'.own == f.own - FromSrc(lost, Own) + LootOf(mode, won, foe, f.team)
    && (forall k :: 0 <= k < n ==>
          f'.stolen[k] == f.stolen[k] - FromSrc(lost, Stolen(k)) + (if k != f.team then LootOf(mode, won, foe, k) else 0.0))
    && f'.banked == f.banked + (if mode == Extraction then Got(won) else 0.0)
    && f'.raided == f.raided + Got(won) && f'.dmgDealt == f.dmgDealt + Got(won) && f'.dmgTaken == f.dmgTaken + Got(lost)
    && f'.bestHit == (if Got(won) > f.bestHit && Got(won) > 0.005 then Got(won) else f.bestHit)
    && f'.id == f.id && f'.team == f.team && f'.deposited == f.deposited && f'.unmatched == f.unmatched
  }

  lemma BothTrade(mode: Mode, n: nat, a: Fighter, b: Fighter, planB: seq<Take>, planA: seq<Take>)
    requires Sound(a, n) && Sound(b, n) && Fits(planB, b) && Fits(planA, a)
    ensures var (a2, b2) := Exchange(mode, a, b, planB, planA);
            && Traded(mode, n, a, a2, b.team, planA, planB) && Traded(mode, n, b, b2, a.team, planB, planA)
            && a2.dead == a.dead && b2.dead == b.dead
  {
    hide Lost, Won, Got, Exchange, FromSrc, CoinsIn, SumR;
    ExchangeShape(mode, a, b, planB, planA);
    InArena(n, a, planA);
    InArena(n, b, planB);
    LostIs(a, n, planA);
    LostIs(b, n, planB);
    WonIs(mode, Lost(a, planA), n, b.team, planB);
    WonIs(mode, Lost(b, planB), n, a.team, planA);
    GotNonNeg(planA);
    GotNonNeg(planB);
  }

  lemma InArena(n: nat, f: Fighter, plan: seq<Take>)
    requires Sound(f, n) && Fits(plan, f)
    ensures forall l :: 0 <= l < |plan| ==> CoinOf(plan[l].src, f.team) < n
  {
    hide Ring;
    forall l | 0 <= l < |plan|
      ensures CoinOf(plan[l].src, f.team) < n
    {
      assert Fit(plan[l], f);
    }
  }

  // ---- one clash ----

  /** A fighter is out for good once its ring is down to its dust: half a cent or 3% of its deposit. */
  ghost predicate Buried(f: Fighter, f': Fighter) {
    var ring := f'.own + SumR(f'.stolen, Itself);
    f'.dead <==> f.dead || ring <= 0.005 || 100.0 * ring <= 3.0 * f.deposited
  }

  /** Two fighters that touch trade blows exactly when both are standing and on different teams. */
  ghost predicate Meets(x: Melee, i: nat, j: nat, contact: Option<(real, real)>)
    requires i < |x.F| && j < |x.F|
  {
    contact.Some? && !x.F[i].dead && !x.F[j].dead && x.F[i].team != x.F[j].team
  }

  ghost predicate Clashed(cfg: Config, t: nat, n: nat, x: Melee, x': Melee, i: nat, j: nat, planB: seq<Take>, planA: seq<Take>, raw: (real, real))
    requires i < |x.F| && j < |x.F| && |x'.F| == |x.F|
  {
    var a, b, a', b' := x.F[i], x.F[j], x'.F[i], x'.F[j];
    && IsBlow(cfg, t, planB, b, a, raw.0) && IsBlow(cfg, t, planA, a, b, raw.1)
    && Traded(cfg.mode, n, a, a', b.team, planA, planB) && Traded(cfg.mode, n, b, b', a.team, planB, planA)
    && Buried(a, a') && Buried(b, b')
    && (forall k :: 0 <= k < |x.F| && k != i && k != j ==> x'.F[k] == x.F[k])
    && x'.hits == x.hits + (if Got(planB) > 0.005 then [HitLog(t, a.id, b.id, Got(planB))] else [])
                         + (if Got(planA) > 0.005 then [HitLog(t, b.id, a.id, Got(planA))] else [])
  }

  /** What one pair does in a tick, in full: nothing unless they meet; and if they do, both blows, planned on
    * what each held before, change the two and the log, and nothing else. */
  lemma ClashIsTwoBlows(cfg: Config, phys: Physics, t: nat, n: nat, x: Melee, i: nat, j: nat) returns (planB: seq<Take>, planA: seq<Take>)
    requires i < |x.F| && j < |x.F| && i != j && Sound(x.F[i], n) && Sound(x.F[j], n) && cfg.hitCapFrac >= 0.0
    ensures var x' := ClashAt(cfg, phys, t, x, i, j);
            if Meets(x, i, j, phys(t, i, j)) then Clashed(cfg, t, n, x, x', i, j, planB, planA, phys(t, i, j).value)
            else x' == x
  {
    hide Plans, Exchange, ExchangeLog, IsBlow, Traded, Bury, Sound, Got, TakeFrom, Fits;
    planB, planA := [], [];
    if Meets(x, i, j, phys(t, i, j)) {
      var a, b, raw := x.F[i], x.F[j], phys(t, i, j).value;
      var plans := Plans(cfg, t, a, b, raw);
      planB, planA := plans.0, plans.1;
      PlansFit(cfg, t, n, a, b, raw);
      BothAreBlows(cfg, t, a, b, raw);
      BothTrade(cfg.mode, n, a, b, planB, planA);
      var (a2, b2) := Exchange(cfg.mode, a, b, planB, planA);
      BuriedTrade(cfg.mode, n, a, a2, b.team, planA, planB);
      BuriedTrade(cfg.mode, n, b, b2, a.team, planB, planA);
      LogIs(cfg.mode, t, a, b, planB, planA);
    }
  }

  lemma PlansFit(cfg: Config, t: nat, n: nat, a: Fighter, b: Fighter, raw: (real, real))
    requires Sound(a, n) && Sound(b, n)
    ensures var (planB, planA) := Plans(cfg, t, a, b, raw); Fits(planB, b) && Fits(planA, a)
  {
    hide TakeFrom, Fits, CapFor, Sound;
    var late := 2 * t > cfg.steps;
    PlanFits(b, n, Min(raw.0, CapFor(b, a, cfg.hitCapFrac, late)));
    PlanFits(a, n, Min(raw.1, CapFor(a, b, cfg.hitCapFrac, late)));
  }

  lemma BuriedTrade(mode: Mode, n: nat, f: Fighter, f': Fighter, foe: nat, lost: seq<Take>, won: seq<Take>)
    requires Traded(mode, n, f, f', foe, lost, won) && f'.dead == f.dead
    ensures Traded(mode, n, f, Bury(f'), foe, lost, won) && Buried(f, Bury(f'))
  {
    hide Got, FromSrc, SumR, CoinsIn;
  }

  lemma LogIs(mode: Mode, t: nat, a: Fighter, b: Fighter, planB: seq<Take>, planA: seq<Take>)
    requires Fits(planB, b) && Fits(planA, a)
    ensures ExchangeLog(mode, t, a, b, planB, planA)
         == (if Got(planB) > 0.005 then [HitLog(t, a.id, b.id, Got(planB))] else [])
            + (if Got(planA) > 0.005 then [HitLog(t, b.id, a.id, Got(planA))] else [])
  {
    hide Land, Won, Lost, Got, Fits;
    LandsAsPlanned(mode, Landing(a, b, 0.0), planB);
    ApplyAsPlanned(mode, a, b, planB);
    var (a1, b1) := Apply(mode, a, b, planB);
    FitsAfterWon(mode, a, b.team, planB, planA);
    FitsByHoldings(planA, Won(mode, a, b.team, planB), a1);
    LandsAsPlanned(mode, Landing(b1, a1, 0.0), planA);
    LandKeepsNames(mode, Landing(a, b, 0.0), planB);
  }

  // ---- one tick ----

  /** The roster of a tick is exactly the fighters on their feet with more than dust in the ring. */
  lemma {:induction false} RosterIsTheLiving(F: seq<Fighter>, k: nat, l: nat)
    requires k <= l < |F|
    ensures var ring := F[l].own + SumR(F[l].stolen, Itself);
            l in LivingFrom(F, k) <==> !F[l].dead && ring > 0.005 && 100.0 * ring > 3.0 * F[l].deposited
    decreases l - k
  {
    hide SumR;
    if k < l {
      RosterIsTheLiving(F, k + 1, l);
    }
  }

  /** One clash after the other, over a list of pairs of the roster. */
  function ClashAll(cfg: Config, phys: Physics, t: nat, x: Melee, A: seq<nat>, ps: seq<(nat, nat)>): (x': Melee)
    requires Roster(A, |x.F|) && forall k :: 0 <= k < |ps| ==> ps[k].0 < ps[k].1 < |A|
    ensures |x'.F| == |x.F|
    decreases |ps|
  {
    if ps == [] then x
    else ClashAll(cfg, phys, t, ClashAt(cfg, phys, t, x, A[ps[0].0], A[ps[0].1]), A, ps[1..])
  }

  lemma {:induction false} ClashesAreAll(cfg: Config, phys: Physics, t: nat, x: Melee, A: seq<nat>, i: nat, j: nat)
    requires Roster(A, |x.F|) && i < j
    ensures forall k :: 0 <= k < |PairsFrom(|A|, i, j)| ==> PairsFrom(|A|, i, j)[k].0 < PairsFrom(|A|, i, j)[k].1 < |A|
    ensures ClashesFrom(cfg, phys, t, x, A, i, j) == ClashAll(cfg, phys, t, x, A, PairsFrom(|A|, i, j))
    decreases |A| - i, |A| - j
  {
    hide ClashAt;
    if i < |A| {
      if j >= |A| {
        ClashesAreAll(cfg, phys, t, x, A, i + 1, i + 2);
      } else {
        ClashesAreAll(cfg, phys, t, ClashAt(cfg, phys, t, x, A[i], A[j]), A, i, j + 1);
        var rest := PairsFrom(|A|, i, j + 1);
        assert ([(i, j)] + rest)[1..] == rest;
      }
    }
  }

  /** In a tick every two fighters of the roster get their clash, once, in roster order. */
  lemma EveryPairClashesOnce(cfg: Config, phys: Physics, t: nat, x: Melee, A: seq<nat>) returns (ps: seq<(nat, nat)>)
    requires Roster(A, |x.F|)
    ensures EachPairOnce(ps, |A|)
    ensures ClashesFrom(cfg, phys, t, x, A, 0, 1) == ClashAll(cfg, phys, t, x, A, ps)
  {
    hide ClashAll, ClashesFrom;
    ps := PairsFrom(|A|, 0, 1);
    AllPairs(|A|);
    ClashesAreAll(cfg, phys, t, x, A, 0, 1);
  }

  // ---- how a fight goes on, and when it is over ----

  /** Nobody stands against anybody. */
  ghost predicate Decided(F: seq<Fighter>) {
    forall k, l :: 0 <= k < |F| && 0 <= l < |F| && Alive(F[k]) && Alive(F[l]) ==> F[k].team == F[l].team
  }

  lemma {:induction false} LivingAreListed(F: seq<Fighter>, k: nat, l: nat)
    requires k <= l < |F| && Alive(F[l])
    ensures l in LivingFrom(F, k)
    decreases l - k
  {
    hide Alive;
    if k < l {
      LivingAreListed(F, k + 1, l);
    }
  }

  lemma OneTeamIsDecided(F: seq<Fighter>)
    ensures OneTeamLeft(F, LivingFrom(F, 0)) <==> Decided(F)
  {
    hide Alive;
    var A := LivingFrom(F, 0);
    if OneTeamLeft(F, A) {
      forall k, l | 0 <= k < |F| && 0 <= l < |F| && Alive(F[k]) && Alive(F[l])
        ensures F[k].team == F[l].team
      {
        LivingAreListed(F, 0, k);
        LivingAreListed(F, 0, l);
      }
    }
  }

  /** A fight is played tick by tick, every pair clashing in each, until it is decided or time is up. */
  lemma TickIs(cfg: Config, phys: Physics, t: nat, x: Melee)
    requires t <= cfg.steps
    ensures (t == cfg.steps || Decided(x.F)) ==> PlayFrom(cfg, phys, t, x) == x
    ensures t < cfg.steps && !Decided(x.F) ==>
              PlayFrom(cfg, phys, t, x) == PlayFrom(cfg, phys, t + 1, ClashesFrom(cfg, phys, t, x, LivingFrom(x.F, 0), 0, 1))
  {
    hide ClashesFrom, Decided;
    OneTeamIsDecided(x.F);
  }
}
