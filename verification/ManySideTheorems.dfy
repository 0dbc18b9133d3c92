/** What every N-army fight keeps, whatever its trajectory. */
module ManySideTheorems {
  import opened Basics
  import opened Sums
  import opened ManySideSim

  // ---- a plan asks for what is there, once ----

  /** No source twice, nothing but what the fighter holds, and never its own team's raided pot. */
  ghost predicate Fits(plan: seq<Take>, f: Fighter) {
    && (forall l :: 0 <= l < |plan| ==> Fit(plan[l], f))
    && forall l, m :: 0 <= l < m < |plan| ==> plan[l].src != plan[m].src
  }

  ghost predicate Fit(t: Take, f: Fighter) {
    t.amt <= Holding(f, t.src) && (t.src.Stolen? ==> t.src.team < |f.stolen| && t.src.team != f.team)
  }

  /** A fighter of an `n`-team arena that owes nothing: every holding is non-negative, it holds no
    * raided pot of its own team, and its worth is its stake plus its raids minus its losses. */
  ghost predicate Sound(f: Fighter, n: nat) {
    && |f.stolen| == n && f.team < n
    && f.own >= 0.0 && f.banked >= 0.0 && (forall k :: 0 <= k < n ==> f.stolen[k] >= 0.0)
    && f.stolen[f.team] == 0.0
    && Ring(f) + f.banked + f.unmatched == f.deposited + f.raided - f.dmgTaken
    && f.raided == f.dmgDealt >= 0.0 && f.dmgTaken >= 0.0
  }

  ghost predicate Distinct(ps: seq<nat>) {
    forall l, m :: 0 <= l < m < |ps| ==> ps[l] != ps[m]
  }

  lemma {:induction false} InsertSame(stolen: seq<real>, p: nat, ps: seq<nat>)
    requires p < |stolen| && Within(ps, |stolen|)
    ensures multiset(InsertPot(stolen, p, ps)) == multiset(ps) + multiset{p}
  {
    if ps != [] && stolen[ps[0]] > stolen[p] {
      InsertSame(stolen, p, ps[1..]);
      assert ps == [ps[0]] + ps[1..];
    }
  }

  lemma {:induction false} InsertDescending(stolen: seq<real>, p: nat, ps: seq<nat>)
    requires p < |stolen| && Within(ps, |stolen|) && Descending(stolen, ps)
    ensures Descending(stolen, InsertPot(stolen, p, ps))
  {
    if ps == [] {
    } else if stolen[ps[0]] <= stolen[p] {
      ConsDescending(stolen, p, ps);
    } else {
      var r := InsertPot(stolen, p, ps[1..]);
      InsertSame(stolen, p, ps[1..]);
      InsertDescending(stolen, p, ps[1..]);
      forall l | 0 <= l < |r|
        ensures stolen[ps[0]] >= stolen[r[l]]
      {
        assert r[l] in multiset(r);
      }
      ConsDescending(stolen, ps[0], r);
    }
  }

  lemma ConsDescending(stolen: seq<real>, p: nat, ps: seq<nat>)
    requires p < |stolen| && Within(ps, |stolen|) && Descending(stolen, ps)
    requires forall l :: 0 <= l < |ps| ==> stolen[p] >= stolen[ps[l]]
    ensures Within([p] + ps, |stolen|) && Descending(stolen, [p] + ps)
  {
  }

  ghost predicate Descending(stolen: seq<real>, ps: seq<nat>)
    requires Within(ps, |stolen|)
  {
    forall l, m :: 0 <= l < m < |ps| ==> stolen[ps[l]] >= stolen[ps[m]]
  }

  /** The pots in order: the same ones, largest first. */
  lemma {:induction false} LargestFirstSorts(stolen: seq<real>, ps: seq<nat>)
    requires Within(ps, |stolen|)
    ensures multiset(LargestFirst(stolen, ps)) == multiset(ps)
    ensures Descending(stolen, LargestFirst(stolen, ps))
  {
    if ps != [] {
      LargestFirstSorts(stolen, ps[1..]);
      InsertSame(stolen, ps[0], LargestFirst(stolen, ps[1..]));
      InsertDescending(stolen, ps[0], LargestFirst(stolen, ps[1..]));
      assert ps == [ps[0]] + ps[1..];
    }
  }

  lemma DistinctByMultiset(ps: seq<nat>, qs: seq<nat>)
    requires multiset(ps) == multiset(qs) && Distinct(ps)
    ensures Distinct(qs)
  {
    forall l, m | 0 <= l < m < |qs|
      ensures qs[l] != qs[m]
    {
      if qs[l] == qs[m] {
        Twice(qs, l, m);
        Once(ps, qs[l]);
        assert false;
      }
    }
  }

  lemma Twice(qs: seq<nat>, l: nat, m: nat)
    requires l < m < |qs| && qs[l] == qs[m]
    ensures multiset(qs)[qs[l]] >= 2
  {
    assert qs == qs[..m] + qs[m..];
    assert qs[..m][l] == qs[l] && qs[m..][0] == qs[m];
    assert qs[l] in multiset(qs[..m]) && qs[m] in multiset(qs[m..]);
  }

  lemma {:induction false} Once(ps: seq<nat>, p: nat)
    requires Distinct(ps)
    ensures multiset(ps)[p] <= 1
  {
    if ps != [] {
      Once(ps[1..], p);
      assert ps == [ps[0]] + ps[1..];
      if ps[0] == p && p in multiset(ps[1..]) {
        assert false;
      }
    }
  }

  /** What a walk over distinct pots takes: pot by pot in order, everything but perhaps the last in
    * full, exactly `min(left, all of them)` in all. */
  lemma {:induction false} GrabShape(stolen: seq<real>, ps: seq<nat>, left: real)
    requires Within(ps, |stolen|) && forall l :: 0 <= l < |ps| ==> stolen[ps[l]] > 0.0
    ensures var (plan, left') := Grab(stolen, ps, left);
            && |plan| <= |ps|
            && (forall l :: 0 <= l < |plan| ==> plan[l].src == Stolen(ps[l]) && plan[l].amt <= stolen[ps[l]])
            && (forall l :: 0 <= l < |plan| - 1 ==> plan[l].amt == stolen[ps[l]])
            && (left' > 0.0 ==> |plan| == |ps| && forall l :: 0 <= l < |plan| ==> plan[l].amt == stolen[ps[l]])
            && (left >= 0.0 ==> left' >= 0.0)
            && (left <= 0.0 ==> plan == [])
            && SumR(plan, AmountOf) == left - left'
  {
    if ps != [] && left > 0.0 {
      var take := Min(stolen[ps[0]], left);
      GrabShape(stolen, ps[1..], left - take);
      var (rest, left') := Grab(stolen, ps[1..], left - take);
      var plan := Grab(stolen, ps, left).0;
      assert plan == [Take(Stolen(ps[0]), take)] + rest;
      assert plan[1..] == rest;
    }
  }

  function AmountOf(t: Take): real { t.amt }

  function Order(f: Fighter): (ps: seq<nat>)
    ensures Within(ps, |f.stolen|)
  {
    LargestFirst(f.stolen, Pots(f.stolen, 0))
  }

  lemma OrderedPots(f: Fighter)
    ensures Distinct(Order(f)) && Descending(f.stolen, Order(f))
    ensures forall l :: 0 <= l < |Order(f)| ==> f.stolen[Order(f)[l]] > 0.001
    ensures forall k :: 0 <= k < |f.stolen| && f.stolen[k] > 0.001 ==> k in Order(f)
  {
    var raw, ps := Pots(f.stolen, 0), Order(f);
    LargestFirstSorts(f.stolen, raw);
    DistinctByMultiset(raw, ps);
    forall l | 0 <= l < |ps|
      ensures f.stolen[ps[l]] > 0.001
    {
      assert ps[l] in multiset(raw);
    }
    forall k | 0 <= k < |f.stolen| && f.stolen[k] > 0.001
      ensures k in ps
    {
      PotsComplete(f.stolen, 0, k);
      assert k in multiset(ps);
    }
  }

  /** A plan is a walk over the pots in order, and perhaps own coin after it. */
  ghost predicate Walked(f: Fighter, ps: seq<nat>, pots: seq<Take>, left: real)
    requires Within(ps, |f.stolen|)
  {
    && |pots| <= |ps|
    && (forall l :: 0 <= l < |pots| ==> pots[l].src == Stolen(ps[l]) && pots[l].amt <= f.stolen[ps[l]])
    && (forall l :: 0 <= l < |pots| - 1 ==> pots[l].amt == f.stolen[ps[l]])
    && (left > 0.0 ==> |pots| == |ps| && forall l :: 0 <= l < |pots| ==> pots[l].amt == f.stolen[ps[l]])
  }

  lemma PlanParts(f: Fighter, want: real) returns (ps: seq<nat>, pots: seq<Take>, left: real)
    ensures Within(ps, |f.stolen|) && Distinct(ps) && Descending(f.stolen, ps) && Walked(f, ps, pots, left)
    ensures forall l :: 0 <= l < |ps| ==> f.stolen[ps[l]] > 0.001
    ensures forall k :: 0 <= k < |f.stolen| && f.stolen[k] > 0.001 ==> k in ps
    ensures TakeFrom(f, want) == pots
            || (left > 0.0 && f.own > 0.0 && TakeFrom(f, want) == pots + [Take(Own, Min(f.own, left))])
    ensures SumR(pots, AmountOf) == want - left && (want >= 0.0 ==> left >= 0.0)
  {
    hide LargestFirst, Pots, Grab;
    ps := Order(f);
    OrderedPots(f);
    GrabShape(f.stolen, ps, want);
    pots, left := Grab(f.stolen, ps, want).0, Grab(f.stolen, ps, want).1;
  }

  /** A plan asks only for what is there, and never for more than the blow is worth. */
  lemma PlanFits(f: Fighter, n: nat, want: real)
    requires Sound(f, n)
    ensures Fits(TakeFrom(f, want), f)
    ensures want >= 0.0 ==> SumR(TakeFrom(f, want), AmountOf) <= want
  {
    hide TakeFrom, Ring, Descending;
    var ps, pots, left := PlanParts(f, want);
    SumAppendR(pots, [Take(Own, Min(f.own, left))], AmountOf);
  }

  /** Raided coin is lost first, largest pot first: of two things a plan takes, the earlier is a raided
    * pot at least as large as the later, and it is taken in full. */
  lemma LargestPotFirst(f: Fighter, n: nat, want: real, l: nat, m: nat)
    requires Sound(f, n) && l < m < |TakeFrom(f, want)|
    ensures var x, y := TakeFrom(f, want)[l], TakeFrom(f, want)[m];
            && x.src.Stolen? && x.src.team < n && x.amt == f.stolen[x.src.team]
            && (y.src.Stolen? ==> y.src.team < n && x.amt >= f.stolen[y.src.team])
  {
    hide TakeFrom, Ring;
    var ps, pots, left := PlanParts(f, want);
    if m < |pots| {
      assert f.stolen[ps[l]] >= f.stolen[ps[m]];
    }
  }

  /** A fighter's own coin goes only when every pot above the speck is taken in full. */
  lemma OwnCoinGoesLast(f: Fighter, n: nat, want: real, k: nat)
    requires Sound(f, n) && k < n && f.stolen[k] > 0.001
    requires exists l :: 0 <= l < |TakeFrom(f, want)| && TakeFrom(f, want)[l].src == Own
    ensures Take(Stolen(k), f.stolen[k]) in TakeFrom(f, want)
  {
    hide TakeFrom, Ring, Descending;
    var ps, pots, left := PlanParts(f, want);
    var i :| 0 <= i < |ps| && ps[i] == k;
    if left > 0.0 {
      assert pots[i] == Take(Stolen(k), f.stolen[k]);
    }
  }

  lemma {:induction false} PotsComplete(stolen: seq<real>, k: nat, p: nat)
    requires k <= p < |stolen| && stolen[p] > 0.001
    ensures p in Pots(stolen, k)
    decreases p - k
  {
    if k < p {
      PotsComplete(stolen, k + 1, p);
    }
  }

  // ---- what a fitting plan does ----

  function Lost(f: Fighter, plan: seq<Take>): Fighter
    decreases |plan|
  {
    if plan == [] then f
    else Lost(if plan[0].amt <= 0.005 then f else Lose(f, plan[0].src, plan[0].amt), plan[1..])
  }

  function Won(mode: Mode, f: Fighter, team: nat, plan: seq<Take>): Fighter
    decreases |plan|
  {
    if plan == [] then f
    else Won(mode, if plan[0].amt <= 0.005 then f else Win(mode, f, CoinOf(plan[0].src, team), plan[0].amt),
             team, plan[1..])
  }

  function Got(plan: seq<Take>): real
    decreases |plan|
  {
    if plan == [] then 0.0 else (if plan[0].amt <= 0.005 then 0.0 else plan[0].amt) + Got(plan[1..])
  }

  lemma FitsRest(plan: seq<Take>, f: Fighter)
    requires plan != [] && Fits(plan, f)
    ensures Fits(plan[1..], f)
    ensures Fits(plan[1..], Lose(f, plan[0].src, plan[0].amt))
  {
    var g := Lose(f, plan[0].src, plan[0].amt);
    forall l | 0 <= l < |plan[1..]|
      ensures Fit(plan[1..][l], f) && Fit(plan[1..][l], g)
    {
      assert plan[1..][l] == plan[l + 1] && plan[0].src != plan[l + 1].src;
    }
  }

  /** A fitting plan lands item by item exactly as planned. */
  lemma {:induction false} LandsAsPlanned(mode: Mode, x: Landing, plan: seq<Take>)
    requires Fits(plan, x.def)
    ensures Land(mode, x, plan)
         == Landing(Won(mode, x.atk, x.def.team, plan), Lost(x.def, plan), x.got + Got(plan))
    decreases |plan|
  {
    if plan != [] {
      FitsRest(plan, x.def);
      assert Fit(plan[0], x.def);
      if plan[0].amt <= 0.005 {
        LandsAsPlanned(mode, x, plan[1..]);
      } else {
        var next := Landing(Win(mode, x.atk, CoinOf(plan[0].src, x.def.team), plan[0].amt),
                            Lose(x.def, plan[0].src, plan[0].amt), x.got + plan[0].amt);
        LandsAsPlanned(mode, next, plan[1..]);
      }
    }
  }

  lemma ApplyAsPlanned(mode: Mode, atk: Fighter, def: Fighter, plan: seq<Take>)
    requires Fits(plan, def)
    ensures Apply(mode, atk, def, plan)
         == (Scored(Won(mode, atk, def.team, plan), Got(plan)), Hurt(Lost(def, plan), Got(plan)))
  {
    LandsAsPlanned(mode, Landing(atk, def, 0.0), plan);
  }

  /** A blow changes nobody's name or team. */
  lemma {:induction false} LandKeepsNames(mode: Mode, x: Landing, plan: seq<Take>)
    ensures var y := Land(mode, x, plan);
            && y.atk.id == x.atk.id && y.atk.team == x.atk.team && y.def.id == x.def.id && y.def.team == x.def.team
    decreases |plan|
  {
    if plan != [] {
      var take := Min(plan[0].amt, Holding(x.def, plan[0].src));
      LandKeepsNames(mode, if take <= 0.005 then x else
        Landing(Win(mode, x.atk, CoinOf(plan[0].src, x.def.team), take), Lose(x.def, plan[0].src, take), x.got + take), plan[1..]);
    }
  }

  // ---- the two blows commute ----

  lemma LoseAfterWin(mode: Mode, f: Fighter, coin: nat, gain: real, src: Src, loss: real)
    ensures Lose(Win(mode, f, coin, gain), src, loss) == Win(mode, Lose(f, src, loss), coin, gain)
  {
    if src.Stolen? && src.team < |f.stolen| && coin < |f.stolen| && src.team != coin {
      var k := src.team;
      assert f.stolen[coin := f.stolen[coin] + gain][k := f.stolen[k] - loss]
          == f.stolen[k := f.stolen[k] - loss][coin := f.stolen[coin] + gain];
    } else if src.Stolen? && src.team < |f.stolen| && coin == src.team {
      assert f.stolen[coin := f.stolen[coin] + gain][coin := f.stolen[coin] + gain - loss]
          == f.stolen[coin := f.stolen[coin] - loss][coin := f.stolen[coin] - loss + gain];
    }
  }

  lemma {:induction false} LostAfterWin(mode: Mode, f: Fighter, coin: nat, gain: real, plan: seq<Take>)
    ensures Lost(Win(mode, f, coin, gain), plan) == Win(mode, Lost(f, plan), coin, gain)
    decreases |plan|
  {
    hide Win, Lose;
    if plan != [] {
      LoseAfterWin(mode, f, coin, gain, plan[0].src, plan[0].amt);
      LostAfterWin(mode, if plan[0].amt <= 0.005 then f else Lose(f, plan[0].src, plan[0].amt), coin, gain, plan[1..]);
    }
  }

  lemma {:induction false} LostAfterWon(mode: Mode, f: Fighter, team: nat, gains: seq<Take>, plan: seq<Take>)
    ensures Lost(Won(mode, f, team, gains), plan) == Won(mode, Lost(f, plan), team, gains)
    decreases |gains|
  {
    hide Win, Lose;
    if gains != [] {
      LostAfterWin(mode, f, CoinOf(gains[0].src, team), gains[0].amt, plan);
      var f1 := if gains[0].amt <= 0.005 then f else Win(mode, f, CoinOf(gains[0].src, team), gains[0].amt);
      LostAfterWon(mode, f1, team, gains[1..], plan);
    }
  }

  lemma {:induction false} LostAfterScored(f: Fighter, got: real, plan: seq<Take>)
    ensures Lost(Scored(f, got), plan) == Scored(Lost(f, plan), got)
    decreases |plan|
  {
    if plan != [] {
      LostAfterScored(if plan[0].amt <= 0.005 then f else Lose(f, plan[0].src, plan[0].amt), got, plan[1..]);
    }
  }

  lemma {:induction false} WonAfterHurt(mode: Mode, f: Fighter, got: real, team: nat, plan: seq<Take>)
    ensures Won(mode, Hurt(f, got), team, plan) == Hurt(Won(mode, f, team, plan), got)
    decreases |plan|
  {
    if plan != [] {
      WonAfterHurt(mode, if plan[0].amt <= 0.005 then f else Win(mode, f, CoinOf(plan[0].src, team), plan[0].amt),
                   got, team, plan[1..]);
    }
  }

  /** Winning coin never makes another plan ask too much. */
  lemma {:induction false} FitsAfterWon(mode: Mode, f: Fighter, team: nat, gains: seq<Take>, plan: seq<Take>)
    requires Fits(plan, f)
    ensures Fits(plan, Won(mode, f, team, gains))
    ensures Won(mode, f, team, gains).team == f.team
    decreases |gains|
  {
    if gains != [] {
      var f1 := if gains[0].amt <= 0.005 then f else Win(mode, f, CoinOf(gains[0].src, team), gains[0].amt);
      forall l | 0 <= l < |plan|
        ensures Fit(plan[l], f1)
      {
        assert Fit(plan[l], f);
      }
      FitsAfterWon(mode, f1, team, gains[1..], plan);
    }
  }

  lemma {:induction false} LostKeepsTeam(f: Fighter, plan: seq<Take>)
    ensures Lost(f, plan).team == f.team
    decreases |plan|
  {
    if plan != [] {
      LostKeepsTeam(if plan[0].amt <= 0.005 then f else Lose(f, plan[0].src, plan[0].amt), plan[1..]);
    }
  }

  /** What one order of the two blows leaves of the fighter struck second. */
  lemma ExchangeShape(mode: Mode, a: Fighter, b: Fighter, planB: seq<Take>, planA: seq<Take>)
    requires Fits(planB, b) && Fits(planA, a)
    ensures Exchange(mode, a, b, planB, planA)
         == (Hurt(Scored(Won(mode, Lost(a, planA), b.team, planB), Got(planB)), Got(planA)),
             Scored(Hurt(Won(mode, Lost(b, planB), a.team, planA), Got(planB)), Got(planA)))
  {
    hide Fits, Win, Lose, Land;
    ApplyAsPlanned(mode, a, b, planB);
    var a1, b1 := Scored(Won(mode, a, b.team, planB), Got(planB)), Hurt(Lost(b, planB), Got(planB));
    FitsAfterWon(mode, a, b.team, planB, planA);
    FitsByHoldings(planA, Won(mode, a, b.team, planB), a1);
    ApplyAsPlanned(mode, b1, a1, planA);
    LostAfterScored(Won(mode, a, b.team, planB), Got(planB), planA);
    LostAfterWon(mode, a, b.team, planB, planA);
    WonAfterHurt(mode, Lost(b, planB), Got(planB), a.team, planA);
  }

  lemma FitsByHoldings(plan: seq<Take>, f: Fighter, g: Fighter)
    requires Fits(plan, f) && g.own == f.own && g.stolen == f.stolen && g.team == f.team
    ensures Fits(plan, g)
  {
    forall l | 0 <= l < |plan|
      ensures Fit(plan[l], g)
    {
      assert Fit(plan[l], f);
    }
  }

  /** The two blows of one clash commute in both modes: whichever lands first, both fighters end with
    * the same holdings and the same record. */
  lemma BlowsCommute(mode: Mode, n: nat, a: Fighter, b: Fighter, wantB: real, wantA: real)
    requires Sound(a, n) && Sound(b, n)
    ensures var planB, planA := TakeFrom(b, wantB), TakeFrom(a, wantA);
            var swapped := Exchange(mode, b, a, planA, planB);
            Exchange(mode, a, b, planB, planA) == (swapped.1, swapped.0)
  {
    hide Fits, Won, Lost, TakeFrom, Got, Sound;
    PlanFits(b, n, wantB);
    PlanFits(a, n, wantA);
    ExchangeShape(mode, a, b, TakeFrom(b, wantB), TakeFrom(a, wantA));
    ExchangeShape(mode, b, a, TakeFrom(a, wantA), TakeFrom(b, wantB));
  }
}
