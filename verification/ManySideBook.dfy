/** The N-army matched book, and settlement of a whole N-army round. */
module ManySideBook {
  import opened Basics
  import opened Sums
  import opened ManySideSim
  import opened ManySideTheorems
  import opened ManySideLedger

  ghost predicate Stakes(entries: seq<Entry>) {
    forall i :: 0 <= i < |entries| ==> entries[i].stake >= 0.0
  }

  // ---- sorting the team totals ----

  function CountAtMost(s: seq<real>, x: real): nat {
    if s == [] then 0 else (if s[0] <= x then 1 else 0) + CountAtMost(s[1..], x)
  }

  function CountAtLeast(s: seq<real>, x: real): nat {
    if s == [] then 0 else (if s[0] >= x then 1 else 0) + CountAtLeast(s[1..], x)
  }

  ghost predicate Ascending(s: seq<real>) {
    forall i, j :: 0 <= i < j < |s| ==> s[i] <= s[j]
  }

  lemma {:induction false} InsertRealCounts(x: real, s: seq<real>, y: real)
    ensures CountAtMost(InsertReal(x, s), y) == CountAtMost([x] + s, y)
    ensures CountAtLeast(InsertReal(x, s), y) == CountAtLeast([x] + s, y)
  {
    assert ([x] + s)[1..] == s;
    if s != [] && x > s[0] {
      InsertRealCounts(x, s[1..], y);
      assert ([x] + s[1..])[1..] == s[1..];
      assert ([s[0]] + InsertReal(x, s[1..]))[1..] == InsertReal(x, s[1..]);
    }
  }

  lemma {:induction false} InsertRealKeeps(x: real, s: seq<real>)
    ensures forall y :: y in InsertReal(x, s) <==> y == x || y in s
  {
    if s != [] && x > s[0] {
      InsertRealKeeps(x, s[1..]);
      assert s == [s[0]] + s[1..];
    }
  }

  lemma {:induction false} InsertRealSorts(x: real, s: seq<real>)
    requires Ascending(s)
    ensures Ascending(InsertReal(x, s))
  {
    if s == [] {
    } else if x <= s[0] {
      ConsAscending(x, s);
    } else {
      InsertRealSorts(x, s[1..]);
      InsertRealKeeps(x, s[1..]);
      var rest := InsertReal(x, s[1..]);
      forall j | 0 <= j < |rest|
        ensures s[0] <= rest[j]
      {
        assert rest[j] in rest;
      }
      ConsAscending(s[0], rest);
    }
  }

  lemma ConsAscending(x: real, s: seq<real>)
    requires Ascending(s) && forall j :: 0 <= j < |s| ==> x <= s[j]
    ensures Ascending([x] + s)
  {
  }

  lemma {:induction false} SortRealsSorts(s: seq<real>)
    ensures Ascending(SortReals(s))
    ensures forall y :: y in SortReals(s) <==> y in s
    ensures forall y :: CountAtMost(SortReals(s), y) == CountAtMost(s, y)
    ensures forall y :: CountAtLeast(SortReals(s), y) == CountAtLeast(s, y)
  {
    if s != [] {
      var rest := SortReals(s[1..]);
      SortRealsSorts(s[1..]);
      InsertRealSorts(s[0], rest);
      InsertRealKeeps(s[0], rest);
      assert s == [s[0]] + s[1..];
      assert ([s[0]] + rest)[1..] == rest;
      forall y
        ensures CountAtMost(SortReals(s), y) == CountAtMost(s, y) && CountAtLeast(SortReals(s), y) == CountAtLeast(s, y)
      {
        InsertRealCounts(s[0], rest, y);
      }
    }
  }

  lemma {:induction false} FirstPositiveIsLeast(s: seq<real>)
    requires Ascending(s)
    ensures FirstPositive(s) == 0.0 || (FirstPositive(s) > 0.0 && FirstPositive(s) in s)
    ensures forall i :: 0 <= i < |s| && s[i] > 0.0 ==> 0.0 < FirstPositive(s) <= s[i]
  {
    if s != [] && s[0] <= 0.0 {
      FirstPositiveIsLeast(s[1..]);
      forall i | 0 <= i < |s| && s[i] > 0.0
        ensures 0.0 < FirstPositive(s) <= s[i]
      {
        assert s[i] == s[1..][i - 1];
      }
      if FirstPositive(s[1..]) > 0.0 {
        assert FirstPositive(s) in s[1..];
      }
    }
  }

  lemma {:induction false} AllAtMost(s: seq<real>, x: real)
    requires forall i :: 0 <= i < |s| ==> s[i] <= x
    ensures CountAtMost(s, x) == |s|
  {
    if s != [] {
      AllAtMost(s[1..], x);
    }
  }

  lemma {:induction false} AllAtLeast(s: seq<real>, x: real)
    requires forall i :: 0 <= i < |s| ==> s[i] >= x
    ensures CountAtLeast(s, x) == |s|
  {
    if s != [] {
      AllAtLeast(s[1..], x);
    }
  }

  lemma {:induction false} RankCounts(s: seq<real>, m: nat)
    requires Ascending(s) && m < |s|
    ensures CountAtMost(s, s[m]) >= m + 1
    ensures CountAtLeast(s, s[m]) >= |s| - m
  {
    if m == 0 {
      AllAtLeast(s, s[0]);
    } else {
      RankCounts(s[1..], m - 1);
    }
  }

  /** The limit each rule sets, over any team totals: under the smallest-team rule the least positive
    * total; under the median rule a total with at least half the teams on either side of it, unless
    * that is nothing, when it falls back to the least positive one. */
  lemma CapMeaning(cfg: Config, totals: seq<real>)
    requires forall k :: 0 <= k < |totals| ==> totals[k] >= 0.0
    ensures CapPer(cfg, totals).None? <==> cfg.teams == 0 || cfg.rule == Unmatched || |totals| < 2
    ensures CapPer(cfg, totals).Some? ==> (
              var cap := CapPer(cfg, totals).value;
              && cap >= 0.0
              && (cap == 0.0 <==> forall k :: 0 <= k < |totals| ==> totals[k] == 0.0)
              && (cap > 0.0 ==> cap in totals)
              && (cfg.rule == Smallest ==> IsLeastPositive(cap, totals))
              && (cfg.rule == Median ==> IsLeastPositive(cap, totals) || IsMedian(cap, totals)))
  {
    if CapPer(cfg, totals).Some? {
      hide SortReals, FirstPositive;
      var sorted := SortReals(totals);
      SortRealsSorts(totals);
      FirstPositiveIsLeast(sorted);
      RankCounts(sorted, (|sorted| - 1) / 2);
      forall y | y in sorted
        ensures y >= 0.0 && sorted[0] <= y
      {
        assert y in totals;
      }
      assert forall k :: 0 <= k < |totals| ==> totals[k] in sorted;
      var mid := sorted[(|sorted| - 1) / 2];
      assert sorted[0] in totals && mid in totals;
    }
  }

  ghost predicate IsLeastPositive(cap: real, totals: seq<real>) {
    forall k :: 0 <= k < |totals| && totals[k] > 0.0 ==> cap <= totals[k]
  }

  ghost predicate IsMedian(cap: real, totals: seq<real>) {
    2 * CountAtMost(totals, cap) >= |totals| && 2 * CountAtLeast(totals, cap) >= |totals|
  }

  // ---- what each team puts in play ----

  function InPlayOn(k: nat): Fighter -> real {
    (f: Fighter) => if f.team == k then Ring(f) else 0.0
  }

  lemma {:induction false} TeamTotalNonNeg(cfg: Config, entries: seq<Entry>, i: nat, team: nat)
    requires Stakes(entries) && i <= |entries|
    ensures TeamTotal(cfg, entries, i, team) >= 0.0
    ensures forall j :: 0 <= j < i && TeamOf(cfg, entries, j) == team ==>
              entries[j].stake <= TeamTotal(cfg, entries, i, team)
    decreases i
  {
    if i > 0 {
      TeamTotalNonNeg(cfg, entries, i - 1, team);
    }
  }

  lemma TotalsNonNeg(cfg: Config, entries: seq<Entry>)
    requires Stakes(entries)
    ensures forall k :: 0 <= k < |Totals(cfg, entries)| ==> Totals(cfg, entries)[k] >= 0.0
  {
    forall k: nat | k < |Totals(cfg, entries)|
      ensures Totals(cfg, entries)[k] >= 0.0
    {
      TeamTotalNonNeg(cfg, entries, |entries|, k);
    }
  }

  lemma {:induction false} ZerosSum(n: nat)
    ensures SumR(seq(n, _ => 0.0), Itself) == 0.0
  {
    if n > 0 {
      ZerosSum(n - 1);
      assert seq(n, _ => 0.0)[1..] == seq(n - 1, _ => 0.0);
    }
  }

  /** The share of a total that is played, for every total and limit. */
  lemma FracTimesTotal(total: real, capPer: Option<real>)
    requires total >= 0.0 && (capPer.Some? ==> capPer.value >= 0.0)
    ensures 0.0 <= Frac(total, capPer) <= 1.0
    ensures InPlay(total, Frac(total, capPer)) == if capPer.Some? then Min(total, capPer.value) else total
  {
    if total > 0.0 && capPer.Some? {
      var q := capPer.value / total;
      assert q * total == capPer.value;
      if q >= 1.0 {
        assert capPer.value >= total by {
          assert (q - 1.0) * total >= 0.0;
        }
      } else {
        assert (1.0 - q) * total > 0.0;
      }
    }
  }

  lemma PartOf(stake: real, frac: real)
    requires stake >= 0.0 && 0.0 <= frac <= 1.0
    ensures 0.0 <= InPlay(stake, frac) <= stake
  {
    assert stake * (1.0 - frac) >= 0.0;
  }

  lemma FracWithin(cfg: Config, entries: seq<Entry>, team: nat)
    requires Stakes(entries) && team < TeamCount(cfg, entries)
    ensures 0.0 <= FracOf(cfg, entries, team) <= 1.0
    ensures var cap := CapPer(cfg, Totals(cfg, entries));
            var total := TeamTotal(cfg, entries, |entries|, team);
            InPlay(total, FracOf(cfg, entries, team)) == if cap.Some? then Min(total, cap.value) else total
  {
    hide CapPer, Frac, TeamTotal, InPlay;
    TotalsNonNeg(cfg, entries);
    CapMeaning(cfg, Totals(cfg, entries));
    FracTimesTotal(Totals(cfg, entries)[team], CapPer(cfg, Totals(cfg, entries)));
  }

  lemma TeamInRange(cfg: Config, entries: seq<Entry>, i: nat)
    requires TeamsExist(cfg, entries) && i < |entries|
    ensures TeamOf(cfg, entries, i) < TeamCount(cfg, entries)
  {
  }

  /** In play plus refund is the stake, neither is negative, and the fighter starts owing nothing. */
  lemma StakesSplit(cfg: Config, entries: seq<Entry>, i: nat)
    requires TeamsExist(cfg, entries) && Stakes(entries) && i < |entries|
    ensures var e, f, team := entries[i], Muster(cfg, entries)[i], TeamOf(cfg, entries, i);
            && f.id == e.id && f.team == team < TeamCount(cfg, entries) && f.deposited == e.stake
            && Ring(f) == InPlay(e.stake, FracOf(cfg, entries, team))
            && Ring(f) + f.unmatched == e.stake && Ring(f) >= 0.0 && f.unmatched >= 0.0 && f.banked == 0.0
            && Sound(f, TeamCount(cfg, entries))
            && forall k :: 0 <= k < TeamCount(cfg, entries) ==> TokenOf(k)(f) == if k == team then Ring(f) else 0.0
  {
    hide InPlay, FracOf;
    var team := TeamOf(cfg, entries, i);
    TeamInRange(cfg, entries, i);
    FracWithin(cfg, entries, team);
    PartOf(entries[i].stake, FracOf(cfg, entries, team));
    EnlistSound(entries[i].id, team, TeamCount(cfg, entries), entries[i].stake,
                InPlay(entries[i].stake, FracOf(cfg, entries, team)));
  }

  lemma EnlistSound(id: string, team: nat, n: nat, stake: real, inPlay: real)
    requires team < n && 0.0 <= inPlay <= stake
    ensures var f := Enlist(id, team, n, stake, inPlay);
            Sound(f, n) && Ring(f) == inPlay
            && forall k :: 0 <= k < n ==> TokenOf(k)(f) == if k == team then inPlay else 0.0
  {
    ZerosSum(n);
  }

  lemma Distribute(x: real, stake: real, frac: real)
    ensures InPlay(x + stake, frac) == InPlay(x, frac) + InPlay(stake, frac)
    ensures InPlay(0.0, frac) == 0.0
  {
  }

  lemma {:induction false} TeamInPlay(cfg: Config, entries: seq<Entry>, k: nat, i: nat)
    requires TeamsExist(cfg, entries) && Stakes(entries) && i <= |entries| && k < TeamCount(cfg, entries)
    ensures SumR(Muster(cfg, entries)[..i], InPlayOn(k)) == InPlay(TeamTotal(cfg, entries, i, k), FracOf(cfg, entries, k))
    decreases i
  {
    hide Muster, FracOf, InPlay, Ring, Sound, TokenOf;
    Distribute(0.0, 0.0, FracOf(cfg, entries, k));
    if i > 0 {
      var x, stake, frac := TeamTotal(cfg, entries, i - 1, k), entries[i - 1].stake, FracOf(cfg, entries, k);
      TeamInPlay(cfg, entries, k, i - 1);
      SumSnocR(Muster(cfg, entries), i - 1, InPlayOn(k));
      StakesSplit(cfg, entries, i - 1);
      Distribute(x, if TeamOf(cfg, entries, i - 1) == k then stake else 0.0, frac);
    }
  }

  /** Every team puts in play exactly the smaller of its total and the limit, whatever the rule. */
  lemma MatchedBook(cfg: Config, entries: seq<Entry>, k: nat)
    requires TeamsExist(cfg, entries) && Stakes(entries) && k < TeamCount(cfg, entries)
    ensures var cap, total := CapPer(cfg, Totals(cfg, entries)), TeamTotal(cfg, entries, |entries|, k);
            SumR(Muster(cfg, entries), InPlayOn(k)) == if cap.Some? then Min(total, cap.value) else total
  {
    hide CapPer, TeamTotal, FracOf, InPlay, Muster;
    assert Muster(cfg, entries)[..|entries|] == Muster(cfg, entries);
    TeamInPlay(cfg, entries, k, |entries|);
    FracWithin(cfg, entries, k);
  }

  /** Under the smallest-team rule every team that staked at all puts in play the same amount: the
    * smallest positive team total. */
  lemma SmallestRuleIsEven(cfg: Config, entries: seq<Entry>, k: nat, l: nat)
    requires TeamsExist(cfg, entries) && Stakes(entries) && cfg.rule == Smallest && 2 <= cfg.teams
    requires k < cfg.teams && l < cfg.teams
    requires TeamTotal(cfg, entries, |entries|, k) > 0.0 && TeamTotal(cfg, entries, |entries|, l) > 0.0
    ensures var even := SumR(Muster(cfg, entries), InPlayOn(k));
            && even == SumR(Muster(cfg, entries), InPlayOn(l))
            && 0.0 < even <= TeamTotal(cfg, entries, |entries|, l)
            && exists m: nat :: m < cfg.teams && even == TeamTotal(cfg, entries, |entries|, m)
  {
    hide CapPer, TeamTotal, Muster;
    var totals := Totals(cfg, entries);
    MatchedBook(cfg, entries, k);
    MatchedBook(cfg, entries, l);
    TotalsNonNeg(cfg, entries);
    CapMeaning(cfg, totals);
    assert totals[k] == TeamTotal(cfg, entries, |entries|, k) && totals[l] == TeamTotal(cfg, entries, |entries|, l);
    var cap := CapPer(cfg, totals).value;
    var m :| 0 <= m < |totals| && totals[m] == cap;
    assert totals[m] == TeamTotal(cfg, entries, |entries|, m);
  }

  // ---- a whole round ----

  lemma StartKeeps(cfg: Config, entries: seq<Entry>)
    requires TeamsExist(cfg, entries) && Stakes(entries)
    ensures var M := Muster(cfg, entries); Books(cfg.mode, TeamCount(cfg, entries), M, M)
  {
    hide Sound, Muster;
    var M := Muster(cfg, entries);
    forall i | 0 <= i < |M|
      ensures Sound(M[i], TeamCount(cfg, entries))
    {
      StakesSplit(cfg, entries, i);
    }
  }

  function StakeOf(e: Entry): real { e.stake }

  function Refund(f: Fighter): real { f.unmatched }

  function RefundOn(k: nat): Fighter -> real {
    (f: Fighter) => if f.team == k then f.unmatched else 0.0
  }

  /** Team `k`'s own coin: what the fighter holds of it and what of it the fighter is refunded. */
  function CoinAndRefund(k: nat): Fighter -> real {
    (f: Fighter) => TokenOf(k)(f) + RefundOn(k)(f)
  }

  lemma {:induction false} StartCoin(cfg: Config, entries: seq<Entry>, k: nat, i: nat)
    requires TeamsExist(cfg, entries) && Stakes(entries) && i <= |entries| && k < TeamCount(cfg, entries)
    ensures SumR(Muster(cfg, entries)[..i], CoinAndRefund(k)) == TeamTotal(cfg, entries, i, k)
    decreases i
  {
    hide Muster, Ring, TokenOf, Sound;
    if i > 0 {
      StartCoin(cfg, entries, k, i - 1);
      SumSnocR(Muster(cfg, entries), i - 1, CoinAndRefund(k));
      StakesSplit(cfg, entries, i - 1);
    }
  }

  /** Every fighter is paid its stake plus what it raided minus what was taken from it, and never less
    * than its refund. */
  ghost predicate FairPay(e: Entry, f: Fighter) {
    f.id == e.id && Payout(f) == e.stake + f.raided - f.dmgTaken && Payout(f) >= f.unmatched >= 0.0
  }

  lemma SoundPays(e: Entry, f: Fighter, n: nat)
    requires Sound(f, n) && f.id == e.id && f.deposited == e.stake && f.unmatched >= 0.0
    ensures FairPay(e, f)
  {
    forall x | x in f.stolen
      ensures Itself(x) >= 0.0
    {
    }
    SumNonNegR(f.stolen, Itself);
  }

  /** A whole round on any trajectory: the payouts add up to exactly the stakes, every payout is fair,
    * and in normal mode each team's original coin, wherever it ended up, adds up to what that team
    * staked. */
  lemma RoundConserves(cfg: Config, phys: Physics, entries: seq<Entry>)
    requires TeamsExist(cfg, entries) && Stakes(entries)
    ensures var F := Simulate(cfg, phys, entries).F;
            && SumR(F, Payout) == SumR(entries, StakeOf)
            && (forall i :: 0 <= i < |F| ==> FairPay(entries[i], F[i]) && Sound(F[i], TeamCount(cfg, entries)))
            && (cfg.mode == Normal ==> forall k :: 0 <= k < TeamCount(cfg, entries) ==>
                  SumR(F, CoinAndRefund(k)) == TeamTotal(cfg, entries, |entries|, k))
  {
    hide PlayFrom, Muster, Sound, Ring, TokenOf;
    var n, M, F := TeamCount(cfg, entries), Muster(cfg, entries), Simulate(cfg, phys, entries).F;
    StartKeeps(cfg, entries);
    PlayKeeps(cfg, phys, 0, n, M, Melee(M, []));
    forall i | 0 <= i < |F|
      ensures FairPay(entries[i], F[i]) && Payout(M[i]) == StakeOf(entries[i])
    {
      StakesSplit(cfg, entries, i);
      SoundPays(entries[i], F[i], n);
    }
    SumPlusR(F, Payout, Value, Refund);
    SumPlusR(M, Payout, Value, Refund);
    SumSameR(F, M, Refund, Refund);
    SumSameR(M, entries, Payout, StakeOf);
    if cfg.mode == Normal {
      forall k | 0 <= k < n
        ensures SumR(F, CoinAndRefund(k)) == TeamTotal(cfg, entries, |entries|, k)
      {
        SumPlusR(F, CoinAndRefund(k), TokenOf(k), RefundOn(k));
        SumPlusR(M, CoinAndRefund(k), TokenOf(k), RefundOn(k));
        SumSameR(F, M, RefundOn(k), RefundOn(k));
        StartCoin(cfg, entries, k, |entries|);
        assert M[..|entries|] == M;
      }
    }
  }
}
