/** The house float that bots play with: a fair-share draw, an all-or-nothing draw, and the return. */
module BotBank {
  import opened Basics
  import opened Sums
  import opened Accounts

  const SPREAD: real := 40.0

  /** Walk the pool, taking what each account has, until no more than `enough` is still wanted. */
  function Drain(s: seq<Account>, f: Field, left: real, enough: real): (seq<Account>, real) {
    if s == [] || left <= enough then (s, left) else
    var take := Min(Get(s[0], f), left);
    if take <= 0.0 then
      var (rest, left') := Drain(s[1..], f, left, enough);
      ([s[0]] + rest, left')
    else
      var (rest, left') := Drain(s[1..], f, left - take, enough);
      ([Put(s[0], f, Get(s[0], f) - take)] + rest, left')
  }

  datatype Draw = Draw(pool: seq<Account>, granted: real)

  function Share(pool: seq<Account>, f: Field, spread: real): real {
    Total(pool, f) / Max(1.0, spread)
  }

  function DrawBank(pool: seq<Account>, f: Field, want: real, spread: real): Draw {
    if !(want > 0.0) then Draw(pool, 0.0) else
    var target := Min(want, Share(pool, f, spread));
    if !(target > 0.0) then Draw(pool, 0.0) else
    var (pool', left) := Drain(pool, f, target, 0.0);
    Draw(pool', target - left)
  }

  datatype Taken = Taken(pool: seq<Account>, ok: bool)

  const CRUMB: real := 0.000000000001
  const SLACK: real := 0.000000001

  function TakeExact(pool: seq<Account>, f: Field, amount: real): Taken {
    if !(amount > 0.0) || Total(pool, f) + SLACK < amount then Taken(pool, false) else
    var (pool', left) := Drain(pool, f, amount, CRUMB);
    Taken(pool', left <= SLACK)
  }

  /** The first account that holds the least, among those from `k` on and the candidate `best`. */
  function Poorest(pool: seq<Account>, f: Field, best: nat, k: nat): (r: nat)
    requires best < |pool| && k <= |pool|
    ensures r < |pool|
    decreases |pool| - k
  {
    if k == |pool| then best
    else Poorest(pool, f, if Get(pool[k], f) < Get(pool[best], f) then k else best, k + 1)
  }

  function ReturnBank(pool: seq<Account>, f: Field, amount: real): seq<Account> {
    if !(amount > 0.0) || pool == [] then pool else
    var i := Poorest(pool, f, 0, 0);
    pool[i := Put(pool[i], f, Get(pool[i], f) + amount)]
  }

  // ---- what a walk takes ----

  function PositivePart(f: Field): Account -> real {
    (a: Account) => Max(0.0, Get(a, f))
  }

  /** Accounts are drained strictly in order: one is touched only when every earlier one is spent. */
  ghost predicate InOrder(s: seq<Account>, t: seq<Account>, f: Field)
    requires |t| == |s|
  {
    forall i, j :: 0 <= i < j < |s| && t[j] != s[j] ==> Get(t[i], f) <= 0.0
  }

  ghost predicate Shrunk(s: seq<Account>, t: seq<Account>, f: Field)
    requires |t| == |s|
  {
    forall i :: 0 <= i < |s| ==> Get(t[i], f) <= Get(s[i], f) && (Get(s[i], f) >= 0.0 ==> Get(t[i], f) >= 0.0)
  }

  lemma {:induction false} DrainShape(s: seq<Account>, f: Field, left: real, enough: real)
    requires left >= 0.0 && enough >= 0.0
    ensures var (t, left') := Drain(s, f, left, enough);
            && OnlyField(s, t, f) && InOrder(s, t, f) && Shrunk(s, t, f)
            && 0.0 <= left' <= left
            && (left' <= enough || (left' == left - SumR(s, PositivePart(f)) && forall i :: 0 <= i < |t| ==> Get(t[i], f) <= 0.0))
            && Total(t, f) == Total(s, f) - (left - left')
  {
    hide Put, Drain, OnlyField, InOrder, Shrunk, Get;
    if s == [] || left <= enough {
      DrainNothing(s, f, left, enough);
      Untouched(s, f);
    } else {
      var took := Took(s[0], f, left);
      DrainStep(s, f, left, enough);
      DrainShape(s[1..], f, left - took, enough);
      DrainNothing(s[1..], f, 0.0, enough);
      PutGet(s[0], f, Get(s[0], f) - took);
      SplitWalk(s, Put(s[0], f, Get(s[0], f) - took), Drain(s[1..], f, left - took, enough).0, f);
    }
  }

  lemma Untouched(s: seq<Account>, f: Field)
    ensures OnlyField(s, s, f) && InOrder(s, s, f) && Shrunk(s, s, f)
  {
    forall i | 0 <= i < |s|
      ensures s[i] == Put(s[i], f, Get(s[i], f))
    {
      PutGet(s[i], f, 0.0);
    }
  }

  function Took(a: Account, f: Field, left: real): real {
    Max(0.0, Min(Get(a, f), left))
  }

  lemma DrainStep(s: seq<Account>, f: Field, left: real, enough: real)
    requires s != [] && left > enough
    ensures var took := Took(s[0], f, left);
            var (rest, left') := Drain(s[1..], f, left - took, enough);
            Drain(s, f, left, enough) == ([Put(s[0], f, Get(s[0], f) - took)] + rest, left')
  {
  }

  lemma DrainNothing(s: seq<Account>, f: Field, left: real, enough: real)
    requires s == [] || left <= enough
    ensures Drain(s, f, left, enough) == (s, left)
  {
  }

  lemma SplitWalk(s: seq<Account>, head: Account, t: seq<Account>, f: Field)
    requires s != [] && head == Put(s[0], f, Get(head, f))
    requires OnlyField(s[1..], t, f) && InOrder(s[1..], t, f) && Shrunk(s[1..], t, f)
    requires Get(head, f) <= Get(s[0], f) && (Get(s[0], f) >= 0.0 ==> Get(head, f) >= 0.0)
    requires Get(head, f) <= 0.0 || t == s[1..]
    ensures Total(s, f) == Get(s[0], f) + Total(s[1..], f)
    ensures var r := [head] + t; OnlyField(s, r, f) && InOrder(s, r, f) && Shrunk(s, r, f)
    ensures Total([head] + t, f) == Get(head, f) + Total(t, f)
  {
    hide Put;
    var r := [head] + t;
    assert r[1..] == t;
    forall i | 0 <= i < |s|
      ensures r[i] == Put(s[i], f, Get(r[i], f))
      ensures Get(r[i], f) <= Get(s[i], f) && (Get(s[i], f) >= 0.0 ==> Get(r[i], f) >= 0.0)
    {
      if i > 0 {
        assert r[i] == t[i - 1] && s[i] == s[1..][i - 1];
      }
    }
    forall i, j | 0 <= i < j < |s| && r[j] != s[j]
      ensures Get(r[i], f) <= 0.0
    {
      assert r[j] == t[j - 1] && s[j] == s[1..][j - 1];
      if i > 0 {
        assert r[i] == t[i - 1];
      }
    }
  }

  lemma {:induction false} PositivePartsCover(s: seq<Account>, f: Field)
    ensures SumR(s, PositivePart(f)) >= Total(s, f)
  {
    if s != [] {
      PositivePartsCover(s[1..], f);
    }
  }

  lemma Product(x: real, y: real)
    requires x >= 0.0 && y >= 0.0
    ensures x * y >= 0.0
  {
  }

  lemma ShareIsAPart(total: real, spread: real)
    requires total > 0.0
    ensures 0.0 < total / Max(1.0, spread) <= total
  {
    var m := Max(1.0, spread);
    var q := total / m;
    assert q * m == total;
    assert q > 0.0;
    Product(q, m - 1.0);
  }

  lemma NoShareOfNothing(total: real, spread: real)
    requires total <= 0.0
    ensures total / Max(1.0, spread) <= 0.0
  {
    var m := Max(1.0, spread);
    var q := total / m;
    assert q * m == total;
  }

  /** What a fair-share draw grants, for every pool -- overdrawn accounts included. */
  function Grant(total: real, want: real, spread: real): real {
    if want > 0.0 && total > 0.0 then Min(want, total / Max(1.0, spread)) else 0.0
  }

  /** A draw grants exactly the smaller of what is wanted and the fair share, takes exactly that out of
    * the pool in pool order, and overdraws nobody. */
  lemma DrawIsExact(pool: seq<Account>, f: Field, want: real, spread: real)
    ensures var d := DrawBank(pool, f, want, spread);
            && d.granted == Grant(Total(pool, f), want, spread)
            && Total(d.pool, f) == Total(pool, f) - d.granted
            && OnlyField(pool, d.pool, f) && InOrder(pool, d.pool, f) && Shrunk(pool, d.pool, f)
  {
    hide Drain, Total;
    var total := Total(pool, f);
    if total > 0.0 {
      ShareIsAPart(total, spread);
    } else {
      NoShareOfNothing(total, spread);
    }
    DrainShape(pool, f, 0.0, 0.0);
    DrainNothing(pool, f, 0.0, 0.0);
    if want > 0.0 && total > 0.0 {
      var target := Min(want, Share(pool, f, spread));
      DrainShape(pool, f, target, 0.0);
      PositivePartsCover(pool, f);
    }
  }

  /** The exact draw: it succeeds exactly when the pool covers the amount to within the slack, it then
    * takes the amount to within the slack, and otherwise it takes nothing. */
  lemma TakeIsAllOrNothing(pool: seq<Account>, f: Field, amount: real)
    ensures var t := TakeExact(pool, f, amount);
            && (t.ok <==> amount > 0.0 && Total(pool, f) + SLACK >= amount)
            && (!t.ok ==> t.pool == pool)
            && (t.ok ==> amount - SLACK <= Total(pool, f) - Total(t.pool, f) <= amount)
            && (t.ok ==> OnlyField(pool, t.pool, f) && InOrder(pool, t.pool, f) && Shrunk(pool, t.pool, f))
  {
    hide Drain, Total;
    if amount > 0.0 && Total(pool, f) + SLACK >= amount {
      DrainShape(pool, f, amount, CRUMB);
      PositivePartsCover(pool, f);
    }
  }

  lemma {:induction false} PoorestIsLeast(pool: seq<Account>, f: Field, best: nat, k: nat)
    requires best < |pool| && k <= |pool| && best <= k
    requires forall i :: 0 <= i < k ==> Get(pool[best], f) <= Get(pool[i], f)
    requires forall i :: 0 <= i < best ==> Get(pool[best], f) < Get(pool[i], f)
    ensures var r := Poorest(pool, f, best, k);
            && (forall i :: 0 <= i < |pool| ==> Get(pool[r], f) <= Get(pool[i], f))
            && (forall i :: 0 <= i < r ==> Get(pool[r], f) < Get(pool[i], f))
    decreases |pool| - k
  {
    if k < |pool| {
      PoorestIsLeast(pool, f, if Get(pool[k], f) < Get(pool[best], f) then k else best, k + 1);
    }
  }

  /** The whole amount went to account `r`, the first of the poorest. */
  ghost predicate Fed(pool: seq<Account>, pool': seq<Account>, f: Field, amount: real, r: nat)
    requires r < |pool|
  {
    && pool' == pool[r := Put(pool[r], f, Get(pool[r], f) + amount)]
    && (forall i :: 0 <= i < |pool| ==> Get(pool[r], f) <= Get(pool[i], f))
    && (forall i :: 0 <= i < r ==> Get(pool[r], f) < Get(pool[i], f))
  }

  /** A return into a non-empty pool adds exactly the amount, all of it to the first of the poorest
    * accounts, and an empty pool keeps nothing. */
  lemma ReturnFeedsThePoorest(pool: seq<Account>, f: Field, amount: real)
    ensures var pool' := ReturnBank(pool, f, amount);
            && OnlyField(pool, pool', f)
            && Total(pool', f) == Total(pool, f) + (if amount > 0.0 && pool != [] then amount else 0.0)
            && (amount > 0.0 && pool != [] ==> (exists r :: 0 <= r < |pool| && Fed(pool, pool', f, amount, r)))
  {
    if amount > 0.0 && pool != [] {
      PoorestIsLeast(pool, f, 0, 0);
      var r := Poorest(pool, f, 0, 0);
      TotalUpdate(pool, r, f, Get(pool[r], f) + amount);
      assert Fed(pool, ReturnBank(pool, f, amount), f, amount, r);
    }
  }

  /** What a bot leaving the population hands back: each coin it has, to the poorest pool account. */
  function Retire(pool: seq<Account>, who: Account): (seq<Account>, Account) {
    var (p1, w1) := HandBack(pool, who, BullCoin);
    var (p2, w2) := HandBack(p1, w1, UwuCoin);
    HandBack(p2, w2, SolCoin)
  }

  function HandBack(pool: seq<Account>, who: Account, f: Field): (seq<Account>, Account) {
    if Get(who, f) > 0.0 then (ReturnBank(pool, f, Get(who, f)), Put(who, f, 0.0)) else (pool, who)
  }

  lemma HandBackEffect(pool: seq<Account>, who: Account, f: Field, g: Field)
    ensures var (pool', who') := HandBack(pool, who, f);
            && |pool'| == |pool| && (g != f ==> Get(who', g) == Get(who, g)) && Get(who', f) <= 0.0
            && Total(pool', g) + Get(who', g)
               == Total(pool, g) + Get(who, g) - (if g == f && pool == [] && Get(who, f) > 0.0 then Get(who, f) else 0.0)
  {
    hide ReturnBank, Total;
    ReturnFeedsThePoorest(pool, f, Get(who, f));
    if g != f {
      OtherFieldsKept(pool, ReturnBank(pool, f, Get(who, f)), f, g);
    }
  }

  /** All the bot has of a coin leaves it for the pool, or for nowhere when there is no pool account. */
  lemma RetireEffect(pool: seq<Account>, who: Account, g: Field)
    ensures var (pool', who') := Retire(pool, who);
            && |pool'| == |pool| && Get(who', g) <= 0.0
            && Total(pool', g) + Get(who', g)
               == Total(pool, g) + Get(who, g) - (if pool == [] && Get(who, g) > 0.0 then Get(who, g) else 0.0)
  {
    hide HandBack, Get, Total;
    var (p1, w1) := HandBack(pool, who, BullCoin);
    var (p2, w2) := HandBack(p1, w1, UwuCoin);
    HandBackEffect(pool, who, BullCoin, g);
    HandBackEffect(p1, w1, UwuCoin, g);
    HandBackEffect(p2, w2, SolCoin, g);
    HandBackEffect(pool, who, BullCoin, UwuCoin);
    HandBackEffect(pool, who, BullCoin, SolCoin);
    HandBackEffect(p1, w1, UwuCoin, SolCoin);
    match g
    case BullCoin =>
    case UwuCoin =>
    case SolCoin =>
  }

  /** Retiring a bot conserves every coin if and only if there is a pool account to take what it holds, or
    * it holds nothing. */
  lemma RetireConservesIff(pool: seq<Account>, who: Account)
    ensures var (pool', who') := Retire(pool, who);
            (forall g :: Total(pool', g) + Get(who', g) == Total(pool, g) + Get(who, g))
            <==> pool != [] || forall g :: Get(who, g) <= 0.0
  {
    hide Retire, Get, Total;
    forall g
      ensures Total(Retire(pool, who).0, g) + Get(Retire(pool, who).1, g)
           == Total(pool, g) + Get(who, g) - (if pool == [] && Get(who, g) > 0.0 then Get(who, g) else 0.0)
    {
      RetireEffect(pool, who, g);
    }
  }

  /** Handing back everything that was drawn restores the float, whatever the pool. */
  lemma DrawThenReturn(pool: seq<Account>, f: Field, want: real, spread: real)
    ensures var d := DrawBank(pool, f, want, spread);
            Total(ReturnBank(d.pool, f, d.granted), f) == Total(pool, f)
  {
    hide DrawBank, ReturnBank;
    var d := DrawBank(pool, f, want, spread);
    DrawIsExact(pool, f, want, spread);
    ReturnFeedsThePoorest(d.pool, f, d.granted);
    if d.granted > 0.0 {
      assert pool != [];
    }
  }

  // ---- many draws ----

  function DrawAll(pool: seq<Account>, f: Field, wants: seq<real>, spread: real): seq<Account>
    decreases |wants|
  {
    if wants == [] then pool else DrawAll(DrawBank(pool, f, wants[0], spread).pool, f, wants[1..], spread)
  }

  function Power(x: real, n: nat): real {
    if n == 0 then 1.0 else x * Power(x, n - 1)
  }

  lemma OneDrawLeaves(total: real, want: real, spread: real)
    requires total >= 0.0
    ensures total - Grant(total, want, spread) >= total * (1.0 - 1.0 / Max(1.0, spread))
  {
    var m := Max(1.0, spread);
    var q := total / m;
    assert total * (1.0 / m) == q by {
      assert m * (1.0 / m) == 1.0;
      assert q * m == total;
    }
  }

  lemma {:induction false} PowerNonNeg(x: real, n: nat)
    requires x >= 0.0
    ensures Power(x, n) >= 0.0
  {
    if n > 0 {
      PowerNonNeg(x, n - 1);
    }
  }

  lemma Scale(x: real, y: real, k: real, p: real)
    requires x >= y * k && p >= 0.0
    ensures x * p >= y * (k * p)
  {
    assert (x - y * k) * p >= 0.0;
  }

  /** The float degrades smoothly: after any `k` draws at a spread of `s`, however greedy, at least
    * `(1 - 1/s)^k` of it is left, a spread below one counting as one. */
  lemma {:induction false} FloatDegradesSmoothly(pool: seq<Account>, f: Field, wants: seq<real>, spread: real)
    requires Total(pool, f) >= 0.0
    ensures Total(DrawAll(pool, f, wants, spread), f) >= Total(pool, f) * Power(1.0 - 1.0 / Max(1.0, spread), |wants|)
    decreases |wants|
  {
    hide DrawBank, Total, Grant;
    if wants == [] {
    } else {
      var k := 1.0 - 1.0 / Max(1.0, spread);
      var next := DrawBank(pool, f, wants[0], spread).pool;
      KeepsAPart(Max(1.0, spread));
      DrawIsExact(pool, f, wants[0], spread);
      OneDrawLeaves(Total(pool, f), wants[0], spread);
      PowerNonNeg(k, |wants| - 1);
      Product(Total(pool, f), k);
      FloatDegradesSmoothly(next, f, wants[1..], spread);
      Scale(Total(next, f), Total(pool, f), k, Power(k, |wants| - 1));
    }
  }

  lemma KeepsAPart(spread: real)
    requires spread >= 1.0
    ensures 1.0 - 1.0 / spread >= 0.0
  {
    assert spread * (1.0 / spread) == 1.0;
    Product(spread - 1.0, 1.0 / spread);
  }
}
