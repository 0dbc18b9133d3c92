/** The bot pool as the server updates it, proved against the functions on values. */
module BotBankEngine {
  import opened Basics
  import opened Sums
  import opened Accounts
  import opened BotBank

  class Bank {
    var pool: seq<Account>

    constructor (accounts: seq<Account>)
      ensures pool == accounts
    {
      pool := accounts;
    }

    method PoolBalance(f: Field) returns (n: real)
      ensures n == Total(pool, f)
    {
      n := 0.0;
      for i := 0 to |pool|
        invariant n == Total(pool[..i], f)
      {
        SumSnocR(pool, i, Holding(f));
        n := n + Get(pool[i], f);
      }
      assert pool[..|pool|] == pool;
    }

    /** The walk both draws share. */
    method Walk(f: Field, want: real, enough: real) returns (left: real)
      modifies this
      ensures (pool, left) == Drain(old(pool), f, want, enough)
    {
      hide Drain, Put, Get, Min;
      left := want;
      var i := 0;
      assert pool[0..] == pool && pool[..0] == [];
      while i < |pool| && left > enough
        invariant 0 <= i <= |pool| == |old(pool)|
        invariant pool[i..] == old(pool)[i..]
        invariant pool[..i] + Drain(pool[i..], f, left, enough).0 == Drain(old(pool), f, want, enough).0
        invariant Drain(pool[i..], f, left, enough).1 == Drain(old(pool), f, want, enough).1
        decreases |pool| - i
      {
        WalkOn(pool, i, f, left, enough);
        var take := Min(Get(pool[i], f), left);
        if take > 0.0 {
          pool := pool[i := Put(pool[i], f, Get(pool[i], f) - take)];
          left := left - take;
        }
        i := i + 1;
      }
      DrainNothing(pool[i..], f, left, enough);
      assert pool[..i] + pool[i..] == pool;
    }

    method DrawBank(f: Field, want: real, spread: real) returns (granted: real)
      modifies this
      ensures Draw(pool, granted) == BotBank.DrawBank(old(pool), f, want, spread)
    {
      hide Drain;
      if !(want > 0.0) {
        return 0.0;
      }
      var balance := PoolBalance(f);
      var target := Min(want, balance / Max(1.0, spread));
      if !(target > 0.0) {
        return 0.0;
      }
      var left := Walk(f, target, 0.0);
      granted := target - left;
    }

    method TakeExact(f: Field, amount: real) returns (ok: bool)
      modifies this
      ensures Taken(pool, ok) == BotBank.TakeExact(old(pool), f, amount)
    {
      hide Drain;
      if !(amount > 0.0) {
        return false;
      }
      var balance := PoolBalance(f);
      if balance + SLACK < amount {
        return false;
      }
      var left := Walk(f, amount, CRUMB);
      ok := left <= SLACK;
    }

    method ReturnBank(f: Field, amount: real)
      modifies this
      ensures pool == BotBank.ReturnBank(old(pool), f, amount)
    {
      if !(amount > 0.0) {
        return;
      }
      if |pool| == 0 {
        return;
      }
      var target := 0;
      for i := 0 to |pool|
        invariant target < |pool| && pool == old(pool)
        invariant Poorest(pool, f, target, i) == Poorest(pool, f, 0, 0)
      {
        if Get(pool[i], f) < Get(pool[target], f) {
          target := i;
        }
      }
      pool := pool[target := Put(pool[target], f, Get(pool[target], f) + amount)];
    }
  }

  /** One account of the walk, in place. */
  lemma WalkOn(pool: seq<Account>, i: nat, f: Field, left: real, enough: real)
    requires i < |pool| && left > enough
    ensures var take := Min(Get(pool[i], f), left);
            var next := if take > 0.0 then pool[i := Put(pool[i], f, Get(pool[i], f) - take)] else pool;
            var left' := if take > 0.0 then left - take else left;
            && next[i + 1..] == pool[i + 1..]
            && next[..i + 1] + Drain(next[i + 1..], f, left', enough).0 == pool[..i] + Drain(pool[i..], f, left, enough).0
            && Drain(next[i + 1..], f, left', enough).1 == Drain(pool[i..], f, left, enough).1
  {
    hide Drain, Put, Get;
    DrainStep(pool[i..], f, left, enough);
    PutGet(pool[i], f, 0.0);
    var took := Took(pool[i], f, left);
    var head, rest := Put(pool[i], f, Get(pool[i], f) - took), Drain(pool[i + 1..], f, left - took, enough).0;
    assert pool[i..][0] == pool[i] && pool[i..][1..] == pool[i + 1..];
    assert pool[i := head][..i + 1] == pool[..i] + [head] && pool[i := head][i + 1..] == pool[i + 1..];
    assert pool[..i] + [pool[i]] == pool[..i + 1];
    assert pool[..i] + ([head] + rest) == pool[..i] + [head] + rest;
  }
}
