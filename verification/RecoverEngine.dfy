/** The two repairs as they run over the live ledger, proved against the functions on values. */
module RecoverEngine {
  import opened Sums
  import opened Accounts
  import opened RecoverFloat

  class Books {
    var ledger: seq<Account>

    constructor (accounts: seq<Account>)
      ensures ledger == accounts
    {
      ledger := accounts;
    }

    /** One pass over the ledger: what the house holds, what players hold, and where the pool is. */
    method Survey(pool: set<string>, f: Field) returns (house: real, player: real, poolAccts: seq<nat>, held: real)
      ensures house == House(ledger, pool, f) && player == Player(ledger, pool, f) && held == PoolHeld(ledger, pool, f)
      ensures |poolAccts| as real == PoolCount(ledger, pool)
      ensures Picks(poolAccts, ledger, pool, |ledger|)
    {
      hide Get, SumR;
      house, player, held, poolAccts := 0.0, 0.0, 0.0, [];
      EmptySums(ledger[..0], pool, f);
      for i := 0 to |ledger|
        invariant house == House(ledger[..i], pool, f) && player == Player(ledger[..i], pool, f)
        invariant held == PoolHeld(ledger[..i], pool, f) && |poolAccts| as real == PoolCount(ledger[..i], pool)
        invariant Picks(poolAccts, ledger, pool, i)
      {
        SumSnocR(ledger, i, HousePart(pool, f));
        SumSnocR(ledger, i, PlayerPart(pool, f));
        SumSnocR(ledger, i, PoolPart(pool, f));
        SumSnocR(ledger, i, One(pool));
        var v := Get(ledger[i], f);
        if InPool(ledger[i], pool) {
          house, held, poolAccts := house + v, held + v, poolAccts + [i];
        } else if ledger[i].isBot {
          house := house + v;
        } else {
          player := player + v;
        }
      }
      assert ledger[..|ledger|] == ledger;
    }

    /** Change every pool account in place, one after the other. */
    method Rewrite(pool: set<string>, f: Field, poolAccts: seq<nat>, g: real -> real)
      requires Picks(poolAccts, ledger, pool, |ledger|)
      modifies this
      ensures ledger == OnPool(old(ledger), pool, f, g)
    {
      for k := 0 to |poolAccts|
        invariant |ledger| == |old(ledger)|
        invariant forall i :: 0 <= i < |ledger| && i !in poolAccts[..k] ==> ledger[i] == old(ledger)[i]
        invariant forall i :: 0 <= i < |ledger| && i in poolAccts[..k] ==>
                    ledger[i] == Put(old(ledger)[i], f, g(Get(old(ledger)[i], f)))
      {
        var i := poolAccts[k];
        assert i !in poolAccts[..k];
        assert poolAccts[..k + 1] == poolAccts[..k] + [i];
        ledger := ledger[i := Put(ledger[i], f, g(Get(ledger[i], f)))];
      }
      assert poolAccts[..|poolAccts|] == poolAccts;
      OnPoolIs(old(ledger), ledger, pool, f, g);
    }

    method Resync(pool: set<string>, f: Field, chainHeld: real, minGap: real, openStake: real)
      returns (moved: real, from: real, to: real, reason: Reason)
      modifies this
      ensures Outcome(ledger, moved, from, to, reason)
           == RecoverFloat.Resync(old(ledger), pool, f, chainHeld, minGap, openStake)
    {
      hide House, Player, PoolCount, OnPool, Picks;
      var house, player, poolAccts, _ := Survey(pool, f);
      if |poolAccts| == 0 {
        return 0.0, house, house, NoPool;
      }
      var target := chainHeld - player - openStake;
      if !(target > 0.0) {
        return 0.0, house, house, OwedToPlayers;
      }
      var gap := target - house;
      if gap <= EPS {
        return 0.0, house, house, if gap < -EPS then Insolvent else InSync;
      }
      if gap < minGap {
        return 0.0, house, house, BelowMinimum;
      }
      var each := gap / |poolAccts| as real;
      Rewrite(pool, f, poolAccts, Plus(each));
      return gap, house, house + gap, Moved;
    }

    method WriteDown(pool: set<string>, f: Field, chainHeld: real, openStake: real, maxFrac: real, minExcess: real)
      returns (wrote: real, from: real, to: real, reason: Reason)
      modifies this
      ensures Outcome(ledger, wrote, from, to, reason)
           == RecoverFloat.WriteDown(old(ledger), pool, f, chainHeld, openStake, maxFrac, minExcess)
    {
      hide House, Player, PoolCount, PoolHeld, OnPool, Picks;
      var house, player, poolAccts, poolHeld := Survey(pool, f);
      if |poolAccts| == 0 {
        return 0.0, house, house, NoPool;
      }
      if !(chainHeld > 0.0) {
        return 0.0, house, house, NoReading;
      }
      var excess := house + player + openStake - chainHeld;
      if excess <= minExcess {
        return 0.0, house, house, NoExcess;
      }
      if chainHeld < player {
        return 0.0, house, house, RealShortfall;
      }
      if poolHeld < excess {
        return 0.0, house, house, BeyondThePool;
      }
      if house > 0.0 && excess / house > maxFrac {
        return 0.0, house, house, TooLarge;
      }
      if poolHeld == 0.0 {
        return 0.0, house, house, NotANumber;
      }
      Rewrite(pool, f, poolAccts, Shave(excess, poolHeld));
      return excess, house, house - excess, Moved;
    }
  }

  lemma EmptySums(s: seq<Account>, pool: set<string>, f: Field)
    requires s == []
    ensures House(s, pool, f) == Player(s, pool, f) == PoolHeld(s, pool, f) == PoolCount(s, pool) == 0.0
  {
  }

  /** The pool accounts among the first `n`, in ledger order. */
  ghost predicate Picks(poolAccts: seq<nat>, s: seq<Account>, pool: set<string>, n: nat)
    requires n <= |s|
  {
    && (forall k :: 0 <= k < |poolAccts| ==> poolAccts[k] < n && InPool(s[poolAccts[k]], pool))
    && (forall k, l :: 0 <= k < l < |poolAccts| ==> poolAccts[k] < poolAccts[l])
    && (forall i :: 0 <= i < n && InPool(s[i], pool) ==> i in poolAccts)
  }

  lemma {:induction false} OnPoolIs(s: seq<Account>, t: seq<Account>, pool: set<string>, f: Field, g: real -> real)
    requires |t| == |s|
    requires forall i :: 0 <= i < |s| ==> t[i] == if InPool(s[i], pool) then Put(s[i], f, g(Get(s[i], f))) else s[i]
    ensures t == OnPool(s, pool, f, g)
  {
    if s != [] {
      OnPoolIs(s[1..], t[1..], pool, f, g);
    }
  }
}
