/** Re-anchoring the house float to what the vault holds: crediting stranded coin to the pool, and
  * writing phantom coin off it. */
module RecoverFloat {
  import opened Basics
  import opened Sums
  import opened Accounts

  predicate InPool(a: Account, pool: set<string>) { a.id in pool }

  function PoolPart(pool: set<string>, f: Field): Account -> real {
    (a: Account) => if InPool(a, pool) then Get(a, f) else 0.0
  }

  function HousePart(pool: set<string>, f: Field): Account -> real {
    (a: Account) => if InPool(a, pool) || a.isBot then Get(a, f) else 0.0
  }

  function PlayerPart(pool: set<string>, f: Field): Account -> real {
    (a: Account) => if InPool(a, pool) || a.isBot then 0.0 else Get(a, f)
  }

  function One(pool: set<string>): Account -> real {
    (a: Account) => if InPool(a, pool) then 1.0 else 0.0
  }

  function House(s: seq<Account>, pool: set<string>, f: Field): real { SumR(s, HousePart(pool, f)) }

  function Player(s: seq<Account>, pool: set<string>, f: Field): real { SumR(s, PlayerPart(pool, f)) }

  function PoolHeld(s: seq<Account>, pool: set<string>, f: Field): real { SumR(s, PoolPart(pool, f)) }

  /** Everybody's coin is the house's or a player's: the house's in the pool and with bots, and a player's
    * everywhere else. */
  lemma EverybodyIsOneOrTheOther(s: seq<Account>, pool: set<string>, f: Field)
    ensures House(s, pool, f) + Player(s, pool, f) == Total(s, f)
    ensures forall a: Account :: a.isBot || a.id in pool ==> PlayerPart(pool, f)(a) == 0.0 && HousePart(pool, f)(a) == Get(a, f)
    ensures forall a: Account :: !a.isBot && a.id !in pool ==> HousePart(pool, f)(a) == 0.0 && PlayerPart(pool, f)(a) == Get(a, f)
    ensures forall a: Account :: PoolPart(pool, f)(a) == if a.id in pool then Get(a, f) else 0.0
  {
    SumPlusR(s, Holding(f), HousePart(pool, f), PlayerPart(pool, f));
  }

  /** How many pool accounts the ledger has. */
  function PoolCount(s: seq<Account>, pool: set<string>): real { SumR(s, One(pool)) }

  function Claimed(s: seq<Account>, pool: set<string>, f: Field, openStake: real): real {
    House(s, pool, f) + Player(s, pool, f) + openStake
  }

  datatype Reason = Moved | NoPool | OwedToPlayers | Insolvent | InSync | BelowMinimum
                  | NoReading | NoExcess | RealShortfall | BeyondThePool | TooLarge | NotANumber

  datatype Outcome = Outcome(ledger: seq<Account>, moved: real, from: real, to: real, reason: Reason)

  /** Apply `g` to every pool account's balance. */
  function OnPool(s: seq<Account>, pool: set<string>, f: Field, g: real -> real): (t: seq<Account>)
    ensures |t| == |s|
  {
    if s == [] then []
    else [if InPool(s[0], pool) then Put(s[0], f, g(Get(s[0], f))) else s[0]] + OnPool(s[1..], pool, f, g)
  }

  const EPS: real := 0.0001

  function Plus(each: real): real -> real { (v: real) => v + each }

  function Resync(s: seq<Account>, pool: set<string>, f: Field, chainHeld: real, minGap: real, openStake: real): Outcome {
    var house := House(s, pool, f);
    var target := chainHeld - Player(s, pool, f) - openStake;
    var gap := target - house;
    if PoolCount(s, pool) <= 0.0 then Outcome(s, 0.0, house, house, NoPool)
    else if !(target > 0.0) then Outcome(s, 0.0, house, house, OwedToPlayers)
    else if gap <= EPS then Outcome(s, 0.0, house, house, if gap < -EPS then Insolvent else InSync)
    else if gap < minGap then Outcome(s, 0.0, house, house, BelowMinimum)
    else Outcome(OnPool(s, pool, f, Plus(gap / PoolCount(s, pool))), gap, house, house + gap, Moved)
  }

  function Shave(excess: real, poolHeld: real): real -> real
    requires poolHeld != 0.0
  {
    (v: real) => Shaven(v, excess, poolHeld)
  }

  /** One balance less its share of the excess, never below zero. */
  function Shaven(v: real, excess: real, poolHeld: real): real
    requires poolHeld != 0.0
  {
    Max(0.0, v - excess * (v / poolHeld))
  }

  /** Below a threshold of zero the excess may be nothing or less, and then the pool may add up to zero,
    * where the shares are not numbers; that case is set apart. */
  function WriteDown(s: seq<Account>, pool: set<string>, f: Field, chainHeld: real, openStake: real, maxFrac: real, minExcess: real): Outcome {
    var house := House(s, pool, f);
    var excess := Claimed(s, pool, f, openStake) - chainHeld;
    var held := PoolHeld(s, pool, f);
    if PoolCount(s, pool) <= 0.0 then Outcome(s, 0.0, house, house, NoPool)
    else if !(chainHeld > 0.0) then Outcome(s, 0.0, house, house, NoReading)
    else if excess <= minExcess then Outcome(s, 0.0, house, house, NoExcess)
    else if chainHeld < Player(s, pool, f) then Outcome(s, 0.0, house, house, RealShortfall)
    else if held < excess then Outcome(s, 0.0, house, house, BeyondThePool)
    else if house > 0.0 && excess / house > maxFrac then Outcome(s, 0.0, house, house, TooLarge)
    else if held == 0.0 then Outcome(s, 0.0, house, house, NotANumber)
    else Outcome(OnPool(s, pool, f, Shave(excess, held)), excess, house, house - excess, Moved)
  }

  // ---- only the pool is touched ----

  /** Nothing but the pool accounts' field `f` differs. */
  ghost predicate OnlyThePool(s: seq<Account>, t: seq<Account>, pool: set<string>, f: Field) {
    && OnlyField(s, t, f)
    && forall i :: 0 <= i < |s| && !InPool(s[i], pool) ==> t[i] == s[i]
  }

  lemma {:induction false} OnPoolPointwise(s: seq<Account>, pool: set<string>, f: Field, g: real -> real)
    ensures var t := OnPool(s, pool, f, g);
            && OnlyThePool(s, t, pool, f)
            && forall i :: 0 <= i < |s| && InPool(s[i], pool) ==> Get(t[i], f) == g(Get(s[i], f))
  {
    if s != [] {
      OnPoolPointwise(s[1..], pool, f, g);
      var t := OnPool(s, pool, f, g);
      forall i | 0 <= i < |s|
        ensures t[i] == Put(s[i], f, Get(t[i], f))
        ensures !InPool(s[i], pool) ==> t[i] == s[i]
        ensures InPool(s[i], pool) ==> Get(t[i], f) == g(Get(s[i], f))
      {
        if i > 0 {
          assert s[i] == s[1..][i - 1] && t[i] == t[1..][i - 1];
        }
      }
    }
  }

  /** A change to the pool alone moves the house and the pool by the same amount, and the players not
    * at all. */
  lemma {:induction false} PoolMovesTheHouse(s: seq<Account>, t: seq<Account>, pool: set<string>, f: Field)
    requires OnlyThePool(s, t, pool, f)
    ensures Player(t, pool, f) == Player(s, pool, f) && PoolCount(t, pool) == PoolCount(s, pool)
    ensures House(t, pool, f) - House(s, pool, f) == PoolHeld(t, pool, f) - PoolHeld(s, pool, f)
  {
    if s != [] {
      assert t[0] == Put(s[0], f, Get(t[0], f));
      forall i | 0 <= i < |s[1..]|
        ensures t[1..][i] == Put(s[1..][i], f, Get(t[1..][i], f))
        ensures !InPool(s[1..][i], pool) ==> t[1..][i] == s[1..][i]
      {
        assert t[1..][i] == t[i + 1] && s[1..][i] == s[i + 1];
      }
      PoolMovesTheHouse(s[1..], t[1..], pool, f);
    }
  }

  lemma {:induction false} PlusOnPool(s: seq<Account>, pool: set<string>, f: Field, each: real)
    ensures PoolHeld(OnPool(s, pool, f, Plus(each)), pool, f) == PoolHeld(s, pool, f) + PoolCount(s, pool) * each
  {
    if s != [] {
      PlusOnPool(s[1..], pool, f, each);
      var t := OnPool(s, pool, f, Plus(each));
      assert t[1..] == OnPool(s[1..], pool, f, Plus(each));
      var n := PoolCount(s[1..], pool);
      assert (1.0 + n) * each == each + n * each;
    }
  }

  // ---- resync ----

  /** A resync touches pool accounts only and never takes from one; when it moves anything the books
    * then claim exactly what the vault holds, and otherwise nothing at all has changed. */
  lemma ResyncAnchors(s: seq<Account>, pool: set<string>, f: Field, chainHeld: real, minGap: real, openStake: real)
    ensures var r := Resync(s, pool, f, chainHeld, minGap, openStake);
            && OnlyThePool(s, r.ledger, pool, f)
            && (forall i :: 0 <= i < |s| ==> Get(r.ledger[i], f) >= Get(s[i], f))
            && r.from == House(s, pool, f) && r.to == House(r.ledger, pool, f) && r.to == r.from + r.moved
            && (r.reason != Moved ==> r.ledger == s && r.moved == 0.0)
            && (r.reason == Moved ==> Claimed(r.ledger, pool, f, openStake) == chainHeld && r.moved > EPS)
  {
    hide House, Player, PoolHeld, PoolCount;
    var r := Resync(s, pool, f, chainHeld, minGap, openStake);
    Unmoved(s, f);
    if r.reason == Moved {
      var n := PoolCount(s, pool);
      var each := r.moved / n;
      assert each * n == r.moved;
      assert each > 0.0;
      OnPoolPointwise(s, pool, f, Plus(each));
      PoolMovesTheHouse(s, r.ledger, pool, f);
      PlusOnPool(s, pool, f, each);
      GrownByEach(s, r.ledger, pool, f, each);
    }
  }

  lemma Unmoved(s: seq<Account>, f: Field)
    ensures OnlyField(s, s, f)
  {
  }

  lemma GrownByEach(s: seq<Account>, t: seq<Account>, pool: set<string>, f: Field, each: real)
    requires OnlyThePool(s, t, pool, f) && each > 0.0
    requires forall i :: 0 <= i < |s| && InPool(s[i], pool) ==> Get(t[i], f) == Plus(each)(Get(s[i], f))
    ensures forall i :: 0 <= i < |s| ==> Get(t[i], f) >= Get(s[i], f)
  {
  }

  /** A resync happens exactly when the house could own more than it does, by at least the minimum. */
  lemma ResyncMovesIff(s: seq<Account>, pool: set<string>, f: Field, chainHeld: real, minGap: real, openStake: real)
    ensures Resync(s, pool, f, chainHeld, minGap, openStake).reason == Moved <==>
              (var unclaimed := chainHeld - Claimed(s, pool, f, openStake);
               && (exists i :: 0 <= i < |s| && InPool(s[i], pool))
               && chainHeld > Player(s, pool, f) + openStake && unclaimed > EPS && unclaimed >= minGap)
  {
    PoolCountPositive(s, pool);
  }

  /** Every pool account gets the same. */
  lemma ResyncSharesEvenly(s: seq<Account>, pool: set<string>, f: Field, chainHeld: real, minGap: real, openStake: real, i: nat, j: nat)
    requires i < |s| && j < |s| && InPool(s[i], pool) && InPool(s[j], pool)
    ensures var r := Resync(s, pool, f, chainHeld, minGap, openStake);
            Get(r.ledger[i], f) - Get(s[i], f) == Get(r.ledger[j], f) - Get(s[j], f)
  {
    hide House, Player, PoolCount, OnPool;
    var gap := chainHeld - Player(s, pool, f) - openStake - House(s, pool, f);
    if PoolCount(s, pool) > 0.0 {
      OnPoolPointwise(s, pool, f, Plus(gap / PoolCount(s, pool)));
    }
  }

  lemma {:induction false} PoolCountPositive(s: seq<Account>, pool: set<string>)
    ensures PoolCount(s, pool) >= 0.0
    ensures PoolCount(s, pool) > 0.0 <==> exists i :: 0 <= i < |s| && InPool(s[i], pool)
  {
    if s != [] {
      PoolCountPositive(s[1..], pool);
      if InPool(s[0], pool) {
      } else if PoolCount(s[1..], pool) > 0.0 {
        var i :| 0 <= i < |s[1..]| && InPool(s[1..][i], pool);
        assert InPool(s[i + 1], pool);
      } else {
        forall i | 0 <= i < |s|
          ensures !InPool(s[i], pool)
        {
          if i > 0 {
            assert s[i] == s[1..][i - 1];
          }
        }
      }
    }
  }

  /** A resync never leaves the books claiming more than the vault holds unless they already did, and
    * running either repair straight after it changes nothing: the write-down as long as its threshold is
    * not below zero, or no pool account is. */
  lemma ResyncSettles(s: seq<Account>, pool: set<string>, f: Field, chainHeld: real, minGap: real, openStake: real,
                      maxFrac: real, minExcess: real)
    ensures var t := Resync(s, pool, f, chainHeld, minGap, openStake).ledger;
            && (Claimed(s, pool, f, openStake) <= chainHeld ==> Claimed(t, pool, f, openStake) <= chainHeld)
            && Resync(t, pool, f, chainHeld, minGap, openStake).ledger == t
            && (t != s && (minExcess >= 0.0 || PoolSound(t, pool, f)) ==>
                  WriteDown(t, pool, f, chainHeld, openStake, maxFrac, minExcess).ledger == t)
  {
    hide House, Player, PoolHeld, PoolCount, OnPool, OnlyThePool, PoolSound, Shave;
    ResyncAnchors(s, pool, f, chainHeld, minGap, openStake);
    var t := Resync(s, pool, f, chainHeld, minGap, openStake).ledger;
    if PoolSound(t, pool, f) && PoolHeld(t, pool, f) != 0.0 {
      NothingToShave(t, pool, f, PoolHeld(t, pool, f));
    }
  }

  /** An excess of nothing takes nothing off a pool that owes nothing. */
  lemma {:induction false} NothingToShave(s: seq<Account>, pool: set<string>, f: Field, held: real)
    requires PoolSound(s, pool, f) && held != 0.0
    ensures OnPool(s, pool, f, Shave(0.0, held)) == s
  {
    hide PoolSound;
    if s != [] {
      SoundSplit(s, pool, f);
      NothingToShave(s[1..], pool, f, held);
      PutGet(s[0], f, Get(s[0], f));
      assert s == [s[0]] + s[1..];
    }
  }

  // ---- write-down ----

  ghost predicate PoolSound(s: seq<Account>, pool: set<string>, f: Field) {
    forall i :: 0 <= i < |s| && InPool(s[i], pool) ==> Get(s[i], f) >= 0.0
  }

  /** What a balance is worth once the rate is taken off it. */
  function Less(v: real, rate: real): real { v * (1.0 - rate) }

  lemma RateRange(excess: real, held: real)
    requires 0.0 < excess <= held
    ensures 0.0 < excess / held <= 1.0 && (excess == held <==> excess / held == 1.0)
    ensures Less(held, excess / held) == held - excess
  {
    var rate := excess / held;
    assert rate * held == excess;
  }

  lemma RateIs(excess: real, held: real)
    requires held != 0.0
    ensures Less(held, excess / held) == held - excess
  {
    var rate := excess / held;
    assert rate * held == excess;
  }

  lemma LessSign(v: real, rate: real)
    requires 0.0 < rate <= 1.0
    ensures v >= 0.0 ==> Less(v, rate) >= 0.0
    ensures v < 0.0 ==> Less(v, rate) <= 0.0 && (Less(v, rate) == 0.0 <==> rate == 1.0)
  {
  }

  lemma LessAdds(v: real, p: real, rate: real)
    ensures Less(v + p, rate) == Less(v, rate) + Less(p, rate)
    ensures Less(0.0, rate) == 0.0
  {
  }

  lemma ShaveIsLess(v: real, excess: real, held: real)
    requires held != 0.0
    ensures Shave(excess, held)(v) == Max(0.0, Less(v, excess / held))
  {
    hide Less;
    var rate, part := excess / held, v / held;
    assert rate * held == excess && part * held == v;
    Cross(excess, held, rate, v, part);
    assert Less(v, rate) == v - v * rate by {
      LessIs(v, rate);
    }
  }

  lemma LessIs(v: real, rate: real)
    ensures Less(v, rate) == v - v * rate
  {
  }

  lemma Cross(excess: real, held: real, rate: real, v: real, part: real)
    requires rate * held == excess && part * held == v
    ensures excess * part == v * rate
  {
    assert rate * held * part == part * held * rate;
  }

  /** The rate leaves no pool account below zero, so the clamp stops nothing. */
  ghost predicate NobodyClamped(s: seq<Account>, pool: set<string>, f: Field, rate: real) {
    forall i :: 0 <= i < |s| && InPool(s[i], pool) ==> Less(Get(s[i], f), rate) >= 0.0
  }

  /** What a shaved pool holds: at least the pool less the rate, and exactly that if and only if nobody is
    * clamped. */
  lemma {:induction false} ShaveOnPool(s: seq<Account>, pool: set<string>, f: Field, excess: real, held: real)
    requires held != 0.0
    ensures var left := PoolHeld(OnPool(s, pool, f, Shave(excess, held)), pool, f);
            var exact := Less(PoolHeld(s, pool, f), excess / held);
            && left >= exact
            && (left == exact <==> NobodyClamped(s, pool, f, excess / held))
  {
    hide Shave, Less, NobodyClamped, Put;
    var rate := excess / held;
    LessAdds(0.0, 0.0, rate);
    if s == [] {
      NobodyThere(s, pool, f, rate);
    } else {
      var t := OnPool(s, pool, f, Shave(excess, held));
      ShaveOnPool(s[1..], pool, f, excess, held);
      assert t[1..] == OnPool(s[1..], pool, f, Shave(excess, held));
      ClampedSplit(s, pool, f, rate);
      var v := Get(s[0], f);
      PutGet(s[0], f, Shave(excess, held)(v));
      ShaveIsLess(v, excess, held);
      LessAdds(if InPool(s[0], pool) then v else 0.0, PoolHeld(s[1..], pool, f), rate);
    }
  }

  lemma NobodyThere(s: seq<Account>, pool: set<string>, f: Field, rate: real)
    requires s == []
    ensures NobodyClamped(s, pool, f, rate)
  {
  }

  lemma ClampedSplit(s: seq<Account>, pool: set<string>, f: Field, rate: real)
    requires s != []
    ensures NobodyClamped(s, pool, f, rate)
            <==> (InPool(s[0], pool) ==> Less(Get(s[0], f), rate) >= 0.0) && NobodyClamped(s[1..], pool, f, rate)
  {
    hide Less;
    if NobodyClamped(s[1..], pool, f, rate) && (InPool(s[0], pool) ==> Less(Get(s[0], f), rate) >= 0.0) {
      forall i | 0 <= i < |s| && InPool(s[i], pool)
        ensures Less(Get(s[i], f), rate) >= 0.0
      {
        if i > 0 {
          assert s[i] == s[1..][i - 1];
        }
      }
    }
  }

  /** With something to take off and a pool that has it, nobody is clamped exactly when nobody was below
    * zero to begin with, or the whole pool goes. */
  lemma ClampedIff(s: seq<Account>, pool: set<string>, f: Field, excess: real, held: real)
    requires 0.0 < excess <= held
    ensures NobodyClamped(s, pool, f, excess / held) <==> excess == held || PoolSound(s, pool, f)
  {
    hide Less;
    RateRange(excess, held);
    var rate := excess / held;
    forall i | 0 <= i < |s|
      ensures Less(Get(s[i], f), rate) >= 0.0 <==> Get(s[i], f) >= 0.0 || rate == 1.0
    {
      LessSign(Get(s[i], f), rate);
    }
  }

  lemma SoundSplit(s: seq<Account>, pool: set<string>, f: Field)
    requires s != []
    ensures PoolSound(s, pool, f) <==> (InPool(s[0], pool) ==> Get(s[0], f) >= 0.0) && PoolSound(s[1..], pool, f)
  {
    if PoolSound(s[1..], pool, f) && (InPool(s[0], pool) ==> Get(s[0], f) >= 0.0) {
      forall i | 0 <= i < |s| && InPool(s[i], pool)
        ensures Get(s[i], f) >= 0.0
      {
        if i > 0 {
          assert s[i] == s[1..][i - 1];
        }
      }
    }
  }

  /** A write-down touches pool accounts only and leaves none below zero; a refusal changes nothing.
    * When it writes, the books afterwards claim at least what the vault holds, and exactly that if and
    * only if nobody is clamped: with an excess to take off, if and only if no pool account was overdrawn
    * to begin with, or the excess is the whole pool. Otherwise the clamp at zero hands an overdrawn
    * account coin and the books still claim too much. */
  lemma WriteDownExactIff(s: seq<Account>, pool: set<string>, f: Field, chainHeld: real, openStake: real,
                          maxFrac: real, minExcess: real)
    ensures var r := WriteDown(s, pool, f, chainHeld, openStake, maxFrac, minExcess);
            && OnlyThePool(s, r.ledger, pool, f)
            && (r.reason != Moved ==> r.ledger == s && r.moved == 0.0)
            && (r.reason == NotANumber ==> minExcess < 0.0)
            && (r.reason == Moved ==>
                  (&& r.moved == Claimed(s, pool, f, openStake) - chainHeld > minExcess
                   && PoolHeld(s, pool, f) != 0.0
                   && PoolSound(r.ledger, pool, f)
                   && chainHeld >= Player(s, pool, f) == Player(r.ledger, pool, f)
                   && Claimed(r.ledger, pool, f, openStake) >= chainHeld
                   && (Claimed(r.ledger, pool, f, openStake) == chainHeld
                       <==> NobodyClamped(s, pool, f, r.moved / PoolHeld(s, pool, f)))
                   && (r.moved > 0.0 ==>
                         (Claimed(r.ledger, pool, f, openStake) == chainHeld
                          <==> r.moved == PoolHeld(s, pool, f) || PoolSound(s, pool, f)))))
  {
    hide House, Player, PoolHeld, PoolCount, PoolSound, NobodyClamped, Less, Shave, OnPool;
    var r := WriteDown(s, pool, f, chainHeld, openStake, maxFrac, minExcess);
    Unmoved(s, f);
    if r.reason == Moved {
      var held := PoolHeld(s, pool, f);
      OnPoolPointwise(s, pool, f, Shave(r.moved, held));
      PoolMovesTheHouse(s, r.ledger, pool, f);
      ShaveOnPool(s, pool, f, r.moved, held);
      RateIs(r.moved, held);
      NothingBelowZero(s, r.ledger, pool, f, r.moved, held);
      if r.moved > 0.0 {
        ClampedIff(s, pool, f, r.moved, held);
      }
    }
  }

  /** It writes exactly when there is a pool and a reading, the claims exceed the vault by more than the
    * threshold, the vault covers the players, the pool covers the excess, and the excess is within its part
    * of the house's holdings. */
  lemma WriteDownMovesIff(s: seq<Account>, pool: set<string>, f: Field, chainHeld: real, openStake: real,
                          maxFrac: real, minExcess: real)
    ensures WriteDown(s, pool, f, chainHeld, openStake, maxFrac, minExcess).reason == Moved <==>
              (var excess := Claimed(s, pool, f, openStake) - chainHeld;
               && (exists i :: 0 <= i < |s| && InPool(s[i], pool)) && chainHeld > 0.0 && excess > minExcess
               && chainHeld >= Player(s, pool, f) && 0.0 != PoolHeld(s, pool, f) >= excess
               && (House(s, pool, f) <= 0.0 || excess <= maxFrac * House(s, pool, f)))
  {
    hide House, Player, PoolHeld, PoolCount, OnPool, Shave;
    PoolCountPositive(s, pool);
    if House(s, pool, f) > 0.0 {
      PartIs(Claimed(s, pool, f, openStake) - chainHeld, House(s, pool, f), maxFrac);
    }
  }

  lemma PartIs(excess: real, house: real, frac: real)
    requires house > 0.0
    ensures excess / house > frac <==> excess > frac * house
  {
    var q := excess / house;
    assert q * house == excess;
    if q > frac {
      assert (q - frac) * house > 0.0;
    } else {
      assert (frac - q) * house >= 0.0;
    }
  }

  /** Every refusal says what is the matter. */
  lemma RefusalsMeanWhatTheySay(s: seq<Account>, pool: set<string>, f: Field, chainHeld: real, openStake: real,
                                maxFrac: real, minExcess: real, minGap: real)
    ensures var why, excess := WriteDown(s, pool, f, chainHeld, openStake, maxFrac, minExcess).reason, Claimed(s, pool, f, openStake) - chainHeld;
            && (why == NoPool <==> forall i :: 0 <= i < |s| ==> !InPool(s[i], pool))
            && (why == NoReading ==> chainHeld <= 0.0) && (why == NoExcess ==> excess <= minExcess)
            && (why == RealShortfall ==> chainHeld < Player(s, pool, f))
            && (why == BeyondThePool ==> PoolHeld(s, pool, f) < excess)
            && (why == TooLarge ==> House(s, pool, f) > 0.0 && excess > maxFrac * House(s, pool, f))
            && (why == NotANumber ==> PoolHeld(s, pool, f) == 0.0)
            && why !in {OwedToPlayers, Insolvent, InSync, BelowMinimum}
    ensures var why, unclaimed := Resync(s, pool, f, chainHeld, minGap, openStake).reason, chainHeld - Claimed(s, pool, f, openStake);
            && (why == NoPool <==> forall i :: 0 <= i < |s| ==> !InPool(s[i], pool))
            && (why == OwedToPlayers ==> chainHeld <= Player(s, pool, f) + openStake)
            && (why == Insolvent ==> unclaimed < -0.0001) && (why == InSync ==> -0.0001 <= unclaimed <= 0.0001)
            && (why == BelowMinimum ==> 0.0001 < unclaimed < minGap)
            && why in {Moved, NoPool, OwedToPlayers, Insolvent, InSync, BelowMinimum}
  {
    hide House, Player, PoolHeld, PoolCount, OnPool, Shave;
    PoolCountPositive(s, pool);
    if House(s, pool, f) > 0.0 {
      PartIs(Claimed(s, pool, f, openStake) - chainHeld, House(s, pool, f), maxFrac);
    }
  }

  /** Every pool account pays in proportion to what it holds, down to nothing at the most. */
  lemma WriteDownIsProportional(s: seq<Account>, pool: set<string>, f: Field, chainHeld: real, openStake: real,
                                maxFrac: real, minExcess: real, i: nat)
    requires WriteDown(s, pool, f, chainHeld, openStake, maxFrac, minExcess).reason == Moved && i < |s| && InPool(s[i], pool)
    ensures var r, held := WriteDown(s, pool, f, chainHeld, openStake, maxFrac, minExcess), PoolHeld(s, pool, f);
            held != 0.0 && Get(r.ledger[i], f) == Max(0.0, Less(Get(s[i], f), r.moved / held))
  {
    hide House, Player, PoolHeld, PoolCount, Less, Shave, OnPool;
    var r := WriteDown(s, pool, f, chainHeld, openStake, maxFrac, minExcess);
    OnPoolPointwise(s, pool, f, Shave(r.moved, PoolHeld(s, pool, f)));
    ShaveIsLess(Get(s[i], f), r.moved, PoolHeld(s, pool, f));
  }

  lemma NothingBelowZero(s: seq<Account>, t: seq<Account>, pool: set<string>, f: Field, excess: real, held: real)
    requires OnlyThePool(s, t, pool, f) && held != 0.0
    requires forall i :: 0 <= i < |s| && InPool(s[i], pool) ==> Get(t[i], f) == Shave(excess, held)(Get(s[i], f))
    ensures PoolSound(t, pool, f)
  {
    hide Shave;
    forall i | 0 <= i < |t| && InPool(t[i], pool)
      ensures Get(t[i], f) >= 0.0
    {
      assert t[i] == Put(s[i], f, Get(t[i], f));
      assert InPool(s[i], pool);
      ShaveIsLess(Get(s[i], f), excess, held);
    }
  }

  /** The write-down that misses: an overdrawn pool account is topped up to zero with coin nobody has. */
  lemma WriteDownCanMiss()
    ensures var s := [Account("p", true, 30.0, 0.0, 0.0), Account("q", true, -10.0, 0.0, 0.0), Account("u", false, 85.0, 0.0, 0.0)];
            var r := WriteDown(s, {"p", "q"}, BullCoin, 100.0, 0.0, 0.25, 0.0);
            r.reason == Moved && r.moved == 5.0 && Claimed(r.ledger, {"p", "q"}, BullCoin, 0.0) > 100.0
  {
    hide Shave, OnPool, OnlyThePool, House, Player, PoolHeld, PoolCount, SumR;
    var p, q, u := Account("p", true, 30.0, 0.0, 0.0), Account("q", true, -10.0, 0.0, 0.0), Account("u", false, 85.0, 0.0, 0.0);
    var s, pool := [p, q, u], {"p", "q"};
    Totals3(p, q, u, pool, BullCoin);
    assert !InPool(u, pool);
    WriteDownExactIff(s, pool, BullCoin, 100.0, 0.0, 0.25, 0.0);
    assert InPool(s[1], pool) && Get(s[1], BullCoin) < 0.0;
  }

  lemma Totals3(p: Account, q: Account, u: Account, pool: set<string>, f: Field)
    requires InPool(p, pool) && InPool(q, pool) && !InPool(u, pool) && !u.isBot
    ensures var s := [p, q, u];
            && House(s, pool, f) == PoolHeld(s, pool, f) == Get(p, f) + Get(q, f)
            && Player(s, pool, f) == Get(u, f) && PoolCount(s, pool) == 2.0
  {
    Sum3(p, q, u, HousePart(pool, f));
    Sum3(p, q, u, PoolPart(pool, f));
    Sum3(p, q, u, PlayerPart(pool, f));
    Sum3(p, q, u, One(pool));
  }

  lemma Sum3(p: Account, q: Account, u: Account, v: Account -> real)
    ensures SumR([p, q, u], v) == v(p) + v(q) + v(u)
  {
    assert [p, q, u][1..] == [q, u] && [q, u][1..] == [u];
    assert SumR([u], v) == v(u);
    assert SumR([q, u], v) == v(q) + v(u);
  }

  /** A write-down that refuses refuses again; after an exact one, running either repair again changes
    * nothing; and after one that missed, a second that writes is exact. */
  lemma WriteDownSettles(s: seq<Account>, pool: set<string>, f: Field, chainHeld: real, openStake: real,
                         maxFrac: real, minExcess: real, maxFrac': real, minGap: real)
    ensures var r := WriteDown(s, pool, f, chainHeld, openStake, maxFrac, minExcess);
            var again := WriteDown(r.ledger, pool, f, chainHeld, openStake, maxFrac', minExcess);
            && (r.reason != Moved ==> WriteDown(r.ledger, pool, f, chainHeld, openStake, maxFrac, minExcess) == r)
            && (r.reason == Moved && NobodyClamped(s, pool, f, r.moved / PoolHeld(s, pool, f)) ==>
                  again.ledger == r.ledger
                  && Resync(r.ledger, pool, f, chainHeld, minGap, openStake).ledger == r.ledger)
            && (r.reason == Moved && again.reason == Moved ==> Claimed(again.ledger, pool, f, openStake) == chainHeld)
  {
    hide House, Player, PoolHeld, PoolCount, OnPool, OnlyThePool, PoolSound, NobodyClamped, Shave;
    var r := WriteDown(s, pool, f, chainHeld, openStake, maxFrac, minExcess);
    WriteDownExactIff(s, pool, f, chainHeld, openStake, maxFrac, minExcess);
    WriteDownExactIff(r.ledger, pool, f, chainHeld, openStake, maxFrac', minExcess);
    if r.reason == Moved && PoolHeld(r.ledger, pool, f) != 0.0 {
      NothingToShave(r.ledger, pool, f, PoolHeld(r.ledger, pool, f));
    }
  }
}
