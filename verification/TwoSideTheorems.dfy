/** What every two-army fight keeps, whatever its trajectory. */
module TwoSideTheorems {
  import opened Basics
  import opened Sums
  import opened TwoSideSim

  // ---- the matched book ----

  function RingOn(side: Side): Fighter -> real {
    (f: Fighter) => if f.side == Army(side) then Ring(f) else 0.0
  }

  ghost predicate Stakes(entries: seq<Entry>) {
    forall e :: e in entries ==> e.stake >= 0.0
  }

  /** No entry prints as a side without being one. */
  ghost predicate NoImpostors(entries: seq<Entry>) {
    forall e :: e in entries && e.side.Stray? ==> Text(e.side) != "bull" && Text(e.side) != "uwu"
  }

  lemma BookIsTheStakes(entries: seq<Entry>, side: Side)
    requires NoImpostors(entries)
    ensures BookTotal(entries, side) == TotalStake(entries, side)
  {
    forall i | 0 <= i < |entries|
      ensures BookOn(side)(entries[i]) == StakeOn(side)(entries[i])
    {
      assert entries[i] in entries;
      SideNamesDiffer();
    }
    SumSameR(entries, entries, BookOn(side), StakeOn(side));
  }

  lemma SideNamesDiffer()
    ensures SideName(Bull) == "bull" && SideName(Uwu) == "uwu" && "bull" != "uwu"
  {
    assert |"bull"| == 4 && |"uwu"| == 3;
  }

  lemma BookTotalNonNeg(entries: seq<Entry>, side: Side)
    requires Stakes(entries)
    ensures BookTotal(entries, side) >= 0.0
  {
    SumNonNegR(entries, BookOn(side));
  }

  lemma ArmyFrac(entries: seq<Entry>, side: Side, tol: real)
    ensures FracFor(entries, Army(side), tol)
         == InPlayFrac(BookTotal(entries, side), BookTotal(entries, Foe(side)), tol)
  {
    SideNamesDiffer();
  }

  lemma InPlayTotal(entries: seq<Entry>, tol: real, side: Side)
    ensures SumR(Muster(entries, tol), RingOn(side)) == TotalStake(entries, side) * FracFor(entries, Army(side), tol)
  {
    hide FracFor, Spawn, RingOn, StakeOn;
    forall i | 0 <= i < |entries|
      ensures RingOn(side)(Muster(entries, tol)[i]) == StakeOn(side)(entries[i]) * FracFor(entries, Army(side), tol)
    {
      RingShare(entries[i], side, FracFor(entries, entries[i].side, tol), FracFor(entries, Army(side), tol));
    }
    SumScaleR(Muster(entries, tol), entries, RingOn(side), StakeOn(side), FracFor(entries, Army(side), tol));
  }

  lemma RingShare(e: Entry, side: Side, mine: real, frac: real)
    requires e.side == Army(side) ==> mine == frac
    ensures RingOn(side)(Spawn(e, mine)) == StakeOn(side)(e) * frac
  {
    SpawnRing(e, mine);
  }

  lemma SpawnRing(e: Entry, frac: real)
    ensures Spawn(e, frac).side == e.side
    ensures Ring(Spawn(e, frac)) == if e.side.Army? then e.stake * frac else 0.0
  {
    CampCases(e.side);
  }

  lemma CampCases(c: Camp)
    ensures c.Stray? || c == Army(Bull) || c == Army(Uwu)
  {
    if c.Army? {
      match c.side
      case Bull =>
      case Uwu =>
    }
  }

  /** The most a side can put in play against `foe`. */
  function Cover(foe: real, tol: real): real { foe * (1.0 + tol) }

  ghost predicate EvenOn(entries: seq<Entry>, tol: real, side: Side) {
    SumR(Muster(entries, tol), RingOn(side)) == Min(TotalStake(entries, side), Cover(TotalStake(entries, Foe(side)), tol))
  }

  /** A side's stakes fare in the book as they would by themselves: there are none, or they are covered by
    * either count, or the two counts give one ratio. */
  ghost predicate FairCount(mine: real, foe: real, bookMine: real, bookFoe: real, tol: real) {
    || mine == 0.0
    || (bookMine <= Cover(bookFoe, tol) && mine <= Cover(foe, tol))
    || SameRatio(mine, foe, bookMine, bookFoe)
  }

  ghost predicate SameRatio(mine: real, foe: real, bookMine: real, bookFoe: real) {
    mine * bookFoe == foe * bookMine
  }

  ghost predicate Undisturbed(entries: seq<Entry>, tol: real, side: Side) {
    FairCount(TotalStake(entries, side), TotalStake(entries, Foe(side)), BookTotal(entries, side), BookTotal(entries, Foe(side)), tol)
  }

  /** Each side puts in play exactly what the other can cover, within the tolerance, if and only if the
    * book is undisturbed: as it always is when nothing prints as a side without being one. */
  lemma MatchedBook(entries: seq<Entry>, tol: real, side: Side)
    requires Stakes(entries) && tol >= 0.0
    ensures EvenOn(entries, tol, side) <==> Undisturbed(entries, tol, side)
    ensures NoImpostors(entries) ==> EvenOn(entries, tol, side)
  {
    hide InPlayFrac, TotalStake, BookTotal, Muster, FracFor, NoImpostors, Cover, SameRatio;
    var foe := Foe(side);
    ArmyFrac(entries, side, tol);
    InPlayTotal(entries, tol, side);
    StakesWithinBook(entries, side);
    StakesWithinBook(entries, foe);
    PartOfBook(TotalStake(entries, side), TotalStake(entries, foe), BookTotal(entries, side), BookTotal(entries, foe), tol);
    assert SumR(Muster(entries, tol), RingOn(side)) == Scaled(TotalStake(entries, side), FracFor(entries, Army(side), tol));
    if NoImpostors(entries) {
      BookIsTheStakes(entries, side);
      BookIsTheStakes(entries, foe);
      OneCount(TotalStake(entries, side), TotalStake(entries, foe));
    }
  }

  lemma OneCount(mine: real, foe: real)
    ensures SameRatio(mine, foe, mine, foe)
  {
  }

  lemma StakesWithinBook(entries: seq<Entry>, side: Side)
    requires Stakes(entries)
    ensures 0.0 <= TotalStake(entries, side) <= BookTotal(entries, side)
  {
    forall i | 0 <= i < |entries|
      ensures 0.0 <= StakeOn(side)(entries[i]) <= BookOn(side)(entries[i])
    {
      assert entries[i] in entries;
    }
    SumMonoR(entries, StakeOn(side), BookOn(side));
    SumNonNegR(entries, StakeOn(side));
  }

  /** A part of a book played at the book's ratio, against the same part at its own. */
  lemma PartOfBook(mine: real, foe: real, bookMine: real, bookFoe: real, tol: real)
    requires 0.0 <= mine <= bookMine && 0.0 <= foe <= bookFoe && tol >= 0.0
    ensures Scaled(mine, InPlayFrac(bookMine, bookFoe, tol)) == Min(mine, Cover(foe, tol))
            <==> FairCount(mine, foe, bookMine, bookFoe, tol)
  {
    hide InPlayFrac, Cover, SameRatio, Scaled;
    var q := InPlayFrac(bookMine, bookFoe, tol);
    CoverNonNeg(foe, tol);
    ScaledIs(mine, q);
    if mine > 0.0 {
      FracIs(bookMine, bookFoe, tol);
      if bookMine <= Cover(bookFoe, tol) {
        CoveredAlike(mine, foe, bookMine, bookFoe, tol);
      } else {
        RatioIs(mine, q, bookMine, foe, bookFoe, tol);
      }
    }
  }

  function Scaled(x: real, q: real): real { x * q }

  lemma ScaledIs(x: real, q: real)
    ensures x == 0.0 ==> Scaled(x, q) == 0.0
    ensures q == 1.0 ==> Scaled(x, q) == x
    ensures x > 0.0 && q < 1.0 ==> Scaled(x, q) < x
  {
    if x > 0.0 && q < 1.0 {
      assert x * (1.0 - q) > 0.0;
    }
  }

  lemma CoverNonNeg(foe: real, tol: real)
    requires foe >= 0.0 && tol >= 0.0
    ensures Cover(foe, tol) >= 0.0
  {
  }

  lemma FracIs(mine: real, foe: real, tol: real)
    requires mine > 0.0
    ensures var q := InPlayFrac(mine, foe, tol);
            && (mine <= Cover(foe, tol) ==> q == 1.0)
            && (mine > Cover(foe, tol) ==> q < 1.0 && Scaled(mine, q) == Cover(foe, tol))
  {
    var cap := Cover(foe, tol);
    var q := cap / mine;
    assert q * mine == cap;
    assert (q - 1.0) * mine == cap - mine;
    if q >= 1.0 {
      assert (q - 1.0) * mine >= 0.0;
    } else {
      assert (1.0 - q) * mine > 0.0;
    }
  }

  lemma CoveredAlike(mine: real, foe: real, bookMine: real, bookFoe: real, tol: real)
    requires bookMine > 0.0 && mine > 0.0 && tol >= 0.0 && bookMine <= Cover(bookFoe, tol)
    ensures SameRatio(mine, foe, bookMine, bookFoe) ==> mine <= Cover(foe, tol)
  {
    if SameRatio(mine, foe, bookMine, bookFoe) {
      var k := 1.0 + tol;
      assert mine * (bookFoe * k - bookMine) >= 0.0;
      assert mine * (bookFoe * k) == mine * bookFoe * k == foe * bookMine * k == foe * k * bookMine;
      assert (foe * k - mine) * bookMine >= 0.0;
    }
  }

  lemma RatioIs(mine: real, q: real, bookMine: real, foe: real, bookFoe: real, tol: real)
    requires bookMine > 0.0 && tol >= 0.0 && Scaled(bookMine, q) == Cover(bookFoe, tol)
    ensures Scaled(mine, q) == Cover(foe, tol) <==> SameRatio(mine, foe, bookMine, bookFoe)
  {
    var k := 1.0 + tol;
    assert mine * q * bookMine == mine * (bookMine * q) == mine * (bookFoe * k) == mine * bookFoe * k;
    assert foe * k * bookMine == foe * bookMine * k;
    CancelFactor(mine * q, foe * k, bookMine);
    CancelFactor(mine * bookFoe, foe * bookMine, k);
  }

  lemma CancelFactor(x: real, y: real, k: real)
    requires k > 0.0
    ensures x * k == y * k <==> x == y
  {
    assert (x - y) * k == x * k - y * k;
  }

  /** With no tolerance the two armies start exactly equal, at the smaller of the two totals, if and only
    * if the book keeps the ratio of the stakes: as it does when nothing prints as a side without being
    * one. */
  lemma StrictBookIsEven(entries: seq<Entry>)
    requires Stakes(entries)
    ensures (forall side :: SumR(Muster(entries, 0.0), RingOn(side)) == Min(TotalStake(entries, Bull), TotalStake(entries, Uwu)))
            <==> SameRatio(TotalStake(entries, Bull), TotalStake(entries, Uwu), BookTotal(entries, Bull), BookTotal(entries, Uwu))
    ensures NoImpostors(entries) ==>
              forall side :: SumR(Muster(entries, 0.0), RingOn(side)) == Min(TotalStake(entries, Bull), TotalStake(entries, Uwu))
  {
    hide TotalStake, Muster, BookTotal, NoImpostors, RingOn, SameRatio, Cover;
    forall side
      ensures EvenOn(entries, 0.0, side) <==> Undisturbed(entries, 0.0, side)
      ensures EvenOn(entries, 0.0, side)
              <==> SumR(Muster(entries, 0.0), RingOn(side)) == Min(TotalStake(entries, Bull), TotalStake(entries, Uwu))
      ensures NoImpostors(entries) ==> EvenOn(entries, 0.0, side)
    {
      MatchedBook(entries, 0.0, side);
      NoTolerance(TotalStake(entries, Foe(side)));
      match side
      case Bull =>
      case Uwu =>
    }
    StakesWithinBook(entries, Bull);
    StakesWithinBook(entries, Uwu);
    BothFair(TotalStake(entries, Bull), TotalStake(entries, Uwu), BookTotal(entries, Bull), BookTotal(entries, Uwu));
    assert Undisturbed(entries, 0.0, Bull) && Undisturbed(entries, 0.0, Uwu) <==> forall side :: Undisturbed(entries, 0.0, side);
  }

  lemma NoTolerance(foe: real)
    ensures Cover(foe, 0.0) == foe
  {
  }

  lemma BothFair(a: real, b: real, bookA: real, bookB: real)
    requires 0.0 <= a <= bookA && 0.0 <= b <= bookB
    ensures FairCount(a, b, bookA, bookB, 0.0) && FairCount(b, a, bookB, bookA, 0.0) <==> SameRatio(a, b, bookA, bookB)
  {
    hide Cover, SameRatio;
    NoTolerance(a);
    NoTolerance(b);
    NoTolerance(bookA);
    NoTolerance(bookB);
    RatioTurns(a, b, bookA, bookB);
  }

  lemma RatioTurns(a: real, b: real, bookA: real, bookB: real)
    ensures SameRatio(a, b, bookA, bookB) <==> SameRatio(b, a, bookB, bookA)
    ensures a == b && (bookA == bookB || a == 0.0) ==> SameRatio(a, b, bookA, bookB)
  {
  }

  /** A message whose side only prints like an army's unsettles the fight between two armies that staked
    * the same: the first side plays two thirds against the whole of the other. */
  lemma ImpostorSkewsTheBook(a: string, b: string, c: string)
    ensures var entries := [Entry(a, Army(Bull), 100.0), Entry(b, Army(Uwu), 100.0), Entry(c, Stray("bull", 0), 50.0)];
            && TotalStake(entries, Bull) == TotalStake(entries, Uwu) == 100.0
            && 3.0 * SumR(Muster(entries, 0.0), RingOn(Bull)) == 200.0 && SumR(Muster(entries, 0.0), RingOn(Uwu)) == 100.0
  {
    hide Muster, RingOn, FracFor;
    var x, y, z := Entry(a, Army(Bull), 100.0), Entry(b, Army(Uwu), 100.0), Entry(c, Stray("bull", 0), 50.0);
    var entries := [x, y, z];
    forall side
      ensures TotalStake(entries, side) == 100.0
      ensures BookTotal(entries, side) == if side == Bull then 150.0 else 100.0
    {
      SideNamesDiffer();
      SumOfThree(x, y, z, StakeOn(side));
      SumOfThree(x, y, z, BookOn(side));
      CampCases(Army(side));
    }
    InPlayTotal(entries, 0.0, Bull);
    InPlayTotal(entries, 0.0, Uwu);
    ArmyFrac(entries, Bull, 0.0);
    ArmyFrac(entries, Uwu, 0.0);
  }

  lemma SumOfThree<T>(x: T, y: T, z: T, v: T -> real)
    ensures SumR([x, y, z], v) == v(x) + v(y) + v(z)
  {
    assert [x, y, z][1..] == [y, z] && [y, z][1..] == [z];
    assert SumR([z], v) == v(z);
    assert SumR([y, z], v) == v(y) + v(z);
  }

  /** What is not in play is refunded: for an entry on a side the two parts make up the stake and
    * neither is negative. An entry on no side starts with nothing in the ring. */
  lemma StakesSplit(entries: seq<Entry>, tol: real, i: nat)
    requires Stakes(entries) && tol >= 0.0 && i < |entries|
    ensures var e, f := entries[i], Muster(entries, tol)[i];
            && f.id == e.id && f.side == e.side && f.deposited == e.stake
            && Ring(f) >= 0.0 && f.unmatched >= 0.0
            && (e.side.Army? ==> Ring(f) + f.unmatched == e.stake)
            && (e.side.Stray? ==> Ring(f) == 0.0)
            && Sound(f) && (forall tk :: Coin(tk)(f) == if e.side == Army(tk) then Ring(f) else 0.0)
            && f.dmgDealt == f.dmgTaken == 0.0
  {
    hide InPlay, FracFor;
    assert entries[i] in entries;
    InPlayWithin(entries, entries[i], tol);
    EnlistSound(entries[i], InPlay(entries[i], FracFor(entries, entries[i].side, tol)));
  }

  lemma InPlayWithin(entries: seq<Entry>, e: Entry, tol: real)
    requires Stakes(entries) && tol >= 0.0 && e in entries
    ensures 0.0 <= InPlay(e, FracFor(entries, e.side, tol)) <= e.stake
  {
    hide FracFor;
    FracWithin(entries, e.side, tol);
    ShareOfStake(e.stake, FracFor(entries, e.side, tol));
  }

  lemma FracWithin(entries: seq<Entry>, c: Camp, tol: real)
    requires Stakes(entries) && tol >= 0.0
    ensures 0.0 <= FracFor(entries, c, tol) <= 1.0
  {
    hide InPlayFrac, BookTotal, Text, Slot;
    var foe := Foe(Slot(c));
    BookTotalNonNeg(entries, Bull);
    BookTotalNonNeg(entries, Uwu);
    FracTimesTotal(BookTotal(entries, Bull), BookTotal(entries, foe), tol);
    FracTimesTotal(BookTotal(entries, Uwu), BookTotal(entries, foe), tol);
  }

  lemma EnlistSound(e: Entry, inPlay: real)
    requires 0.0 <= inPlay <= e.stake
    ensures var f := Enlist(e, inPlay);
            && Ring(f) >= 0.0 && f.unmatched >= 0.0
            && (e.side.Army? ==> Ring(f) + f.unmatched == e.stake)
            && (e.side.Stray? ==> Ring(f) == 0.0)
            && Sound(f) && (forall tk :: Coin(tk)(f) == if e.side == Army(tk) then Ring(f) else 0.0)
            && f.id == e.id && f.side == e.side && f.deposited == e.stake && f.dmgDealt == f.dmgTaken == 0.0
  {
    CampCases(e.side);
  }

  lemma FracTimesTotal(mine: real, foe: real, tol: real)
    requires mine >= 0.0 && foe >= 0.0 && tol >= 0.0
    ensures mine * InPlayFrac(mine, foe, tol) == Min(mine, foe * (1.0 + tol))
    ensures 0.0 <= InPlayFrac(mine, foe, tol) <= 1.0
  {
    var cap := foe * (1.0 + tol);
    assert cap >= 0.0;
    if mine > 0.0 {
      var q := cap / mine;
      assert q * mine == cap;
      NonNegQuotient(q, mine);
      assert (q - 1.0) * mine == cap - mine;
      if q >= 1.0 {
        assert (q - 1.0) * mine >= 0.0;
      } else {
        assert (1.0 - q) * mine > 0.0;
      }
    }
  }

  lemma NonNegQuotient(q: real, mine: real)
    requires mine > 0.0 && q * mine >= 0.0
    ensures q >= 0.0
  {
  }

  lemma ShareOfStake(stake: real, share: real)
    requires stake >= 0.0 && 0.0 <= share <= 1.0
    ensures 0.0 <= stake * share <= stake
  {
    assert stake * (1.0 - share) >= 0.0;
  }

  // ---- what one clash keeps ----

  /** A coin wherever a fighter keeps it: in the ring or banked out of it. */
  function Coin(tk: Side): Fighter -> real {
    (f: Fighter) => if tk == Bull then f.bull + f.sBull else f.uwu + f.sUwu
  }

  function Dealt(f: Fighter): real { f.dmgDealt }

  function Taken(f: Fighter): real { f.dmgTaken }

  function AmountOf(h: HitLog): real { h.amt }

  /** Nothing is owed that is not held, and a fighter's worth is what it staked, plus what it raided,
    * minus what was taken from it. The stake of a fighter on no side is already gone. */
  ghost predicate Sound(f: Fighter) {
    && f.bull >= 0.0 && f.uwu >= 0.0 && f.sBull >= 0.0 && f.sUwu >= 0.0
    && f.dmgDealt == f.raided >= 0.0 && f.dmgTaken >= 0.0
    && Coin(Bull)(f) + Coin(Uwu)(f) + (if f.side.Army? then f.unmatched - f.deposited else 0.0) == f.raided - f.dmgTaken
  }

  ghost predicate SameEntry(f: Fighter, f': Fighter) {
    f'.id == f.id && f'.side == f.side && f'.deposited == f.deposited && f'.unmatched == f.unmatched
  }

  /** What a blow moves: nothing at all when it is too small to register. */
  function Moves(def: Fighter, hit: Hit): real {
    if Landed(def, hit) <= 0.01 then 0.0 else Landed(def, hit)
  }

  lemma SufferEffect(def: Fighter, hit: Hit)
    requires Sound(def)
    ensures var def' := Suffer(def, hit);
            && Sound(def') && SameEntry(def, def')
            && (forall tk :: Coin(tk)(def') == Coin(tk)(def) - (if tk == hit.tk then Moves(def, hit) else 0.0))
            && def'.dmgDealt == def.dmgDealt && def'.dmgTaken == def.dmgTaken + Moves(def, hit)
            && Ring(def') <= Ring(def)
  {
  }

  lemma RewardEffect(mode: Mode, atk: Fighter, def: Fighter, hit: Hit)
    requires Sound(atk)
    ensures var atk' := Reward(mode, atk, def, hit);
            && Sound(atk') && SameEntry(atk, atk')
            && (forall tk :: Coin(tk)(atk') == Coin(tk)(atk) + (if tk == hit.tk then Moves(def, hit) else 0.0))
            && atk'.dmgDealt == atk.dmgDealt + Moves(def, hit) && atk'.dmgTaken == atk.dmgTaken
            && (mode == Extraction ==> Ring(atk') == Ring(atk))
  {
    match mode
    case Normal =>
    case Extraction =>
  }

  lemma BlowEffect(mode: Mode, atk: Fighter, def: Fighter, hit: Hit)
    requires Sound(atk) && Sound(def)
    ensures var atk', def' := Reward(mode, atk, def, hit), Suffer(def, hit);
            && Sound(atk') && Sound(def') && SameEntry(atk, atk') && SameEntry(def, def')
            && (forall tk :: Coin(tk)(atk') + Coin(tk)(def') == Coin(tk)(atk) + Coin(tk)(def))
            && atk'.dmgDealt == atk.dmgDealt + Moves(def, hit) && def'.dmgDealt == def.dmgDealt
            && def'.dmgTaken == def.dmgTaken + Moves(def, hit) && atk'.dmgTaken == atk.dmgTaken
            && (mode == Extraction ==> Ring(atk') <= Ring(atk) && Ring(def') <= Ring(def))
  {
    hide Sound, Reward, Suffer, Coin, Moves, Ring;
    RewardEffect(mode, atk, def, hit);
    SufferEffect(def, hit);
  }

  lemma LogAmount(t: nat, atk: Fighter, def: Fighter, hit: Hit)
    ensures SumR(LogOf(t, atk, def, hit), AmountOf) == Moves(def, hit)
  {
  }

  /** Two updates at distinct positions that keep the pair's sum move the total by the difference. */
  lemma SumUpdate2(fs: seq<Fighter>, i: nat, j: nat, x: Fighter, y: Fighter, v: Fighter -> real)
    requires i < |fs| && j < |fs| && i != j
    ensures SumR(fs[i := x][j := y], v) == SumR(fs, v) - v(fs[i]) - v(fs[j]) + v(x) + v(y)
  {
    SumUpdateR(fs, i, x, v);
    SumUpdateR(fs[i := x], j, y, v);
  }

  /** The invariant of a whole fight over these entries. */
  ghost predicate Books(start: seq<Fighter>, x: Melee) {
    && |x.F| == |start|
    && (forall i :: 0 <= i < |start| ==> Sound(x.F[i]) && SameEntry(start[i], x.F[i]))
    && SumR(x.F, Coin(Bull)) == SumR(start, Coin(Bull))
    && SumR(x.F, Coin(Uwu)) == SumR(start, Coin(Uwu))
    && SumR(x.F, Dealt) == SumR(x.F, Taken) == SumR(x.hits, AmountOf)
  }

  /** Every logged hit moved something, and never between two fighters of one wallet. */
  ghost predicate FairHits(hits: seq<HitLog>) {
    forall k :: 0 <= k < |hits| ==> hits[k].amt > 0.01 && OwnerOf(hits[k].atk) != OwnerOf(hits[k].def)
  }

  lemma ExchangeKeeps(mode: Mode, t: nat, a: Fighter, b: Fighter, onB: Hit, onA: Hit)
    requires Sound(a) && Sound(b)
    ensures var (a2, b2) := Exchange(mode, a, b, onB, onA);
            var moved := SumR(ExchangeLog(mode, t, a, b, onB, onA), AmountOf);
            && Sound(a2) && Sound(b2) && SameEntry(a, a2) && SameEntry(b, b2)
            && (forall tk :: Coin(tk)(a2) + Coin(tk)(b2) == Coin(tk)(a) + Coin(tk)(b))
            && a2.dmgDealt + b2.dmgDealt - a.dmgDealt - b.dmgDealt == moved
            && a2.dmgTaken + b2.dmgTaken - a.dmgTaken - b.dmgTaken == moved
  {
    hide Reward, Suffer, Sound, LogOf, Moves;
    var a1, b1 := Reward(mode, a, b, onB), Suffer(b, onB);
    BlowEffect(mode, a, b, onB);
    BlowEffect(mode, b1, a1, onA);
    LogAmount(t, a, b, onB);
    LogAmount(t, b1, a1, onA);
    SumAppendR(LogOf(t, a, b, onB), LogOf(t, b1, a1, onA), AmountOf);
  }

  lemma LogIsFair(mode: Mode, t: nat, a: Fighter, b: Fighter, onB: Hit, onA: Hit)
    requires OwnerOf(a.id) != OwnerOf(b.id)
    ensures FairHits(ExchangeLog(mode, t, a, b, onB, onA))
  {
    assert Reward(mode, a, b, onB).id == a.id && Suffer(b, onB).id == b.id;
  }

  lemma BuryKeeps(f: Fighter, f': Fighter)
    requires Sound(f') && SameEntry(f, f')
    ensures var g := Bury(f');
            Sound(g) && SameEntry(f, g) && g.dmgDealt == f'.dmgDealt && g.dmgTaken == f'.dmgTaken
            && forall tk :: Coin(tk)(g) == Coin(tk)(f')
  {
  }

  lemma ClashKeeps(cfg: Config, phys: Physics, t: nat, duel: bool, start: seq<Fighter>, x: Melee, i: nat, j: nat)
    requires Books(start, x) && i < |x.F| && j < |x.F| && i != j && FairHits(x.hits)
    ensures Books(start, ClashAt(cfg, phys, t, duel, x, i, j))
    ensures FairHits(ClashAt(cfg, phys, t, duel, x, i, j).hits)
  {
    hide Plans, ExchangeLog, Exchange, Sound, Bury;
    var a, b := x.F[i], x.F[j];
    if phys(t, i, j).Some? && Enemies(a, b) {
      var (onB, onA) := Plans(cfg, t, duel, a, b, phys(t, i, j).value);
      var (a2, b2) := Exchange(cfg.mode, a, b, onB, onA);
      ExchangeKeeps(cfg.mode, t, a, b, onB, onA);
      BuryKeeps(a, a2);
      BuryKeeps(b, b2);
      UpdateKeeps(start, x, i, j, Bury(a2), Bury(b2), ExchangeLog(cfg.mode, t, a, b, onB, onA));
      LogIsFair(cfg.mode, t, a, b, onB, onA);
    }
  }

  lemma UpdateKeeps(start: seq<Fighter>, x: Melee, i: nat, j: nat, a2: Fighter, b2: Fighter, log: seq<HitLog>)
    requires Books(start, x) && i < |x.F| && j < |x.F| && i != j
    requires Sound(a2) && Sound(b2) && SameEntry(x.F[i], a2) && SameEntry(x.F[j], b2)
    requires forall tk :: Coin(tk)(a2) + Coin(tk)(b2) == Coin(tk)(x.F[i]) + Coin(tk)(x.F[j])
    requires a2.dmgDealt + b2.dmgDealt - x.F[i].dmgDealt - x.F[j].dmgDealt == SumR(log, AmountOf)
    requires a2.dmgTaken + b2.dmgTaken - x.F[i].dmgTaken - x.F[j].dmgTaken == SumR(log, AmountOf)
    ensures Books(start, Melee(x.F[i := a2][j := b2], x.hits + log))
  {
    hide Sound;
    SumUpdate2(x.F, i, j, a2, b2, Coin(Bull));
    SumUpdate2(x.F, i, j, a2, b2, Coin(Uwu));
    SumUpdate2(x.F, i, j, a2, b2, Dealt);
    SumUpdate2(x.F, i, j, a2, b2, Taken);
    SumAppendR(x.hits, log, AmountOf);
  }

  lemma {:induction false} ClashesKeep(cfg: Config, phys: Physics, t: nat, duel: bool, start: seq<Fighter>, x: Melee, A: seq<nat>, i: nat, j: nat)
    requires Books(start, x) && FairHits(x.hits) && Roster(A, |x.F|) && i < j
    ensures Books(start, ClashesFrom(cfg, phys, t, duel, x, A, i, j))
    ensures FairHits(ClashesFrom(cfg, phys, t, duel, x, A, i, j).hits)
    decreases |A| - i, |A| - j
  {
    hide ClashAt, Books, FairHits;
    if i < |A| {
      if j >= |A| {
        ClashesKeep(cfg, phys, t, duel, start, x, A, i + 1, i + 2);
      } else {
        ClashKeeps(cfg, phys, t, duel, start, x, A[i], A[j]);
        ClashesKeep(cfg, phys, t, duel, start, ClashAt(cfg, phys, t, duel, x, A[i], A[j]), A, i, j + 1);
      }
    }
  }

  /** Over a whole fight, on any trajectory: both tokens are conserved, nobody goes negative, every
    * fighter's worth is stake plus raids minus losses, and what was dealt, what was taken and what
    * was logged are the same amount. */
  lemma {:induction false} PlayKeeps(cfg: Config, phys: Physics, start: seq<Fighter>, s: Sim)
    requires Books(start, s.x) && FairHits(s.x.hits)
    ensures Books(start, Play(cfg, phys, s).x) && FairHits(Play(cfg, phys, s).x.hits)
    decreases !s.done, cfg.steps - s.t
  {
    hide Books, FairHits, ClashesFrom;
    if !s.done {
      var A := LivingFrom(s.x.F, 0);
      var duel := Count(s.x.F, A, Bull) == 1 && Count(s.x.F, A, Uwu) == 1;
      ClashesKeep(cfg, phys, s.t, duel, start, s.x, A, 0, 1);
      PlayKeeps(cfg, phys, start, StepSim(cfg, phys, s));
    }
  }

  // ---- settlement ----

  lemma StartIsSound(entries: seq<Entry>, cfg: Config)
    requires Stakes(entries) && cfg.matchTol >= 0.0
    ensures Books(Muster(entries, cfg.matchTol), CreateSim(entries, cfg).x)
    ensures forall tk :: SumR(Muster(entries, cfg.matchTol), PayoutIn(tk)) == TotalStake(entries, tk)
  {
    hide Sound, Muster;
    var start := Muster(entries, cfg.matchTol);
    forall i | 0 <= i < |start|
      ensures Sound(start[i]) && start[i].dmgDealt == start[i].dmgTaken == 0.0
      ensures forall tk :: PayoutIn(tk)(start[i]) == StakeOn(tk)(entries[i])
    {
      StakesSplit(entries, cfg.matchTol, i);
    }
    forall tk
      ensures SumR(start, PayoutIn(tk)) == TotalStake(entries, tk)
    {
      SumSameR(start, entries, PayoutIn(tk), StakeOn(tk));
    }
    SumSameR(start, start, Dealt, Taken);
    SumScaleR(start, start, Dealt, Dealt, 0.0);
  }

  function RefundIn(tk: Side): Fighter -> real {
    (f: Fighter) => if f.side == Army(tk) then f.unmatched else 0.0
  }

  lemma PayoutsKept(start: seq<Fighter>, x: Melee, tk: Side)
    requires Books(start, x)
    ensures SumR(x.F, PayoutIn(tk)) == SumR(start, PayoutIn(tk))
  {
    hide Sound;
    SumPlusR(x.F, PayoutIn(tk), Coin(tk), RefundIn(tk));
    SumPlusR(start, PayoutIn(tk), Coin(tk), RefundIn(tk));
    SumSameR(x.F, start, RefundIn(tk), RefundIn(tk));
  }

  ghost predicate DistinctIds(entries: seq<Entry>) {
    forall i, j :: 0 <= i < j < |entries| ==> entries[i].id != entries[j].id
  }

  /** A whole round, on any trajectory: each token's payouts add up to what that token's side staked,
    * no payout is negative, each entrant on a side gets back at least its refund, and in dollars exactly
    * its stake plus what it raided minus what was taken from it. */
  lemma RoundConserves(entries: seq<Entry>, cfg: Config, phys: Physics)
    requires Stakes(entries) && cfg.matchTol >= 0.0
    ensures var F := Play(cfg, phys, CreateSim(entries, cfg)).x.F;
            && |F| == |entries|
            && (forall tk :: SumR(F, PayoutIn(tk)) == TotalStake(entries, tk))
            && (forall i :: 0 <= i < |F| ==> F[i].id == entries[i].id && FairPay(entries[i], F[i]))
    ensures FairHits(Play(cfg, phys, CreateSim(entries, cfg)).x.hits)
  {
    hide Play, Muster, Sound;
    var start := Muster(entries, cfg.matchTol);
    StartIsSound(entries, cfg);
    PlayKeeps(cfg, phys, start, CreateSim(entries, cfg));
    var x := Play(cfg, phys, CreateSim(entries, cfg)).x;
    forall tk
      ensures SumR(x.F, PayoutIn(tk)) == TotalStake(entries, tk)
    {
      PayoutsKept(start, x, tk);
    }
    forall i | 0 <= i < |start|
      ensures x.F[i].id == entries[i].id && FairPay(entries[i], x.F[i])
    {
      StakesSplit(entries, cfg.matchTol, i);
      SoundPays(entries[i], x.F[i]);
    }
  }

  ghost predicate FairPay(e: Entry, f: Fighter) {
    && PayoutIn(Bull)(f) >= 0.0 && PayoutIn(Uwu)(f) >= 0.0
    && (e.side.Army? ==>
          PayoutIn(e.side.side)(f) >= f.unmatched >= 0.0
          && PayoutIn(Bull)(f) + PayoutIn(Uwu)(f) == e.stake + f.raided - f.dmgTaken)
  }

  lemma SoundPays(e: Entry, f: Fighter)
    requires Sound(f) && f.side == e.side && f.deposited == e.stake && f.unmatched >= 0.0
    ensures FairPay(e, f)
  {
  }

  // ---- an entry on no side ----

  /** Not in the fight: too small to be alive, or down. */
  ghost predicate Out(f: Fighter) {
    !Alive(f)
  }

  lemma {:induction false} OutIsUntouched(cfg: Config, phys: Physics, t: nat, duel: bool, x: Melee, A: seq<nat>, i: nat, j: nat, k: nat)
    requires Roster(A, |x.F|) && i < j && k < |x.F| && k !in A
    ensures ClashesFrom(cfg, phys, t, duel, x, A, i, j).F[k] == x.F[k]
    decreases |A| - i, |A| - j
  {
    hide Plans, Exchange, Bury, ExchangeLog;
    if i < |A| {
      if j >= |A| {
        OutIsUntouched(cfg, phys, t, duel, x, A, i + 1, i + 2, k);
      } else {
        OutIsUntouched(cfg, phys, t, duel, ClashAt(cfg, phys, t, duel, x, A[i], A[j]), A, i, j + 1, k);
      }
    }
  }

  /** Whoever is not alive at some tick is the same fighter when the fight is over. */
  lemma {:induction false} OutStaysOut(cfg: Config, phys: Physics, s: Sim, k: nat)
    requires k < |s.x.F| && Out(s.x.F[k])
    ensures |Play(cfg, phys, s).x.F| == |s.x.F|
    ensures Play(cfg, phys, s).x.F[k] == s.x.F[k]
    decreases !s.done, cfg.steps - s.t
  {
    hide ClashesFrom, Out;
    if !s.done {
      var A := LivingFrom(s.x.F, 0);
      NotLiving(s.x.F, k);
      var duel := Count(s.x.F, A, Bull) == 1 && Count(s.x.F, A, Uwu) == 1;
      OutIsUntouched(cfg, phys, s.t, duel, s.x, A, 0, 1, k);
      OutStaysOut(cfg, phys, StepSim(cfg, phys, s), k);
    }
  }

  lemma NotLiving(F: seq<Fighter>, k: nat)
    requires k < |F| && Out(F[k])
    ensures k !in LivingFrom(F, 0)
  {
  }

  /** An entry on no side has nothing in the ring, so it is never struck and never strikes, and it is
    * paid nothing: neither its stake nor any refund of it. */
  lemma StrayIsPaidNothing(entries: seq<Entry>, cfg: Config, phys: Physics, k: nat)
    requires Stakes(entries) && cfg.matchTol >= 0.0 && k < |entries| && entries[k].side.Stray?
    ensures var F := Play(cfg, phys, CreateSim(entries, cfg)).x.F;
            |F| == |entries| && PayoutIn(Bull)(F[k]) == 0.0 && PayoutIn(Uwu)(F[k]) == 0.0
  {
    hide Play, Muster;
    StakesSplit(entries, cfg.matchTol, k);
    OutStaysOut(cfg, phys, CreateSim(entries, cfg), k);
  }

  lemma {:induction false} SettledIds(F: seq<Fighter>)
    ensures forall id :: id in Settlement(F) <==> exists i :: 0 <= i < |F| && F[i].id == id
    decreases |F|
  {
    hide PayoutOf;
    if F != [] {
      var init, last := F[..|F| - 1], F[|F| - 1];
      SettledIds(init);
      forall id
        ensures id in Settlement(F) <==> exists i :: 0 <= i < |F| && F[i].id == id
      {
        if id in Settlement(init) {
          var i :| 0 <= i < |init| && init[i].id == id;
          assert F[i].id == id;
        } else if id == last.id {
          assert F[|F| - 1].id == id;
        } else {
          forall i | 0 <= i < |F|
            ensures F[i].id != id
          {
            assert i < |F| - 1 ==> F[i] == init[i];
          }
        }
      }
    }
  }

  /** With distinct entry ids the record holds every fighter's payout and nothing else. */
  lemma {:induction false} SettlementComplete(F: seq<Fighter>)
    requires forall i, j :: 0 <= i < j < |F| ==> F[i].id != F[j].id
    ensures forall i :: 0 <= i < |F| ==> F[i].id in Settlement(F) && Settlement(F)[F[i].id] == PayoutOf(F[i])
    ensures forall id :: id in Settlement(F) ==> exists i :: 0 <= i < |F| && F[i].id == id
    decreases |F|
  {
    hide PayoutOf;
    SettledIds(F);
    if F != [] {
      SettlementComplete(F[..|F| - 1]);
    }
  }

  /** The winning army holds at least as much as the other, a tie going to the bulls; the two together
    * hold everything that was in play. */
  lemma WinnerHoldsMore(F: seq<Fighter>)
    ensures SumR(F, WorthOn(WinnerOf(F))) >= SumR(F, WorthOn(Foe(WinnerOf(F))))
    ensures SumR(F, WorthOn(Bull)) + SumR(F, WorthOn(Uwu)) + SumR(F, WorthAstray)
         == SumR(F, Coin(Bull)) + SumR(F, Coin(Uwu))
  {
    forall i | 0 <= i < |F|
      ensures Worth(F[i]) == WorthOnArmies(F[i]) + WorthAstray(F[i])
      ensures WorthOnArmies(F[i]) == WorthOn(Bull)(F[i]) + WorthOn(Uwu)(F[i])
    {
      CampCases(F[i].side);
    }
    SumPlusR(F, WorthOnArmies, WorthOn(Bull), WorthOn(Uwu));
    SumPlusR(F, Worth, WorthOnArmies, WorthAstray);
    SumPlusR(F, Worth, Coin(Bull), Coin(Uwu));
  }

  function WorthOnArmies(f: Fighter): real { if f.side.Army? then Worth(f) else 0.0 }

  function WorthAstray(f: Fighter): real { if f.side.Stray? then Worth(f) else 0.0 }

  function Worth(f: Fighter): real { f.bull + f.sBull + f.uwu + f.sUwu }
}
