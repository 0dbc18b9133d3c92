/** The object the engine updates: each method is the source's statements, proved against the
  * operation of the same name on round values. */
module ErEngine {
  import opened Basics
  import opened Sums
  import opened ErDraw
  import opened ErPenalty
  import opened ErRound

  class ERRound {
    const chain: Chain
    var fighters: seq<Fighter>
    var tickCount: nat
    var pot: int
    var penaltiesCollected: int
    var feesCollected: int
    var winner: Option<Side>

    ghost function View(): Round
      reads this
    {
      Round(fighters, tickCount, pot, penaltiesCollected, feesCollected, winner)
    }

    constructor (chain: Chain)
      ensures this.chain == chain && View() == NEW_ROUND
    {
      this.chain := chain;
      fighters, tickCount, pot, penaltiesCollected, feesCollected, winner := [], 0, 0, 0, 0, None;
    }

    method Enter(wallet: string, side: Side, stake: int, feeBps: int) returns (refused: Option<Error>)
      modifies this
      ensures match ErRound.Enter(old(View()), wallet, side, stake, feeBps)
              case Ok(r) => refused == None && View() == r
              case Err(e) => refused == Some(e) && View() == old(View())
    {
      hide FeeOn, Seat;
      if stake <= 0 {
        return Some(ZeroStake);
      }
      var fee := FeeOn(stake, feeBps);
      var net := stake - fee;
      var i := FirstIndex(fighters, Seat(wallet, side));
      if i == |fighters| && |fighters| >= MAX_FIGHTERS {
        return Some(RoundFull);
      }
      TakeSeat(i, wallet, side, net);
      pot := pot + net;
      feesCollected := feesCollected + fee;
      refused := None;
    }

    /** Top up the seat at `i`, or push a new one. */
    method TakeSeat(i: nat, wallet: string, side: Side, net: int)
      requires i <= |fighters|
      modifies this`fighters
      ensures fighters == if i < |old(fighters)| then
                            old(fighters)[i := old(fighters)[i].(stake := old(fighters)[i].stake + net, hp := old(fighters)[i].hp + net)]
                          else old(fighters) + [Fighter(wallet, side, false, net, net, 0)]
    {
      if i < |fighters| {
        var existing := fighters[i];
        existing := existing.(stake := existing.stake + net);
        existing := existing.(hp := existing.hp + net);
        fighters := fighters[i := existing];
      } else {
        fighters := fighters + [Fighter(wallet, side, false, net, net, 0)];
      }
    }

    method Tick(steps: nat)
      modifies this
      ensures View() == ErRound.Tick(chain, old(View()), steps)
    {
      hide Step;
      ghost var start := View();
      for s := 0 to steps
        invariant ErRound.Tick(chain, View(), steps - s) == ErRound.Tick(chain, start, steps)
      {
        if |fighters| < 2 {
          break;
        }
        Advance();
      }
    }

    /** The body of the tick loop. */
    method Advance()
      requires |fighters| >= 2
      modifies this`fighters, this`tickCount
      ensures View() == Step(chain, old(View()))
    {
      hide Damage, DrawPair, RollOf;
      var h := chain(tickCount);
      tickCount := tickCount + 1;
      var pair := DrawPair(h, |fighters|);
      var a, d := pair.value.0, pair.value.1;
      var A, D := fighters[a], fighters[d];
      if A.side == D.side || A.wallet == D.wallet || A.dead || D.dead {
        return;
      }
      var dmg := Blow(A, D, RollOf(h));
      if dmg == 0 {
        return;
      }
      var hp := Sat(D.hp, dmg);
      fighters := fighters[d := D.(hp := hp, dead := hp == 0)];
      fighters := fighters[a := A.(banked := A.banked + dmg)];
    }

    method Blow(A: Fighter, D: Fighter, roll: nat) returns (dmg: int)
      ensures dmg == Damage(A, D, roll)
    {
      var basis := if A.hp < D.hp then A.hp else D.hp;
      dmg := TruncDiv(basis * roll, 100);
      if D.hp <= DUST {
        dmg := D.hp;
      }
    }

    method Extract(wallet: string) returns (x: Result<(int, Split)>)
      modifies this
      ensures match ErRound.Extract(old(View()), wallet)
              case Ok(e) => x == Ok((e.taken, e.split)) && View() == e.round
              case Err(e) => x == Err(e) && View() == old(View())
    {
      hide SplitExtraction, Standing;
      var i := FirstIndex(fighters, Standing(wallet));
      if i == |fighters| {
        return Err(NothingToExtract);
      }
      var f := fighters[i];
      var taken := f.hp;
      var split := SplitExtraction(taken, |fighters|, tickCount);
      f := f.(banked := f.banked + split.kept);
      f := f.(hp := 0);
      f := f.(dead := true);
      fighters := fighters[i := f];
      penaltiesCollected := penaltiesCollected + split.penalty;
      x := Ok((taken, split));
    }

    method Settle() returns (w: Side)
      modifies this`winner
      ensures w == WinnerOf(fighters) && winner == Some(w)
    {
      var a, b := 0, 0;
      for i := 0 to |fighters|
        invariant a == Sum(fighters[..i], ValueOnA) && b == Sum(fighters[..i], ValueOnB)
      {
        var v := fighters[i].hp + fighters[i].banked;
        SumSnoc(fighters, i, ValueOnA);
        SumSnoc(fighters, i, ValueOnB);
        if fighters[i].side == SideA {
          a := a + v;
        } else {
          b := b + v;
        }
      }
      assert fighters[..|fighters|] == fighters;
      w := if a >= b then SideA else SideB;
      winner := Some(w);
    }

    method ConservationCheck() returns (ok: bool)
      ensures ok <==> ConservationHolds(View())
    {
      var total := 0;
      for i := 0 to |fighters|
        invariant total == Sum(fighters[..i], ValueOf)
      {
        SumSnoc(fighters, i, ValueOf);
        total := total + fighters[i].hp + fighters[i].banked;
      }
      assert fighters[..|fighters|] == fighters;
      ok := total + (penaltiesCollected + feesCollected) == pot + feesCollected;
    }
  }
}
