/** The order in which a double loop over a list meets its pairs. */
module Pairs {

  /** From the pair at positions `i`, `j` on, row by row. */
  function PairsFrom(n: nat, i: nat, j: nat): seq<(nat, nat)>
    requires i < j
    decreases n - i, n - j
  {
    if i >= n then []
    else if j >= n then PairsFrom(n, i + 1, i + 2)
    else [(i, j)] + PairsFrom(n, i, j + 1)
  }

  ghost predicate Before(p: (nat, nat), q: (nat, nat)) {
    p.0 < q.0 || (p.0 == q.0 && p.1 < q.1)
  }

  /** Every pair of two positions below `n`, the smaller first, once, in order. */
  ghost predicate EachPairOnce(ps: seq<(nat, nat)>, n: nat) {
    && (forall p: (nat, nat) :: p in ps <==> p.0 < p.1 < n)
    && forall k, l :: 0 <= k < l < |ps| ==> Before(ps[k], ps[l])
  }

  ghost predicate From(p: (nat, nat), n: nat, i: nat, j: nat) {
    p.0 < p.1 < n && (p.0 > i || (p.0 == i && p.1 >= j))
  }

  lemma PairsStep(n: nat, i: nat, j: nat)
    requires i < j
    ensures PairsFrom(n, i, j) == (if i >= n then [] else if j >= n then PairsFrom(n, i + 1, i + 2)
                                   else [(i, j)] + PairsFrom(n, i, j + 1))
  {
  }

  lemma {:induction false} PairsComplete(n: nat, i: nat, j: nat, p: (nat, nat))
    requires i < j
    ensures p in PairsFrom(n, i, j) <==> From(p, n, i, j)
    decreases n - i, n - j
  {
    hide PairsFrom;
    PairsStep(n, i, j);
    if i < n {
      if j >= n {
        PairsComplete(n, i + 1, i + 2, p);
      } else {
        PairsComplete(n, i, j + 1, p);
      }
    }
  }

  lemma {:induction false} PairsInOrder(n: nat, i: nat, j: nat)
    requires i < j
    ensures forall k, l :: 0 <= k < l < |PairsFrom(n, i, j)| ==> Before(PairsFrom(n, i, j)[k], PairsFrom(n, i, j)[l])
    decreases n - i, n - j
  {
    hide PairsFrom;
    PairsStep(n, i, j);
    if i < n {
      if j >= n {
        PairsInOrder(n, i + 1, i + 2);
      } else {
        PairsInOrder(n, i, j + 1);
        FirstComesFirst(n, i, j);
        ConsInOrder((i, j), PairsFrom(n, i, j + 1));
      }
    }
  }

  lemma FirstComesFirst(n: nat, i: nat, j: nat)
    requires i < j < n
    ensures var rest := PairsFrom(n, i, j + 1); forall l :: 0 <= l < |rest| ==> Before((i, j), rest[l])
  {
    hide PairsFrom;
    var rest := PairsFrom(n, i, j + 1);
    forall l | 0 <= l < |rest|
      ensures Before((i, j), rest[l])
    {
      PairsComplete(n, i, j + 1, rest[l]);
    }
  }

  lemma ConsInOrder(p: (nat, nat), rest: seq<(nat, nat)>)
    requires forall l :: 0 <= l < |rest| ==> Before(p, rest[l])
    requires forall k, l :: 0 <= k < l < |rest| ==> Before(rest[k], rest[l])
    ensures forall k, l :: 0 <= k < l < |[p] + rest| ==> Before(([p] + rest)[k], ([p] + rest)[l])
  {
    hide Before;
  }

  lemma AllPairs(n: nat)
    ensures EachPairOnce(PairsFrom(n, 0, 1), n)
  {
    hide PairsFrom;
    PairsInOrder(n, 0, 1);
    forall p: (nat, nat)
      ensures p in PairsFrom(n, 0, 1) <==> p.0 < p.1 < n
    {
      PairsComplete(n, 0, 1, p);
    }
  }
}
