/** Sums of a measure over a sequence, over the integers and over the reals. */
module Sums {
  function Sum<T>(s: seq<T>, v: T -> int): int {
    if s == [] then 0 else v(s[0]) + Sum(s[1..], v)
  }

  function SumR<T>(s: seq<T>, v: T -> real): real {
    if s == [] then 0.0 else v(s[0]) + SumR(s[1..], v)
  }

  lemma {:induction false} SumUpdate<T>(s: seq<T>, i: nat, x: T, v: T -> int)
    requires i < |s|
    ensures Sum(s[i := x], v) == Sum(s, v) - v(s[i]) + v(x)
  {
    if i == 0 {
      assert s[i := x][1..] == s[1..];
    } else {
      assert s[i := x][1..] == s[1..][i - 1 := x];
      SumUpdate(s[1..], i - 1, x, v);
    }
  }

  lemma {:induction false} SumAppend<T>(s: seq<T>, t: seq<T>, v: T -> int)
    ensures Sum(s + t, v) == Sum(s, v) + Sum(t, v)
  {
    if s == [] {
      assert s + t == t;
    } else {
      assert (s + t)[1..] == s[1..] + t;
      SumAppend(s[1..], t, v);
    }
  }

  lemma {:induction false} SumMono<T>(s: seq<T>, v: T -> int, w: T -> int)
    requires forall x :: x in s ==> v(x) <= w(x)
    ensures Sum(s, v) <= Sum(s, w)
  {
    if s != [] {
      SumMono(s[1..], v, w);
    }
  }

  lemma {:induction false} SumNonNeg<T>(s: seq<T>, v: T -> int)
    requires forall x :: x in s ==> 0 <= v(x)
    ensures 0 <= Sum(s, v)
    ensures forall x :: x in s ==> v(x) <= Sum(s, v)
  {
    if s != [] {
      SumNonNeg(s[1..], v);
    }
  }

  lemma {:induction false} SumMonoR<T>(s: seq<T>, v: T -> real, w: T -> real)
    requires forall i :: 0 <= i < |s| ==> v(s[i]) <= w(s[i])
    ensures SumR(s, v) <= SumR(s, w)
  {
    if s != [] {
      SumMonoR(s[1..], v, w);
    }
  }

  lemma {:induction false} SumUpdateR<T>(s: seq<T>, i: nat, x: T, v: T -> real)
    requires i < |s|
    ensures SumR(s[i := x], v) == SumR(s, v) - v(s[i]) + v(x)
  {
    if i == 0 {
      assert s[i := x][1..] == s[1..];
    } else {
      assert s[i := x][1..] == s[1..][i - 1 := x];
      SumUpdateR(s[1..], i - 1, x, v);
    }
  }

  lemma {:induction false} SumAppendR<T>(s: seq<T>, t: seq<T>, v: T -> real)
    ensures SumR(s + t, v) == SumR(s, v) + SumR(t, v)
  {
    if s == [] {
      assert s + t == t;
    } else {
      assert (s + t)[1..] == s[1..] + t;
      SumAppendR(s[1..], t, v);
    }
  }

  lemma {:induction false} SumNonNegR<T>(s: seq<T>, v: T -> real)
    requires forall x :: x in s ==> 0.0 <= v(x)
    ensures 0.0 <= SumR(s, v)
    ensures forall x :: x in s ==> v(x) <= SumR(s, v)
  {
    if s != [] {
      SumNonNegR(s[1..], v);
    }
  }

  /** Appending one element on the right: the shape a left-to-right loop needs. */
  lemma SumSnocR<T>(s: seq<T>, i: nat, v: T -> real)
    requires i < |s|
    ensures SumR(s[..i + 1], v) == SumR(s[..i], v) + v(s[i])
  {
    assert s[..i + 1] == s[..i] + [s[i]];
    SumAppendR(s[..i], [s[i]], v);
  }

  lemma SumSnoc<T>(s: seq<T>, i: nat, v: T -> int)
    requires i < |s|
    ensures Sum(s[..i + 1], v) == Sum(s[..i], v) + v(s[i])
  {
    assert s[..i + 1] == s[..i] + [s[i]];
    SumAppend(s[..i], [s[i]], v);
  }

  lemma {:induction false} SumSameR<S, T>(s: seq<S>, t: seq<T>, v: S -> real, w: T -> real)
    requires |s| == |t| && forall i :: 0 <= i < |s| ==> v(s[i]) == w(t[i])
    ensures SumR(s, v) == SumR(t, w)
  {
    if s != [] {
      SumSameR(s[1..], t[1..], v, w);
    }
  }

  lemma {:induction false} SumPlusR<T>(s: seq<T>, u: T -> real, v: T -> real, w: T -> real)
    requires forall i :: 0 <= i < |s| ==> u(s[i]) == v(s[i]) + w(s[i])
    ensures SumR(s, u) == SumR(s, v) + SumR(s, w)
  {
    if s != [] {
      SumPlusR(s[1..], u, v, w);
    }
  }

  lemma {:induction false} SumScaleR<S, T>(s: seq<S>, t: seq<T>, v: S -> real, w: T -> real, k: real)
    requires |s| == |t| && forall i :: 0 <= i < |s| ==> v(s[i]) == w(t[i]) * k
    ensures SumR(s, v) == SumR(t, w) * k
  {
    if s != [] {
      SumScaleR(s[1..], t[1..], v, w, k);
      assert (w(t[0]) + SumR(t[1..], w)) * k == w(t[0]) * k + SumR(t[1..], w) * k;
    }
  }
}
