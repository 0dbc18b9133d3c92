/** Deposit verification as interleaved steps: each call reserves its signature, suspends at the chain
  * read, and resumes with what the read found. */
module DepositGate {
  import opened Basics

  datatype Kind = SolTransfer | TokenTransfer(bull: bool)

  /** A verification suspended at its chain read. */
  datatype Call = Call(sig: string, kind: Kind)

  /** What the read finds: it throws, there is no good transaction, the vault is not a party to it, or
    * the vault's balance moved by `delta`. */
  datatype Reading = Throws | NoTransaction | NotOurs | Moved(delta: real)

  datatype Reply = Refused | Threw | Nothing | Credited(amount: real)

  datatype Credit = Credit(sig: string, amount: real)

  /** `calls` is every verification now suspended; `credits` every positive amount ever returned. */
  datatype Gate = Gate(seen: set<string>, inFlight: set<string>, calls: map<nat, Call>, credits: seq<Credit>)

  datatype Step = Begin(call: nat, sig: string, kind: Kind)
                | Resume(call: nat, reading: Reading)

  const EMPTY := Gate({}, {}, map[], [])

  predicate Free(g: Gate, sig: string) {
    sig !in g.seen && sig !in g.inFlight
  }

  /** What a resumed call returns. */
  function ReplyOf(reading: Reading): Reply {
    match reading
    case Throws => Threw
    case NoTransaction => Nothing
    case NotOurs => Nothing
    case Moved(delta) => if delta <= 0.0 then Nothing else Credited(delta)
  }

  /** `configured` is whether the token verifier has its mints; without them it throws before it
    * reserves anything. A step nobody can take -- a call id in use, a resume of nothing -- is a no-op. */
  function Next(configured: bool, g: Gate, step: Step): (Gate, Option<Reply>) {
    match step
    case Begin(c, sig, kind) =>
      if c in g.calls then (g, None)
      else if kind.TokenTransfer? && !configured then (g, Some(Threw))
      else if !Free(g, sig) then (g, Some(Refused))
      else (g.(inFlight := g.inFlight + {sig}, calls := g.calls[c := Call(sig, kind)]), None)
    case Resume(c, reading) =>
      if c !in g.calls then (g, None) else
      var sig, reply := g.calls[c].sig, ReplyOf(reading);
      var done := g.(inFlight := g.inFlight - {sig}, calls := g.calls - {c});
      (if reply.Credited? then
         done.(seen := done.seen + {sig}, credits := done.credits + [Credit(sig, reply.amount)])
       else done,
       Some(reply))
  }

  function Run(configured: bool, g: Gate, steps: seq<Step>): Gate
    decreases |steps|
  {
    if steps == [] then g else Run(configured, Next(configured, g, steps[0]).0, steps[1..])
  }

  // ---- what holds at every moment ----

  ghost predicate CreditedOnce(credits: seq<Credit>) {
    forall i, j :: 0 <= i < j < |credits| ==> credits[i].sig != credits[j].sig
  }

  ghost predicate Inv(g: Gate) {
    && g.seen !! g.inFlight
    && (forall c :: c in g.calls ==> g.calls[c].sig in g.inFlight)
    && (forall sig :: sig in g.inFlight ==> exists c :: c in g.calls && g.calls[c].sig == sig)
    && (forall c, d :: c in g.calls && d in g.calls && g.calls[c].sig == g.calls[d].sig ==> c == d)
    && CreditedOnce(g.credits)
    && (forall i :: 0 <= i < |g.credits| ==> g.credits[i].sig in g.seen && g.credits[i].amount > 0.0)
    && (forall sig :: sig in g.seen ==> exists i :: 0 <= i < |g.credits| && g.credits[i].sig == sig)
  }

  lemma BeginKeeps(configured: bool, g: Gate, c: nat, sig: string, kind: Kind)
    requires Inv(g)
    ensures Inv(Next(configured, g, Begin(c, sig, kind)).0)
  {
    var g' := Next(configured, g, Begin(c, sig, kind)).0;
    if g' != g {
      forall s | s in g'.inFlight
        ensures exists d :: d in g'.calls && g'.calls[d].sig == s
      {
        if s == sig {
          assert g'.calls[c].sig == s;
        } else {
          var d :| d in g.calls && g.calls[d].sig == s;
          assert g'.calls[d].sig == s;
        }
      }
    }
  }

  /** The reservations and the suspended calls still match once one call is gone. */
  lemma ReleaseKeeps(g: Gate, c: nat)
    requires Inv(g) && c in g.calls
    ensures var sig := g.calls[c].sig;
            Inv(g.(inFlight := g.inFlight - {sig}, calls := g.calls - {c})) && sig !in g.seen
  {
    var g' := g.(inFlight := g.inFlight - {g.calls[c].sig}, calls := g.calls - {c});
    forall s | s in g'.inFlight
      ensures exists d :: d in g'.calls && g'.calls[d].sig == s
    {
      var d :| d in g.calls && g.calls[d].sig == s;
      assert g'.calls[d].sig == s;
    }
  }

  /** A free signature can be closed with one credit. */
  lemma CreditKeeps(g: Gate, sig: string, amount: real)
    requires Inv(g) && Free(g, sig) && amount > 0.0
    ensures Inv(g.(seen := g.seen + {sig}, credits := g.credits + [Credit(sig, amount)]))
  {
    var g' := g.(seen := g.seen + {sig}, credits := g.credits + [Credit(sig, amount)]);
    forall s | s in g'.seen
      ensures exists i :: 0 <= i < |g'.credits| && g'.credits[i].sig == s
    {
      if s in g.seen {
        var i :| 0 <= i < |g.credits| && g.credits[i].sig == s;
        assert g'.credits[i].sig == s;
      } else {
        assert g'.credits[|g.credits|].sig == s;
      }
    }
  }

  lemma ResumeKeeps(configured: bool, g: Gate, c: nat, reading: Reading)
    requires Inv(g)
    ensures Inv(Next(configured, g, Resume(c, reading)).0)
  {
    if c in g.calls {
      var sig := g.calls[c].sig;
      ReleaseKeeps(g, c);
      if ReplyOf(reading).Credited? {
        hide Inv;
        CreditKeeps(g.(inFlight := g.inFlight - {sig}, calls := g.calls - {c}), sig, reading.delta);
      }
    }
  }

  lemma {:induction false} RunKeeps(configured: bool, g: Gate, steps: seq<Step>)
    requires Inv(g)
    ensures Inv(Run(configured, g, steps))
    decreases |steps|
  {
    hide Inv, Next;
    if steps != [] {
      match steps[0] {
        case Begin(c, sig, kind) => BeginKeeps(configured, g, c, sig, kind);
        case Resume(c, reading) => ResumeKeeps(configured, g, c, reading);
      }
      RunKeeps(configured, Next(configured, g, steps[0]).0, steps[1..]);
    }
  }

  // ---- over every interleaving ----

  function CreditTotal(credits: seq<Credit>, sig: string): real {
    if credits == [] then 0.0
    else (if credits[0].sig == sig then credits[0].amount else 0.0) + CreditTotal(credits[1..], sig)
  }

  /** However verifications of either kind overlap, fail and retry: a signature is credited at most
    * once, at most one verification of it is suspended at a time, and it is in the permanent set
    * exactly when it has been credited. */
  lemma CreditedAtMostOnce(configured: bool, steps: seq<Step>)
    ensures var g := Run(configured, EMPTY, steps);
            && CreditedOnce(g.credits)
            && (forall sig :: sig in g.seen <==> exists i :: 0 <= i < |g.credits| && g.credits[i].sig == sig)
            && (forall c, d :: c in g.calls && d in g.calls && g.calls[c].sig == g.calls[d].sig ==> c == d)
            && (forall sig :: sig in g.inFlight <==> exists c :: c in g.calls && g.calls[c].sig == sig)
  {
    hide Run;
    assert Inv(EMPTY);
    RunKeeps(configured, EMPTY, steps);
  }

  /** Once credited, a signature is refused for ever: no verification of it, of either kind, is ever let
    * in again or suspended, and its credit never grows. */
  lemma {:induction false} CreditIsFinal(configured: bool, g: Gate, steps: seq<Step>, sig: string)
    requires Inv(g) && sig in g.seen
    ensures var g' := Run(configured, g, steps);
            && sig in g'.seen && CreditTotal(g'.credits, sig) == CreditTotal(g.credits, sig)
            && (forall c :: c in g'.calls ==> g'.calls[c].sig != sig)
            && forall c, kind :: c !in g'.calls ==>
                 Next(configured, g', Begin(c, sig, kind))
                 == (g', Some(if kind.TokenTransfer? && !configured then Threw else Refused))
    decreases |steps|
  {
    hide Inv;
    if steps == [] {
      ClosedRefuses(configured, g, sig);
    } else {
      OneStepIsFinal(configured, g, steps[0], sig);
      CreditIsFinal(configured, Next(configured, g, steps[0]).0, steps[1..], sig);
    }
  }

  lemma ClosedRefuses(configured: bool, g: Gate, sig: string)
    requires Inv(g) && sig in g.seen
    ensures forall c :: c in g.calls ==> g.calls[c].sig != sig
    ensures forall c, kind :: c !in g.calls ==>
              Next(configured, g, Begin(c, sig, kind))
              == (g, Some(if kind.TokenTransfer? && !configured then Threw else Refused))
  {
    forall c | c in g.calls
      ensures g.calls[c].sig != sig
    {
      assert g.calls[c].sig in g.inFlight;
    }
  }

  lemma OneStepIsFinal(configured: bool, g: Gate, step: Step, sig: string)
    requires Inv(g) && sig in g.seen
    ensures var g' := Next(configured, g, step).0;
            Inv(g') && sig in g'.seen && CreditTotal(g'.credits, sig) == CreditTotal(g.credits, sig)
  {
    match step {
      case Begin(c, s, kind) => BeginKeeps(configured, g, c, s, kind);
      case Resume(c, reading) =>
        ResumeKeeps(configured, g, c, reading);
        if c in g.calls && ReplyOf(reading).Credited? {
          TotalAppend(g.credits, Credit(g.calls[c].sig, reading.delta), sig);
        }
    }
  }

  lemma {:induction false} TotalAppend(credits: seq<Credit>, x: Credit, sig: string)
    ensures CreditTotal(credits + [x], sig) == CreditTotal(credits, sig) + (if x.sig == sig then x.amount else 0.0)
  {
    if credits == [] {
      assert credits + [x] == [x];
    } else {
      assert (credits + [x])[1..] == credits[1..] + [x];
      TotalAppend(credits[1..], x, sig);
    }
  }

  /** A verification is let in exactly when its signature is neither credited nor in flight, and the token
    * verifier has its mints. */
  lemma LetInIff(configured: bool, g: Gate, c: nat, sig: string, kind: Kind)
    requires c !in g.calls
    ensures c in Next(configured, g, Begin(c, sig, kind)).0.calls
            <==> sig !in g.seen && sig !in g.inFlight && (kind == SolTransfer || configured)
    ensures c in Next(configured, g, Begin(c, sig, kind)).0.calls ==>
              Next(configured, g, Begin(c, sig, kind)) == (g.(inFlight := g.inFlight + {sig}, calls := g.calls[c := Call(sig, kind)]), None)
  {
  }

  /** A verification that throws or reads nothing credits nothing and gives its signature back: the next
    * attempt on it is let in. One that reads a positive amount credits it, and closes the signature. */
  lemma ResumeReleases(configured: bool, g: Gate, c: nat, reading: Reading, d: nat, kind: Kind)
    requires Inv(g) && c in g.calls
    ensures var sig, paid := g.calls[c].sig, reading.Moved? && reading.delta > 0.0;
            var (g', reply) := Next(configured, g, Resume(c, reading));
            && (reply == Some(if paid then Credited(reading.delta) else if reading == Throws then Threw else Nothing))
            && (Free(g', sig) <==> !paid)
            && (!paid ==> g'.credits == g.credits && g'.seen == g.seen)
            && (paid ==> g'.credits == g.credits + [Credit(sig, reading.delta)] && sig !in g.seen && g'.seen == g.seen + {sig})
            && g'.calls == g.calls - {c} && g'.inFlight == g.inFlight - {sig}
            && (d !in g'.calls && (kind == SolTransfer || configured) ==>
                  (Next(configured, g', Begin(d, sig, kind)).1 == Some(Refused) <==> paid))
  {
    assert g.calls[c].sig in g.inFlight;
  }

  /** Two verifications of one signature that overlap: whichever comes second is refused, and only the
    * first can credit, whatever order the reads come back in. */
  lemma OverlapRefused(configured: bool, g: Gate, c: nat, d: nat, sig: string, k1: Kind, k2: Kind)
    requires Inv(g) && Free(g, sig) && c !in g.calls && d !in g.calls && c != d
    requires configured || (k1 == SolTransfer && k2 == SolTransfer)
    ensures var (g1, r1) := Next(configured, g, Begin(c, sig, k1));
            var (g2, r2) := Next(configured, g1, Begin(d, sig, k2));
            r1 == None && r2 == Some(Refused) && g2 == g1 && c in g2.calls && d !in g2.calls
  {
  }
}
