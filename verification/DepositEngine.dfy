/** The two signature sets as the verifiers update them, proved against the interleaved steps. */
module DepositEngine {
  import opened Basics
  import opened DepositGate

  class Verifier {
    const configured: bool
    var seenSigs: set<string>
    var inFlightSigs: set<string>
    /** Verifications whose chain read has not come back. */
    var pending: map<nat, Call>
    ghost var credits: seq<Credit>

    ghost function View(): Gate
      reads this
    {
      Gate(seenSigs, inFlightSigs, pending, credits)
    }

    constructor (configured: bool)
      ensures this.configured == configured && View() == EMPTY
    {
      this.configured := configured;
      seenSigs, inFlightSigs, pending, credits := {}, {}, map[], [];
    }

    /** Reserve a signature; false if it is already credited or already being verified. */
    method ClaimSig(sig: string) returns (ok: bool)
      modifies this`inFlightSigs
      ensures ok <==> old(Free(View(), sig))
      ensures inFlightSigs == if ok then old(inFlightSigs) + {sig} else old(inFlightSigs)
    {
      if sig in seenSigs || sig in inFlightSigs {
        return false;
      }
      inFlightSigs := inFlightSigs + {sig};
      return true;
    }

    /** Either verifier up to its chain read. `reply` is what it returns when it does not get there. */
    method Start(call: nat, sig: string, kind: Kind) returns (reply: Option<Reply>)
      requires call !in pending
      modifies this
      ensures (View(), reply) == Next(configured, old(View()), Begin(call, sig, kind))
    {
      if kind.TokenTransfer? && !configured {
        return Some(Threw);
      }
      var ok := ClaimSig(sig);
      if !ok {
        return Some(Refused);
      }
      pending := pending[call := Call(sig, kind)];
      return None;
    }

    /** The read comes back: credit a positive movement, and release the reservation on every path. */
    method Finish(call: nat, reading: Reading) returns (reply: Reply)
      requires call in pending
      modifies this
      ensures (View(), Some(reply)) == Next(configured, old(View()), Resume(call, reading))
    {
      var sig := pending[call].sig;
      if reading.Moved? && reading.delta > 0.0 {
        seenSigs := seenSigs + {sig};
        credits := credits + [Credit(sig, reading.delta)];
        reply := Credited(reading.delta);
      } else if reading.Throws? {
        reply := Threw;
      } else {
        reply := Nothing;
      }
      inFlightSigs := inFlightSigs - {sig};
      pending := pending - {call};
    }
  }
}
