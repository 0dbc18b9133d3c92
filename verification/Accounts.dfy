/** The money accounts that the pool, the recovery tools and the round ledger share. */
module Accounts {
  import opened Sums

  datatype Field = BullCoin | UwuCoin | SolCoin

  /** One row of the ledger; the ledger itself is a sequence, in the insertion order of its map. */
  datatype Account = Account(id: string, isBot: bool, bull: real, uwu: real, sol: real)

  function Get(a: Account, f: Field): real {
    match f
    case BullCoin => a.bull
    case UwuCoin => a.uwu
    case SolCoin => a.sol
  }

  function Put(a: Account, f: Field, v: real): Account {
    match f
    case BullCoin => a.(bull := v)
    case UwuCoin => a.(uwu := v)
    case SolCoin => a.(sol := v)
  }

  /** The measure that reads one field. */
  function Holding(f: Field): Account -> real {
    (a: Account) => Get(a, f)
  }

  function Total(s: seq<Account>, f: Field): real {
    SumR(s, Holding(f))
  }

  /** `t` is `s` with nothing but field `f` changed, account by account. */
  ghost predicate OnlyField(s: seq<Account>, t: seq<Account>, f: Field) {
    |t| == |s| && forall i :: 0 <= i < |s| ==> t[i] == Put(s[i], f, Get(t[i], f))
  }

  ghost predicate NonNegative(s: seq<Account>, f: Field) {
    forall i :: 0 <= i < |s| ==> Get(s[i], f) >= 0.0
  }

  /** Changing one field leaves the totals of the others alone. */
  lemma OtherFieldsKept(s: seq<Account>, t: seq<Account>, f: Field, g: Field)
    requires OnlyField(s, t, f) && g != f
    ensures Total(t, g) == Total(s, g)
  {
    SumSameR(s, t, Holding(g), Holding(g));
  }

  lemma PutGet(a: Account, f: Field, v: real)
    ensures Get(Put(a, f, v), f) == v && Put(a, f, v).id == a.id && Put(a, f, Get(a, f)) == a
    ensures Put(a, f, Get(Put(a, f, v), f)) == Put(a, f, v)
  {
  }

  lemma TotalSwap(s: seq<Account>, i: nat, x: Account, g: Field)
    requires i < |s|
    ensures Total(s[i := x], g) == Total(s, g) - Get(s[i], g) + Get(x, g)
  {
    SumUpdateR(s, i, x, Holding(g));
  }

  lemma TotalUpdate(s: seq<Account>, i: nat, f: Field, v: real)
    requires i < |s|
    ensures Total(s[i := Put(s[i], f, v)], f) == Total(s, f) - Get(s[i], f) + v
    ensures OnlyField(s, s[i := Put(s[i], f, v)], f)
  {
    SumUpdateR(s, i, Put(s[i], f, v), Holding(f));
  }
}
