/** How a round's seed is derived: a canonical string of the entries, hashed together with the secret. */
module RoundSeed {
  import opened TwoSideSim

  /** The two pieces of the platform the derivation leans on: the digest, and a stake in fixed decimals. */
  datatype Platform = Platform(sha256: string -> string, fixed: real -> string)

  function Piece(p: Platform, e: Entry): string {
    e.id + "|" + Text(e.side) + "|" + p.fixed(e.stake)
  }

  function Pieces(p: Platform, entries: seq<Entry>): (r: seq<string>)
    ensures |r| == |entries| && forall i :: 0 <= i < |entries| ==> r[i] == Piece(p, entries[i])
  {
    seq(|entries|, i requires 0 <= i < |entries| => Piece(p, entries[i]))
  }

  /** Code-unit order on strings. */
  predicate Le(a: string, b: string) {
    a == "" || (b != "" && (a[0] < b[0] || (a[0] == b[0] && Le(a[1..], b[1..]))))
  }

  function Insert(x: string, s: seq<string>): seq<string> {
    if s == [] || Le(x, s[0]) then [x] + s else [s[0]] + Insert(x, s[1..])
  }

  function Sort(s: seq<string>): seq<string> {
    if s == [] then [] else Insert(s[0], Sort(s[1..]))
  }

  function Join(s: seq<string>): string {
    if s == [] then "" else if |s| == 1 then s[0] else s[0] + ";" + Join(s[1..])
  }

  function Canon(p: Platform, entries: seq<Entry>): string {
    Join(Sort(Pieces(p, entries)))
  }

  function DeriveSeed(p: Platform, secret: string, entries: seq<Entry>): string {
    p.sha256(secret + "|" + Canon(p, entries))
  }

  // ---- lists as multisets ----

  lemma WithoutOne<T>(s: seq<T>, i: nat)
    requires i < |s|
    ensures multiset(s[..i] + s[i + 1..]) == multiset(s) - multiset{s[i]}
    ensures multiset(s) == multiset(s[..i] + s[i + 1..]) + multiset{s[i]}
  {
    assert s == s[..i] + [s[i]] + s[i + 1..];
  }

  lemma WithoutFirst<T>(s: seq<T>)
    requires s != []
    ensures multiset(s[1..]) == multiset(s) - multiset{s[0]}
    ensures multiset(s) == multiset(s[1..]) + multiset{s[0]}
  {
    assert s == [s[0]] + s[1..];
  }

  // ---- the order ----

  lemma {:induction false} LeTotal(a: string, b: string)
    ensures Le(a, b) || Le(b, a)
    ensures Le(a, b) && Le(b, a) ==> a == b
  {
    if a != "" && b != "" {
      LeTotal(a[1..], b[1..]);
      assert a == [a[0]] + a[1..] && b == [b[0]] + b[1..];
    }
  }

  lemma {:induction false} LeTrans(a: string, b: string, c: string)
    requires Le(a, b) && Le(b, c)
    ensures Le(a, c)
  {
    if a != "" && a[0] == b[0] == c[0] {
      LeTrans(a[1..], b[1..], c[1..]);
    }
  }

  /** The order is lexicographic: by the first place where the two differ, or by length. */
  lemma {:induction false} LeIsLexicographic(a: string, b: string, k: nat)
    requires k <= |a| && k <= |b| && forall i :: 0 <= i < k ==> a[i] == b[i]
    requires k < |a| && k < |b| ==> a[k] != b[k]
    ensures Le(a, b) <==> k == |a| || (k < |b| && a[k] < b[k])
    decreases k
  {
    if k > 0 {
      LeIsLexicographic(a[1..], b[1..], k - 1);
    }
  }

  ghost predicate Sorted(s: seq<string>) {
    forall i, j :: 0 <= i < j < |s| ==> Le(s[i], s[j])
  }

  lemma {:induction false} InsertKeeps(x: string, s: seq<string>)
    ensures multiset(Insert(x, s)) == multiset(s) + multiset{x}
  {
    hide Le;
    if s != [] && !Le(x, s[0]) {
      InsertKeeps(x, s[1..]);
      WithoutFirst(s);
      WithoutFirst([s[0]] + Insert(x, s[1..]));
      assert ([s[0]] + Insert(x, s[1..]))[1..] == Insert(x, s[1..]);
    }
  }

  lemma {:induction false} InsertSorts(x: string, s: seq<string>)
    requires Sorted(s)
    ensures Sorted(Insert(x, s))
  {
    if s == [] {
    } else if Le(x, s[0]) {
      ConsSorted(x, s);
    } else {
      InsertSorts(x, s[1..]);
      LeTotal(x, s[0]);
      var rest := Insert(x, s[1..]);
      InsertKeeps(x, s[1..]);
      forall j | 0 <= j < |rest|
        ensures Le(s[0], rest[j])
      {
        assert rest[j] in multiset(rest);
        if rest[j] != x {
          assert rest[j] in s[1..];
        }
      }
    }
  }

  lemma ConsSorted(x: string, s: seq<string>)
    requires Sorted(s) && s != [] && Le(x, s[0])
    ensures Sorted([x] + s)
  {
    var r := [x] + s;
    forall i, j | 0 <= i < j < |r|
      ensures Le(r[i], r[j])
    {
      if i == 0 && j > 1 {
        LeTrans(x, s[0], s[j - 1]);
      }
    }
  }

  lemma {:induction false} SortSorts(s: seq<string>)
    ensures Sorted(Sort(s)) && multiset(Sort(s)) == multiset(s)
  {
    if s != [] {
      SortSorts(s[1..]);
      InsertSorts(s[0], Sort(s[1..]));
      InsertKeeps(s[0], Sort(s[1..]));
      assert s == [s[0]] + s[1..];
    }
  }

  /** A list has only one sorted order. */
  lemma {:induction false} SortedIsUnique(s: seq<string>, t: seq<string>)
    requires Sorted(s) && Sorted(t) && multiset(s) == multiset(t)
    ensures s == t
  {
    if s == [] {
      assert |multiset(t)| == 0;
    } else {
      assert s[0] in multiset(t);
      assert t != [];
      assert t[0] in multiset(s);
      HeadIsLeast(s, t[0]);
      HeadIsLeast(t, s[0]);
      LeTotal(s[0], t[0]);
      WithoutFirst(s);
      WithoutFirst(t);
      SortedIsUnique(s[1..], t[1..]);
    }
  }

  lemma HeadIsLeast(s: seq<string>, x: string)
    requires Sorted(s) && x in s
    ensures Le(s[0], x)
  {
    LeTotal(x, x);
  }

  // ---- what the seed depends on ----

  lemma PiecesWithoutOne(p: Platform, e: seq<Entry>, i: nat)
    requires i < |e|
    ensures multiset(Pieces(p, e)) == multiset(Pieces(p, e[..i] + e[i + 1..])) + multiset{Piece(p, e[i])}
  {
    WithoutOne(Pieces(p, e), i);
    assert Pieces(p, e[..i] + e[i + 1..]) == Pieces(p, e)[..i] + Pieces(p, e)[i + 1..];
  }

  lemma {:induction false} PiecesOfSame(p: Platform, d: seq<Entry>, e: seq<Entry>)
    requires multiset(d) == multiset(e)
    ensures multiset(Pieces(p, d)) == multiset(Pieces(p, e))
    decreases |d|
  {
    hide Piece, Pieces;
    if d == [] {
      SameIsEmpty(e);
    } else {
      var i := Find(e, d);
      SameAfterRemoval(d, e, i);
      PiecesOfSame(p, d[1..], e[..i] + e[i + 1..]);
      PiecesWithoutOne(p, e, i);
      PiecesWithoutFirst(p, d);
    }
  }

  lemma PiecesWithoutFirst(p: Platform, d: seq<Entry>)
    requires d != []
    ensures multiset(Pieces(p, d)) == multiset(Pieces(p, d[1..])) + multiset{Piece(p, d[0])}
  {
    hide Piece;
    WithoutFirst(Pieces(p, d));
    assert Pieces(p, d)[1..] == Pieces(p, d[1..]);
  }

  lemma SameAfterRemoval<T>(d: seq<T>, e: seq<T>, i: nat)
    requires d != [] && i < |e| && e[i] == d[0] && multiset(d) == multiset(e)
    ensures multiset(d[1..]) == multiset(e[..i] + e[i + 1..])
  {
    WithoutFirst(d);
    WithoutOne(e, i);
  }

  lemma SameIsEmpty<T>(e: seq<T>)
    requires multiset(e) == multiset{}
    ensures e == []
  {
    assert |multiset(e)| == 0;
  }

  lemma Find<T>(e: seq<T>, d: seq<T>) returns (i: nat)
    requires d != [] && multiset(d) == multiset(e)
    ensures i < |e| && e[i] == d[0]
  {
    assert d[0] in multiset(e);
    i :| 0 <= i < |e| && e[i] == d[0];
  }

  /** The canonical string, and so the seed, does not depend on the order of the entries. */
  lemma SeedIgnoresOrder(p: Platform, secret: string, d: seq<Entry>, e: seq<Entry>)
    requires multiset(d) == multiset(e)
    ensures Canon(p, d) == Canon(p, e) && DeriveSeed(p, secret, d) == DeriveSeed(p, secret, e)
  {
    hide Sort, Pieces, Sorted;
    PiecesOfSame(p, d, e);
    SortSorts(Pieces(p, d));
    SortSorts(Pieces(p, e));
    SortedIsUnique(Sort(Pieces(p, d)), Sort(Pieces(p, e)));
  }

  predicate Has(s: string, c: char) { exists i :: 0 <= i < |s| && s[i] == c }

  /** Splitting a string at a mark that the left part does not contain has one outcome. */
  lemma SplitOnce(a: string, x: string, b: string, y: string, c: char)
    requires a + [c] + x == b + [c] + y && !Has(a, c) && !Has(b, c)
    ensures a == b && x == y
  {
    var l, r := a + [c] + x, b + [c] + y;
    assert l[|a|] == c && r[|b|] == c;
    assert forall i :: 0 <= i < |a| ==> l[i] == a[i];
    assert forall i :: 0 <= i < |b| ==> r[i] == b[i];
    if |a| != |b| {
      assert false;
    }
    assert a == l[..|a|] && b == r[..|b|];
    assert x == l[|a| + 1..] && y == r[|b| + 1..];
  }

  /** The same from the right: the last mark is the one that counts. */
  lemma SplitLast(a: string, x: string, b: string, y: string, c: char)
    requires a + [c] + x == b + [c] + y && !Has(x, c) && !Has(y, c)
    ensures a == b && x == y
  {
    var l, r := a + [c] + x, b + [c] + y;
    assert l[|a|] == c && r[|b|] == c;
    assert forall i :: |a| < i < |l| ==> l[i] == x[i - |a| - 1];
    assert forall i :: |b| < i < |r| ==> r[i] == y[i - |b| - 1];
    if |a| != |b| {
      assert false;
    }
    assert a == l[..|a|] && b == r[..|b|];
    assert x == l[|a| + 1..] && y == r[|b| + 1..];
  }

  ghost predicate NoMarks(s: seq<string>) {
    forall i :: 0 <= i < |s| ==> s[i] != "" && !Has(s[i], ';')
  }

  lemma {:induction false} JoinIsInjective(s: seq<string>, t: seq<string>)
    requires NoMarks(s) && NoMarks(t) && Join(s) == Join(t)
    ensures s == t
  {
    if |s| > 1 {
      JoinHasMark(s);
    }
    if |t| > 1 {
      JoinHasMark(t);
    }
    if |s| > 1 && |t| > 1 {
      SplitOnce(s[0], Join(s[1..]), t[0], Join(t[1..]), ';');
      JoinIsInjective(s[1..], t[1..]);
      assert s == [s[0]] + s[1..] && t == [t[0]] + t[1..];
    }
  }

  lemma JoinHasMark(s: seq<string>)
    requires |s| > 1
    ensures Has(Join(s), ';')
  {
    assert Join(s)[|s[0]|] == ';';
  }

  /** Ids and sides without the list mark, sides and stakes without bars. Ids may hold bars. */
  ghost predicate Plain(p: Platform, e: Entry) {
    && !Has(e.id, ';') && !Has(Text(e.side), ';') && !Has(Text(e.side), '|')
    && !Has(p.fixed(e.stake), ';') && !Has(p.fixed(e.stake), '|')
  }

  /** An entry as a verifier reads it: who, on which side, with what printed stake. */
  datatype Line = Line(id: string, side: string, stake: string)

  function LineOf(p: Platform, e: Entry): Line {
    Line(e.id, Text(e.side), p.fixed(e.stake))
  }

  function Spelled(l: Line): string { l.id + "|" + l.side + "|" + l.stake }

  function Lines(p: Platform, entries: seq<Entry>): (r: seq<Line>)
    ensures |r| == |entries| && forall i :: 0 <= i < |entries| ==> r[i] == LineOf(p, entries[i])
  {
    seq(|entries|, i requires 0 <= i < |entries| => LineOf(p, entries[i]))
  }

  ghost predicate PlainLine(l: Line) {
    !Has(l.side, '|') && !Has(l.stake, '|')
  }

  /** A printed piece can be read in one way only. */
  lemma SpelledIsInjective(l: Line, m: Line)
    requires PlainLine(l) && PlainLine(m) && Spelled(l) == Spelled(m)
    ensures l == m
  {
    SplitLast(l.id + "|" + l.side, l.stake, m.id + "|" + m.side, m.stake, '|');
    SplitLast(l.id, l.side, m.id, m.side, '|');
  }

  lemma PlainPiece(p: Platform, e: Entry)
    requires Plain(p, e)
    ensures Piece(p, e) != "" && !Has(Piece(p, e), ';')
  {
    NoMarkInConcat(e.id, "|", ';');
    NoMarkInConcat(e.id + "|", Text(e.side), ';');
    NoMarkInConcat(e.id + "|" + Text(e.side), "|", ';');
    NoMarkInConcat(e.id + "|" + Text(e.side) + "|", p.fixed(e.stake), ';');
  }

  lemma NoMarkInConcat(a: string, b: string, c: char)
    requires !Has(a, c) && !Has(b, c)
    ensures !Has(a + b, c)
  {
    assert forall i :: |a| <= i < |a + b| ==> (a + b)[i] == b[i - |a|];
  }

  function Spell(ls: seq<Line>): (r: seq<string>)
    ensures |r| == |ls| && forall i :: 0 <= i < |ls| ==> r[i] == Spelled(ls[i])
  {
    seq(|ls|, i requires 0 <= i < |ls| => Spelled(ls[i]))
  }

  lemma SpellWithoutOne(ls: seq<Line>, i: nat)
    requires i < |ls|
    ensures multiset(Spell(ls)) == multiset(Spell(ls[..i] + ls[i + 1..])) + multiset{Spelled(ls[i])}
  {
    hide Spelled;
    WithoutOne(Spell(ls), i);
    assert Spell(ls[..i] + ls[i + 1..]) == Spell(ls)[..i] + Spell(ls)[i + 1..];
  }

  lemma SpellWithoutFirst(ls: seq<Line>)
    requires ls != []
    ensures multiset(Spell(ls)) == multiset(Spell(ls[1..])) + multiset{Spelled(ls[0])}
  {
    hide Spelled;
    WithoutFirst(Spell(ls));
    assert Spell(ls)[1..] == Spell(ls[1..]);
  }

  /** Equal pieces, whatever their order, are equal lines. */
  lemma {:induction false} SameLines(ls: seq<Line>, ms: seq<Line>)
    requires forall i :: 0 <= i < |ls| ==> PlainLine(ls[i])
    requires forall i :: 0 <= i < |ms| ==> PlainLine(ms[i])
    requires multiset(Spell(ls)) == multiset(Spell(ms))
    ensures multiset(ls) == multiset(ms)
    decreases |ls|
  {
    hide Spelled, Spell, PlainLine;
    if ls == [] {
      SameIsEmpty(Spell(ms));
      assert ms == [];
    } else {
      var i := Find(Spell(ms), Spell(ls));
      SpelledIsInjective(ls[0], ms[i]);
      SpellWithoutFirst(ls);
      SpellWithoutOne(ms, i);
      RestPlain(ms, i);
      Cancel(multiset(Spell(ls[1..])), multiset(Spell(ms[..i] + ms[i + 1..])), Spelled(ls[0]));
      SameLines(ls[1..], ms[..i] + ms[i + 1..]);
      WithoutFirst(ls);
      WithoutOne(ms, i);
    }
  }

  lemma Cancel<T>(a: multiset<T>, b: multiset<T>, x: T)
    requires a + multiset{x} == b + multiset{x}
    ensures a == b
  {
    assert a == a + multiset{x} - multiset{x};
    assert b == b + multiset{x} - multiset{x};
  }

  lemma RestPlain(ms: seq<Line>, i: nat)
    requires i < |ms| && forall j :: 0 <= j < |ms| ==> PlainLine(ms[j])
    ensures var r := ms[..i] + ms[i + 1..]; forall j :: 0 <= j < |r| ==> PlainLine(r[j])
  {
  }

  lemma {:induction false} SameSpelling(ls: seq<Line>, ms: seq<Line>)
    requires multiset(ls) == multiset(ms)
    ensures multiset(Spell(ls)) == multiset(Spell(ms))
    decreases |ls|
  {
    hide Spelled, Spell;
    if ls == [] {
      SameIsEmpty(ms);
      assert ms == ls;
    } else {
      var i := Find(ms, ls);
      SameAfterRemoval(ls, ms, i);
      SameSpelling(ls[1..], ms[..i] + ms[i + 1..]);
      SpellWithoutFirst(ls);
      SpellWithoutOne(ms, i);
    }
  }

  lemma PiecesAreLines(p: Platform, d: seq<Entry>)
    ensures Pieces(p, d) == Spell(Lines(p, d))
  {
  }

  /** Two line-ups have the same canonical string exactly when they are the same list of players, sides
    * and printed stakes, in some order: a verifier that recomputes the string has checked the whole
    * line-up. */
  lemma CanonIdentifiesEntries(p: Platform, d: seq<Entry>, e: seq<Entry>)
    requires forall i :: 0 <= i < |d| ==> Plain(p, d[i])
    requires forall i :: 0 <= i < |e| ==> Plain(p, e[i])
    ensures Canon(p, d) == Canon(p, e) <==> multiset(Lines(p, d)) == multiset(Lines(p, e))
  {
    hide Sort, Pieces, Sorted, Join, NoMarks, Lines, Spell, Has;
    CanonIdentifiesPieces(p, d, e);
    PiecesAreLines(p, d);
    PiecesAreLines(p, e);
    PlainLines(p, d);
    PlainLines(p, e);
    if multiset(Lines(p, d)) == multiset(Lines(p, e)) {
      SameSpelling(Lines(p, d), Lines(p, e));
    }
    if multiset(Pieces(p, d)) == multiset(Pieces(p, e)) {
      SameLines(Lines(p, d), Lines(p, e));
    }
  }

  /** Under a digest that never collides, a seed stands for one secret and one canonical string, and so for
    * one line-up: nobody can change either after the secret is committed to. */
  lemma SeedBindsSecretAndEntries(p: Platform, secret: string, secret': string, d: seq<Entry>, e: seq<Entry>)
    requires forall x, y :: p.sha256(x) == p.sha256(y) ==> x == y
    requires !Has(secret, '|') && !Has(secret', '|')
    requires DeriveSeed(p, secret, d) == DeriveSeed(p, secret', e)
    ensures secret == secret' && Canon(p, d) == Canon(p, e)
    ensures (forall i :: 0 <= i < |d| ==> Plain(p, d[i])) && (forall i :: 0 <= i < |e| ==> Plain(p, e[i])) ==>
              multiset(Lines(p, d)) == multiset(Lines(p, e))
  {
    hide Canon, Has, Plain, Lines;
    SplitOnce(secret, Canon(p, d), secret', Canon(p, e), '|');
    if (forall i :: 0 <= i < |d| ==> Plain(p, d[i])) && (forall i :: 0 <= i < |e| ==> Plain(p, e[i])) {
      CanonIdentifiesEntries(p, d, e);
    }
  }

  /** An entry as the server makes it from a message, with any text for the side. */
  function Sent(wallet: string, side: string, stake: real): Entry {
    Entry(wallet + "|" + side, Stray(side, 0), stake)
  }

  /** Without plain sides the string identifies nobody: one message whose side holds both marks makes the
    * line-up of three, whatever the stake, as long as it prints like a number. */
  lemma MarksForgeALineUp(p: Platform, stake: real)
    requires p.fixed(stake) != "" && p.fixed(stake)[0] > '!'
    ensures var one := [Sent("w", "!|!|" + p.fixed(stake) + ";z|!|!", stake)];
            var three := [Sent("w", "!", stake), Sent("z", "!|!", stake), Sent("z", "!", stake)];
            Canon(p, one) == Canon(p, three) && multiset(Lines(p, one)) != multiset(Lines(p, three))
  {
    hide Sort, Le, Join, Pieces, Sorted, Lines;
    var f := p.fixed(stake);
    var one := [Sent("w", "!|!|" + f + ";z|!|!", stake)];
    var three := [Sent("w", "!", stake), Sent("z", "!|!", stake), Sent("z", "!", stake)];
    var a, b, c := "w|!|!|" + f, "z|!|!|!|!|" + f, "z|!|!|" + f;
    ThreePieces(p, stake);
    ThreeInOrder(f);
    CanonOfSorted(p, three, [a, b, c]);
    JoinThree(a, b, c);
    OnePiece(p, stake);
    CanonOfSorted(p, one, [a + ";" + (b + ";" + c)]);
    assert |multiset(Lines(p, one))| == 1 && |multiset(Lines(p, three))| == 3;
  }

  lemma ThreePieces(p: Platform, stake: real)
    ensures var f := p.fixed(stake);
            Pieces(p, [Sent("w", "!", stake), Sent("z", "!|!", stake), Sent("z", "!", stake)])
            == ["w|!|!|" + f, "z|!|!|!|!|" + f, "z|!|!|" + f]
  {
    var f := p.fixed(stake);
    SentPiece(p, "w", "!", stake);
    SentPiece(p, "z", "!|!", stake);
    SentPiece(p, "z", "!", stake);
    assert "w" + "|" + "!" + "|" + "!" + "|" == "w|!|!|";
    assert "z" + "|" + "!|!" + "|" + "!|!" + "|" == "z|!|!|!|!|";
    assert "z" + "|" + "!" + "|" + "!" + "|" == "z|!|!|";
  }

  lemma SentPiece(p: Platform, wallet: string, side: string, stake: real)
    ensures Piece(p, Sent(wallet, side, stake)) == wallet + "|" + side + "|" + side + "|" + p.fixed(stake)
  {
  }

  lemma OnePiece(p: Platform, stake: real)
    ensures var f := p.fixed(stake);
            Pieces(p, [Sent("w", "!|!|" + f + ";z|!|!", stake)])
            == ["w|!|!|" + f + ";" + ("z|!|!|!|!|" + f + ";" + ("z|!|!|" + f))]
  {
    var f := p.fixed(stake);
    SentPiece(p, "w", "!|!|" + f + ";z|!|!", stake);
    Spliced(f);
  }

  lemma Spliced(f: string)
    ensures var side := "!|!|" + f + ";z|!|!";
            "w" + "|" + side + "|" + side + "|" + f == "w|!|!|" + f + ";" + ("z|!|!|!|!|" + f + ";" + ("z|!|!|" + f))
  {
    var side, end := "!|!|" + f + ";z|!|!", f + ";" + ("z|!|!|" + f);
    assert "w" + "|" + side == "w|!|!|" + f + ";" + "z|!|!";
    assert side + "|" + f == "!|!|" + end by {
      assert ";z|!|!" + "|" == ";" + "z|!|!|";
    }
    assert "z|!|!" + "|" + ("!|!|" + end) == "z|!|!|!|!|" + end;
  }

  lemma CanonOfSorted(p: Platform, entries: seq<Entry>, s: seq<string>)
    requires Pieces(p, entries) == s && (|s| == 1 || Sorted(s))
    ensures Canon(p, entries) == Join(s) && (|s| == 1 ==> Join(s) == s[0])
  {
    hide Le;
    SortSorts(s);
    SortedIsUnique(Sort(s), s);
  }

  lemma JoinThree(a: string, b: string, c: string)
    ensures Join([a, b, c]) == a + ";" + (b + ";" + c)
  {
    assert [a, b, c][1..] == [b, c] && [b, c][1..] == [c];
    assert Join([c]) == c;
    assert Join([b, c]) == b + ";" + c;
  }

  lemma ThreeInOrder(f: string)
    requires f != "" && f[0] > '!'
    ensures Sorted(["w|!|!|" + f, "z|!|!|!|!|" + f, "z|!|!|" + f])
  {
    var a, b, c := "w|!|!|" + f, "z|!|!|!|!|" + f, "z|!|!|" + f;
    assert a[0] == 'w' && b[0] == 'z' && c[0] == 'z';
    assert Le("!|!|" + f, f);
    LeAfter("z|!|!|", "!|!|" + f, f);
    assert b == "z|!|!|" + ("!|!|" + f);
    assert Le(a, b) && Le(a, c) && Le(b, c);
  }

  lemma {:induction false} LeAfter(a: string, x: string, y: string)
    requires Le(x, y)
    ensures Le(a + x, a + y)
  {
    if a == "" {
      assert a + x == x && a + y == y;
    } else {
      LeAfter(a[1..], x, y);
      assert (a + x)[1..] == a[1..] + x && (a + y)[1..] == a[1..] + y;
    }
  }

  lemma PlainLines(p: Platform, d: seq<Entry>)
    requires forall i :: 0 <= i < |d| ==> Plain(p, d[i])
    ensures forall i :: 0 <= i < |d| ==> PlainLine(Lines(p, d)[i])
  {
    hide Has;
  }

  lemma CanonIdentifiesPieces(p: Platform, d: seq<Entry>, e: seq<Entry>)
    requires forall i :: 0 <= i < |d| ==> Plain(p, d[i])
    requires forall i :: 0 <= i < |e| ==> Plain(p, e[i])
    ensures Canon(p, d) == Canon(p, e) <==> multiset(Pieces(p, d)) == multiset(Pieces(p, e))
  {
    hide Sort, Pieces, Sorted, Plain, Join, NoMarks;
    SortSorts(Pieces(p, d));
    SortSorts(Pieces(p, e));
    if multiset(Pieces(p, d)) == multiset(Pieces(p, e)) {
      SortedIsUnique(Sort(Pieces(p, d)), Sort(Pieces(p, e)));
    }
    if Canon(p, d) == Canon(p, e) {
      SortedPiecesPlain(p, d);
      SortedPiecesPlain(p, e);
      JoinIsInjective(Sort(Pieces(p, d)), Sort(Pieces(p, e)));
    }
  }

  lemma SortedPiecesPlain(p: Platform, d: seq<Entry>)
    requires forall i :: 0 <= i < |d| ==> Plain(p, d[i])
    ensures NoMarks(Sort(Pieces(p, d)))
  {
    hide Has;
    var s := Sort(Pieces(p, d));
    SortSorts(Pieces(p, d));
    forall i | 0 <= i < |s|
      ensures s[i] != "" && !Has(s[i], ';')
    {
      assert s[i] in multiset(s);
      assert s[i] in Pieces(p, d);
      var j :| 0 <= j < |d| && Pieces(p, d)[j] == s[i];
      PlainPiece(p, d[j]);
    }
  }
}
