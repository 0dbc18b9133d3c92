/** The keys of an IDL by where they are: a definition on the tree alone, the walk proved to find exactly
  * those, and the rewrite to change exactly those. */
module IdlPaths {
  import opened Basics
  import opened Base58
  import opened IdlPubkeys
  import opened IdlRetarget

  // ---- what holds a key ----

  ghost predicate AreBytes(items: seq<Json>, bytes: seq<Byte>) {
    && |items| == |bytes|
    && forall i :: 0 <= i < |items| ==>
         items[i] == Num(bytes[i]) || (items[i] == Bool(true) && bytes[i] == 1) || (items[i] == Bool(false) && bytes[i] == 0)
  }

  /** A constant program: 32 bytes under `program`. */
  ghost predicate HoldsBytes(f: Field, bytes: seq<Byte>) {
    && f.key == "program" && f.value.Obj? && |bytes| == 32
    && Get(f.value.fields, "kind") == Some(Str("const"))
    && Get(f.value.fields, "value").Some? && Get(f.value.fields, "value").value.Arr?
    && AreBytes(Get(f.value.fields, "value").value.items, bytes)
  }

  /** An entry holds a key as text, or as the bytes it encodes. */
  ghost predicate Holds(f: Field, key: string) {
    f == Field("address", Str(key)) || exists bytes: seq<Byte> :: HoldsBytes(f, bytes) && Encode(bytes) == key
  }

  ghost predicate Holder(f: Field) {
    exists key :: Holds(f, key)
  }

  lemma BytesAreBytes(items: seq<Json>, bytes: seq<Byte>)
    ensures AreBytes(items, bytes) <==> AllBytes(items) && BytesOf(items) == bytes
  {
    if AllBytes(items) && BytesOf(items) == bytes {
      forall i | 0 <= i < |items|
        ensures items[i] == Num(bytes[i]) || (items[i] == Bool(true) && bytes[i] == 1) || (items[i] == Bool(false) && bytes[i] == 0)
      {
        assert AsByte(items[i]) == Some(bytes[i]);
      }
    }
  }

  /** The two encodings the walk tests for are the two ways to hold a key. */
  lemma HoldersAre(f: Field)
    requires ByteListsIn(f)
    ensures IsAddress(f) ==> forall key :: Holds(f, key) <==> key == f.value.text
    ensures IsProgram(f) ==> !IsAddress(f) && forall key :: Holds(f, key) <==> key == Encode(BytesOf(ProgramItems(f)))
    ensures Holder(f) <==> IsAddress(f) || IsProgram(f)
  {
    hide Encode, AreBytes;
    assert "program"[0] != "address"[0];
    if IsAddress(f) {
      assert Holds(f, f.value.text);
    }
    if IsProgram(f) {
      BytesAreBytes(ProgramItems(f), BytesOf(ProgramItems(f)));
      assert HoldsBytes(f, BytesOf(ProgramItems(f)));
      assert Holds(f, Encode(BytesOf(ProgramItems(f))));
    }
    forall bytes: seq<Byte> | HoldsBytes(f, bytes)
      ensures IsProgram(f) && bytes == BytesOf(ProgramItems(f))
    {
      BytesAreBytes(Get(f.value.fields, "value").value.items, bytes);
    }
  }

  // ---- where keys are ----

  /** The path leads to this key: through the entries of dicts that hold no key themselves, and through the
    * items of lists. */
  ghost predicate Names(node: Json, path: seq<PathStep>, key: string)
    decreases |path|, 1
  {
    path != [] && match node
    case Obj(fields) => exists i :: 0 <= i < |fields| && NamesIn(fields[i], path, key)
    case Arr(items) => path[0].Index? && path[0].n < |items| && Names(items[path[0].n], path[1..], key)
    case _ => false
  }

  ghost predicate NamesIn(f: Field, path: seq<PathStep>, key: string)
    requires path != []
    decreases |path|, 0
  {
    path[0] == Key(f.key) && if |path| == 1 then Holds(f, key) else !Holder(f) && Names(f.value, path[1..], key)
  }

  // ---- the walk finds all of them ----

  lemma {:induction false} FieldsHave(fields: seq<Field>, at: seq<PathStep>, x: Found)
    requires forall i :: 0 <= i < |fields| ==> ByteListsIn(fields[i])
    ensures x in PubkeysOfFields(fields, at) <==> exists i :: 0 <= i < |fields| && x in PubkeysOfField(fields[i], at)
    decreases |fields|
  {
    hide PubkeysOfField, ByteListsIn;
    if fields != [] {
      var rest := fields[1..];
      FieldsHave(rest, at, x);
      assert forall i :: 0 <= i < |rest| ==> rest[i] == fields[i + 1];
      if i :| 0 <= i < |fields| && x in PubkeysOfField(fields[i], at) {
        if i > 0 {
          assert x in PubkeysOfField(rest[i - 1], at);
        }
      }
    }
  }

  ghost predicate InItem(items: seq<Json>, n: nat, at: seq<PathStep>, x: Found, i: nat) {
    i < |items| && ByteLists(items[i]) && x in Pubkeys(items[i], at + [Index(n + i)])
  }

  lemma {:induction false} ItemsHave(items: seq<Json>, n: nat, at: seq<PathStep>, x: Found)
    requires forall i :: 0 <= i < |items| ==> ByteLists(items[i])
    ensures x in PubkeysOfItems(items, n, at) <==> exists i: nat :: InItem(items, n, at, x, i)
    decreases |items|
  {
    hide Pubkeys, ByteLists;
    if items != [] {
      var rest, next := items[1..], n + 1;
      ItemsHave(rest, next, at, x);
      if i: nat :| InItem(rest, next, at, x, i) {
        NextItem(items, n, at, x, i);
      }
      if i: nat :| InItem(items, n, at, x, i) {
        if i > 0 {
          NextItem(items, n, at, x, i - 1);
        }
      }
      if x in Pubkeys(items[0], at + [Index(n)]) {
        assert InItem(items, n, at, x, 0);
      }
    }
  }

  lemma NextItem(items: seq<Json>, n: nat, at: seq<PathStep>, x: Found, i: nat)
    requires items != []
    ensures InItem(items[1..], n + 1, at, x, i) <==> InItem(items, n, at, x, i + 1)
  {
    hide Pubkeys, ByteLists;
    assert n + 1 + i == n + (i + 1);
    assert i < |items[1..]| ==> items[1..][i] == items[i + 1];
  }

  /** What is found at the end of a path is what the path leads to. */
  lemma {:induction false} FoundIsNamed(node: Json, at: seq<PathStep>, x: Found) returns (path: seq<PathStep>)
    requires ByteLists(node) && x in Pubkeys(node, at)
    ensures x.at == at + path && Names(node, path, x.pubkey)
    decreases node, 1
  {
    hide Encode, Holds, Holder;
    match node
    case Obj(fields) =>
      FieldsHave(fields, at, x);
      var i :| 0 <= i < |fields| && x in PubkeysOfField(fields[i], at);
      path := FoundIsNamedIn(fields[i], at, x);
      assert NamesIn(fields[i], path, x.pubkey);
    case Arr(items) =>
      ItemsHave(items, 0, at, x);
      var i: nat :| InItem(items, 0, at, x, i);
      var rest := FoundIsNamed(items[i], at + [Index(i)], x);
      path := [Index(i)] + rest;
      assert path[1..] == rest && at + [Index(i)] + rest == at + path;
  }

  lemma {:induction false} FoundIsNamedIn(f: Field, at: seq<PathStep>, x: Found) returns (path: seq<PathStep>)
    requires ByteListsIn(f) && x in PubkeysOfField(f, at)
    ensures path != [] && x.at == at + path && NamesIn(f, path, x.pubkey)
    decreases f, 2
  {
    hide Encode, Holds, Holder;
    HoldersAre(f);
    if IsAddress(f) || IsProgram(f) {
      path := [Key(f.key)];
    } else {
      var rest := FoundIsNamed(f.value, at + [Key(f.key)], x);
      path := [Key(f.key)] + rest;
      assert path[1..] == rest && at + [Key(f.key)] + rest == at + path;
    }
  }

  /** And what a path leads to is found there. */
  lemma {:induction false} NamedIsFound(node: Json, at: seq<PathStep>, path: seq<PathStep>, key: string)
    requires ByteLists(node) && Names(node, path, key)
    ensures Found(key, at + path) in Pubkeys(node, at)
    decreases |path|, 1
  {
    hide Encode, Holds, Holder;
    match node
    case Obj(fields) =>
      var i :| 0 <= i < |fields| && NamesIn(fields[i], path, key);
      NamedIsFoundIn(fields[i], at, path, key);
      FieldsHave(fields, at, Found(key, at + path));
    case Arr(items) =>
      var i := path[0].n;
      NamedIsFound(items[i], at + [Index(i)], path[1..], key);
      assert at + [Index(i)] + path[1..] == at + path;
      assert InItem(items, 0, at, Found(key, at + path), i);
      ItemsHave(items, 0, at, Found(key, at + path));
  }

  lemma {:induction false} NamedIsFoundIn(f: Field, at: seq<PathStep>, path: seq<PathStep>, key: string)
    requires ByteListsIn(f) && path != [] && NamesIn(f, path, key)
    ensures Found(key, at + path) in PubkeysOfField(f, at)
    decreases |path|, 0
  {
    hide Encode, Holds;
    HoldersAre(f);
    if |path| == 1 {
      assert Holder(f);
      assert path == [Key(f.key)];
    } else {
      NamedIsFound(f.value, at + [Key(f.key)], path[1..], key);
      assert at + [Key(f.key)] + path[1..] == at + path;
    }
  }

  /** The walk finds exactly the keys the document names, at exactly the places it names them. */
  lemma WalkFindsWhatIsNamed(idl: Json, path: seq<PathStep>, key: string)
    requires ByteLists(idl)
    ensures Found(key, path) in Pubkeys(idl, []) <==> Names(idl, path, key)
  {
    hide Pubkeys, Names;
    assert [] + path == path;
    if Found(key, path) in Pubkeys(idl, []) {
      var p := FoundIsNamed(idl, [], Found(key, path));
      assert [] + p == p;
    }
    if Names(idl, path, key) {
      NamedIsFound(idl, [], path, key);
    }
  }

  /** A key is known: this program's, or one of those listed. */
  lemma {:induction false} ForeignAre(found: seq<Found>, id: string, x: Found)
    ensures x in ForeignOf(found, id) <==> x in found && x.pubkey != id && x.pubkey !in EXTERNAL_PROGRAMS
  {
    if found != [] {
      ForeignAre(found[1..], id, x);
    }
  }

  /** The generator's own check is empty exactly when no path leads to a foreign key. */
  lemma CheckMeansNoForeignKey(idl: Json, id: string)
    requires ByteLists(idl)
    ensures ForeignPubkeys(idl, id) == []
            <==> forall path, key :: Names(idl, path, key) ==> key == id || key in EXTERNAL_PROGRAMS
  {
    hide Pubkeys, Names, ForeignOf;
    var found := ForeignPubkeys(idl, id);
    if found != [] {
      var x := found[0];
      assert x in found;
      ForeignAre(Pubkeys(idl, []), id, x);
      assert x == Found(x.pubkey, x.at);
      WalkFindsWhatIsNamed(idl, x.at, x.pubkey);
    } else {
      forall path, key | Names(idl, path, key)
        ensures key == id || key in EXTERNAL_PROGRAMS
      {
        WalkFindsWhatIsNamed(idl, path, key);
        ForeignAre(Pubkeys(idl, []), id, Found(key, path));
      }
    }
  }

  // ---- the rewrite changes exactly those ----

  /** What a path reaches, through entries that hold no key and through list items. */
  ghost predicate Reaches(node: Json, path: seq<PathStep>, sub: Json)
    decreases |path|, 1
  {
    if path == [] then sub == node
    else match node
    case Obj(fields) => exists i :: 0 <= i < |fields| && ReachesIn(fields[i], path, sub)
    case Arr(items) => path[0].Index? && path[0].n < |items| && Reaches(items[path[0].n], path[1..], sub)
    case _ => false
  }

  ghost predicate ReachesIn(f: Field, path: seq<PathStep>, sub: Json)
    requires path != []
    decreases |path|, 0
  {
    path[0] == Key(f.key) && !Holder(f) && Reaches(f.value, path[1..], sub)
  }

  /** One entry after the rewrite: the key of a listed program is left alone; any other key is the new id, in
    * the encoding it was in, with the rest of a constant program as it was; an entry without a key keeps its
    * name. */
  ghost predicate EntryMoved(f: Field, f': Field, id: string, b: seq<Byte>) {
    && f'.key == f.key
    && (forall key :: Holds(f, key) && key in EXTERNAL_PROGRAMS ==> f' == f)
    && (forall key :: Holds(f, key) && key !in EXTERNAL_PROGRAMS ==>
          if f.value.Str? then f' == Field("address", Str(id))
          else HoldsBytes(f', b) && forall other :: other != "value" ==> Get(f'.value.fields, other) == Get(f.value.fields, other))
    && (!Holder(f) ==> !Holder(f'))
  }

  /** One node after the rewrite: dicts keep their entries in order, lists their length, and everything else
    * is as it was. */
  ghost predicate NodeMoved(sub: Json, sub': Json, id: string, b: seq<Byte>) {
    match sub
    case Obj(fields) =>
      && sub'.Obj? && |sub'.fields| == |fields|
      && forall i :: 0 <= i < |fields| ==> EntryMoved(fields[i], sub'.fields[i], id, b)
    case Arr(items) => sub'.Arr? && |sub'.items| == |items|
    case _ => sub' == sub
  }

  lemma {:induction false} FieldAt(fields: seq<Field>, id: string, b: seq<Byte>, i: nat)
    requires i < |fields| && forall j :: 0 <= j < |fields| ==> ByteListsIn(fields[j])
    ensures RetargetFields(fields, id, b)[i] == RetargetField(fields[i], id, b)
    decreases i
  {
    hide RetargetField;
    if i > 0 {
      FieldAt(fields[1..], id, b, i - 1);
    }
  }

  lemma {:induction false} ItemAt(items: seq<Json>, id: string, b: seq<Byte>, i: nat)
    requires i < |items| && forall j :: 0 <= j < |items| ==> ByteLists(items[j])
    ensures RetargetItems(items, id, b)[i] == Retarget(items[i], id, b)
    decreases i
  {
    hide Retarget;
    if i > 0 {
      ItemAt(items[1..], id, b, i - 1);
    }
  }

  lemma EntryIsMoved(f: Field, id: string, b: seq<Byte>)
    requires ByteListsIn(f) && |b| == 32 && Encode(b) == id
    ensures EntryMoved(f, RetargetField(f, id, b), id, b)
    ensures ByteListsIn(RetargetField(f, id, b)) && (Holder(RetargetField(f, id, b)) <==> Holder(f))
  {
    hide Encode, Holds, Retarget, HoldsBytes, Holder, AreBytes;
    var f' := RetargetField(f, id, b);
    RetargetOfField(f, [], id, b);
    HoldersAre(f);
    HoldersAre(f');
    if IsAddress(f) {
    } else if IsProgram(f) {
      ProgramStaysProgram(f, b);
      ProgramMoves(f, id, b);
      assert forall key :: Holds(f, key) ==> key == Encode(BytesOf(ProgramItems(f)));
    } else {
      KindKept(f, id, b);
      assert forall key :: Holds(f, key) ==> Holder(f) by {
        HolderIs(f);
      }
    }
  }

  lemma HolderIs(f: Field)
    ensures forall key :: Holds(f, key) ==> Holder(f)
  {
    hide Holds;
  }

  lemma ProgramMoves(f: Field, id: string, b: seq<Byte>)
    requires IsProgram(f) && |b| == 32
    ensures var f' := Field(f.key, Obj(Put(f.value.fields, "value", Arr(NumbersOf(b)))));
            HoldsBytes(f', b) && forall other :: other != "value" ==> Get(f'.value.fields, other) == Get(f.value.fields, other)
  {
    hide Put, Get, AreBytes;
    var fields, value := f.value.fields, Arr(NumbersOf(b));
    forall other
      ensures Get(Put(fields, "value", value), other)
           == if other == "value" && Get(fields, "value").Some? then Some(value) else Get(fields, other)
    {
      GetPut(fields, "value", value, other);
    }
    BytesAreBytes(NumbersOf(b), b);
  }

  lemma NodeIsMoved(sub: Json, id: string, b: seq<Byte>)
    requires ByteLists(sub) && |b| == 32 && Encode(b) == id
    ensures NodeMoved(sub, Retarget(sub, id, b), id, b)
  {
    hide Encode, EntryMoved, RetargetField, ByteListsIn;
    if sub.Obj? {
      forall i | 0 <= i < |sub.fields|
        ensures EntryMoved(sub.fields[i], Retarget(sub, id, b).fields[i], id, b)
      {
        FieldAt(sub.fields, id, b, i);
        EntryIsMoved(sub.fields[i], id, b);
      }
    }
  }

  /** Whatever a path reaches before, it reaches rewritten after. */
  lemma {:induction false} ReachedAfter(node: Json, id: string, b: seq<Byte>, path: seq<PathStep>, sub: Json)
    requires ByteLists(node) && |b| == 32 && Encode(b) == id && Reaches(node, path, sub)
    ensures ByteLists(sub) && Reaches(Retarget(node, id, b), path, Retarget(sub, id, b))
    decreases |path|
  {
    hide Encode, Holder, IsAddress, IsProgram;
    if path != [] {
      match node
      case Obj(fields) =>
        var i :| 0 <= i < |fields| && ReachesIn(fields[i], path, sub);
        ReachedAfterIn(fields[i], id, b, path, sub);
        FieldAt(fields, id, b, i);
        assert ReachesIn(RetargetFields(fields, id, b)[i], path, Retarget(sub, id, b));
      case Arr(items) =>
        var i := path[0].n;
        ReachedAfter(items[i], id, b, path[1..], sub);
        ItemAt(items, id, b, i);
    }
  }

  lemma {:induction false} ReachedAfterIn(f: Field, id: string, b: seq<Byte>, path: seq<PathStep>, sub: Json)
    requires ByteListsIn(f) && |b| == 32 && Encode(b) == id && path != [] && ReachesIn(f, path, sub)
    ensures ByteLists(sub) && ReachesIn(RetargetField(f, id, b), path, Retarget(sub, id, b))
    decreases |path|, 0
  {
    hide Encode, Holder, EntryMoved;
    HoldersAre(f);
    EntryIsMoved(f, id, b);
    ReachedAfter(f.value, id, b, path[1..], sub);
  }

  /** And whatever a path reaches after was reached before. */
  lemma {:induction false} ReachedBefore(node: Json, id: string, b: seq<Byte>, path: seq<PathStep>, sub': Json) returns (sub: Json)
    requires ByteLists(node) && |b| == 32 && Encode(b) == id && Reaches(Retarget(node, id, b), path, sub')
    ensures Reaches(node, path, sub) && ByteLists(sub) && sub' == Retarget(sub, id, b)
    decreases |path|, 1
  {
    hide Encode, Holder, IsAddress, IsProgram;
    if path == [] {
      sub := node;
    } else {
      match node
      case Obj(fields) =>
        var fields' := RetargetFields(fields, id, b);
        var i :| 0 <= i < |fields'| && ReachesIn(fields'[i], path, sub');
        FieldAt(fields, id, b, i);
        sub := ReachedBeforeIn(fields[i], id, b, path, sub');
      case Arr(items) =>
        ItemAt(items, id, b, path[0].n);
        sub := ReachedBefore(items[path[0].n], id, b, path[1..], sub');
    }
  }

  lemma {:induction false} ReachedBeforeIn(f: Field, id: string, b: seq<Byte>, path: seq<PathStep>, sub': Json) returns (sub: Json)
    requires ByteListsIn(f) && |b| == 32 && Encode(b) == id && path != [] && ReachesIn(RetargetField(f, id, b), path, sub')
    ensures ReachesIn(f, path, sub) && ByteLists(sub) && sub' == Retarget(sub, id, b)
    decreases |path|, 0
  {
    hide Encode, Holder, EntryMoved;
    HoldersAre(f);
    EntryIsMoved(f, id, b);
    sub := ReachedBefore(f.value, id, b, path[1..], sub');
  }

  /** What the rewrite does, with a 32-byte id, told by paths alone: no path of the result leads to a foreign
    * key; a path leads to a key in it exactly when it led to that key, being known, or to a foreign one,
    * the key then being the new id; and whatever a path reaches is what it reached, with its keys moved. */
  lemma RewriteByPaths(idl: Json, id: string, b: seq<Byte>)
    requires ByteLists(idl) && Decode(id) == Some(b) && |b| == 32
    ensures var out := Retarget(idl, id, b);
            && (forall path, key :: Names(out, path, key) ==> key == id || key in EXTERNAL_PROGRAMS)
            && (forall path, sub :: Reaches(idl, path, sub) ==> exists sub' :: Reaches(out, path, sub') && NodeMoved(sub, sub', id, b))
            && (forall path, sub' :: Reaches(out, path, sub') ==> exists sub :: Reaches(idl, path, sub) && NodeMoved(sub, sub', id, b))
  {
    hide Retarget, Names, Reaches, NodeMoved, ForeignPubkeys, Encode, Decode;
    var out := Retarget(idl, id, b);
    EncodeDecode(id);
    RetargetTheorem(idl, id, b);
    CheckMeansNoForeignKey(out, id);
    forall path, sub | Reaches(idl, path, sub)
      ensures exists sub' :: Reaches(out, path, sub') && NodeMoved(sub, sub', id, b)
    {
      ReachedAfter(idl, id, b, path, sub);
      NodeIsMoved(sub, id, b);
    }
    forall path, sub' | Reaches(out, path, sub')
      ensures exists sub :: Reaches(idl, path, sub) && NodeMoved(sub, sub', id, b)
    {
      var sub := ReachedBefore(idl, id, b, path, sub');
      NodeIsMoved(sub, id, b);
    }
  }
}
