/** What the rewrite guarantees: it moves every foreign key and nothing else, in both encodings. */
module IdlRetarget {
  import opened Basics
  import opened Base58
  import opened Radix
  import opened IdlPubkeys

  lemma {:induction false} GetPut(fields: seq<Field>, key: string, value: Json, other: string)
    ensures Get(Put(fields, key, value), other)
         == if other == key && Get(fields, key).Some? then Some(value) else Get(fields, other)
  {
    if fields != [] {
      GetPut(fields[1..], key, value, other);
      if fields[0].key == key {
        assert Put(fields, key, value)[1..] == fields[1..];
      } else {
        assert Put(fields, key, value)[1..] == Put(fields[1..], key, value);
      }
    }
  }

  lemma {:induction false} PutPut(fields: seq<Field>, key: string, value: Json, later: Json)
    ensures Put(Put(fields, key, value), key, later) == Put(fields, key, later)
  {
    if fields != [] {
      if fields[0].key == key {
        assert Put(fields, key, value)[1..] == fields[1..];
      } else {
        PutPut(fields[1..], key, value, later);
        assert Put(fields, key, value)[1..] == Put(fields[1..], key, value);
      }
    }
  }

  /** Where a key ends up. */
  function Target(key: string, id: string): string {
    if Known(key, id) then key else id
  }

  function Retargeted(found: seq<Found>, id: string): seq<Found> {
    if found == [] then []
    else [Found(Target(found[0].pubkey, id), found[0].at)] + Retargeted(found[1..], id)
  }

  lemma {:induction false} RetargetedAppend(x: seq<Found>, y: seq<Found>, id: string)
    ensures Retargeted(x + y, id) == Retargeted(x, id) + Retargeted(y, id)
  {
    hide Target;
    if x == [] {
      assert x + y == y;
    } else {
      assert (x + y)[0] == x[0] && (x + y)[1..] == x[1..] + y;
      RetargetedAppend(x[1..], y, id);
    }
  }

  lemma {:induction false} NothingForeignLeft(found: seq<Found>, id: string)
    ensures ForeignOf(Retargeted(found, id), id) == []
  {
    if found != [] {
      NothingForeignLeft(found[1..], id);
      assert Retargeted(found, id)[1..] == Retargeted(found[1..], id);
    }
  }

  /** The tree with every public key blanked out: everything the rewrite has no business touching. */
  function Erase(node: Json): Json
    decreases node, 1
  {
    match node
    case Obj(fields) => Obj(EraseFields(fields))
    case Arr(items) => Arr(EraseItems(items))
    case _ => node
  }

  function EraseFields(fields: seq<Field>): seq<Field>
    decreases fields, 0
  {
    if fields == [] then [] else [EraseField(fields[0])] + EraseFields(fields[1..])
  }

  function EraseField(f: Field): Field
    decreases f, 2
  {
    if IsAddress(f) then Field(f.key, Str(""))
    else if IsProgram(f) then Field(f.key, Obj(Put(f.value.fields, "value", Null)))
    else Field(f.key, Erase(f.value))
  }

  function EraseItems(items: seq<Json>): seq<Json>
    decreases items, 0
  {
    if items == [] then [] else [Erase(items[0])] + EraseItems(items[1..])
  }

  /** The rewritten tree names the same places, each key moved to its target; differs from the
    * original nowhere else; and is left alone by a second rewrite. */
  lemma {:induction false} RetargetNode(node: Json, at: seq<PathStep>, id: string, b: seq<Byte>)
    requires ByteLists(node) && |b| == 32 && Encode(b) == id
    ensures var node' := Retarget(node, id, b);
            && ByteLists(node')
            && Pubkeys(node', at) == Retargeted(Pubkeys(node, at), id)
            && Erase(node') == Erase(node)
            && Retarget(node', id, b) == node'
    decreases node, 1
  {
    match node
    case Obj(fields) => RetargetOfFields(fields, at, id, b);
    case Arr(items) => RetargetOfItems(items, 0, at, id, b);
    case _ =>
  }

  lemma {:induction false} RetargetOfFields(fields: seq<Field>, at: seq<PathStep>, id: string, b: seq<Byte>)
    requires forall i :: 0 <= i < |fields| ==> ByteListsIn(fields[i])
    requires |b| == 32 && Encode(b) == id
    ensures var fields' := RetargetFields(fields, id, b);
            && (forall i :: 0 <= i < |fields'| ==> ByteListsIn(fields'[i]))
            && PubkeysOfFields(fields', at) == Retargeted(PubkeysOfFields(fields, at), id)
            && EraseFields(fields') == EraseFields(fields)
            && RetargetFields(fields', id, b) == fields'
    decreases fields, 0
  {
    if fields != [] {
      RetargetOfField(fields[0], at, id, b);
      RetargetOfFields(fields[1..], at, id, b);
      RetargetedAppend(PubkeysOfField(fields[0], at), PubkeysOfFields(fields[1..], at), id);
      assert RetargetFields(fields, id, b)[1..] == RetargetFields(fields[1..], id, b);
    }
  }

  lemma {:induction false} RetargetOfItems(items: seq<Json>, n: nat, at: seq<PathStep>, id: string, b: seq<Byte>)
    requires forall i :: 0 <= i < |items| ==> ByteLists(items[i])
    requires |b| == 32 && Encode(b) == id
    ensures var items' := RetargetItems(items, id, b);
            && (forall i :: 0 <= i < |items'| ==> ByteLists(items'[i]))
            && PubkeysOfItems(items', n, at) == Retargeted(PubkeysOfItems(items, n, at), id)
            && EraseItems(items') == EraseItems(items)
            && RetargetItems(items', id, b) == items'
    decreases items, 0
  {
    if items != [] {
      RetargetNode(items[0], at + [Index(n)], id, b);
      RetargetOfItems(items[1..], n + 1, at, id, b);
      RetargetedAppend(Pubkeys(items[0], at + [Index(n)]), PubkeysOfItems(items[1..], n + 1, at), id);
      assert RetargetItems(items, id, b)[1..] == RetargetItems(items[1..], id, b);
    }
  }

  lemma {:induction false} RetargetOfField(f: Field, at: seq<PathStep>, id: string, b: seq<Byte>)
    requires ByteListsIn(f) && |b| == 32 && Encode(b) == id
    ensures var f' := RetargetField(f, id, b);
            && ByteListsIn(f')
            && PubkeysOfField(f', at) == Retargeted(PubkeysOfField(f, at), id)
            && EraseField(f') == EraseField(f)
            && RetargetField(f', id, b) == f'
    decreases f, 2
  {
    if IsAddress(f) {
    } else if IsProgram(f) {
      ProgramStaysProgram(f, b);
    } else {
      RetargetNode(f.value, at + [Key(f.key)], id, b);
      KindKept(f, id, b);
    }
  }

  /** Rewriting a constant leaves a constant of 32 bytes in the same place. */
  lemma ProgramStaysProgram(f: Field, b: seq<Byte>)
    requires IsProgram(f) && |b| == 32
    ensures var f' := Field(f.key, Obj(Put(f.value.fields, "value", Arr(NumbersOf(b)))));
            && IsProgram(f') && ProgramItems(f') == NumbersOf(b)
            && EraseField(f') == EraseField(f)
            && Put(f'.value.fields, "value", Arr(NumbersOf(b))) == f'.value.fields
  {
    var fields := f.value.fields;
    GetPut(fields, "value", Arr(NumbersOf(b)), "kind");
    GetPut(fields, "value", Arr(NumbersOf(b)), "value");
    PutPut(fields, "value", Arr(NumbersOf(b)), Null);
    PutPut(fields, "value", Arr(NumbersOf(b)), Arr(NumbersOf(b)));
  }

  /** A field that is neither encoding does not become one by being walked into. */
  lemma KindKept(f: Field, id: string, b: seq<Byte>)
    requires ByteListsIn(f) && !IsAddress(f) && !IsProgram(f)
    ensures !IsAddress(RetargetField(f, id, b)) && !IsProgram(RetargetField(f, id, b))
  {
    if f.key == "program" && f.value.Obj? {
      GetRetarget(f.value.fields, "kind", id, b);
      GetRetarget(f.value.fields, "value", id, b);
    }
  }

  /** Plain entries keep their shape: a string stays that string, a list keeps its length. */
  lemma {:induction false} GetRetarget(fields: seq<Field>, key: string, id: string, b: seq<Byte>)
    requires forall i :: 0 <= i < |fields| ==> ByteListsIn(fields[i])
    requires key == "kind" || key == "value"
    ensures var was, now := Get(fields, key), Get(RetargetFields(fields, id, b), key);
            && (now.Some? <==> was.Some?)
            && (was.Some? ==> ByteLists(was.value) && now.value == Retarget(was.value, id, b))
  {
    if fields != [] && fields[0].key != key {
      GetRetarget(fields[1..], key, id, b);
      assert RetargetFields(fields, id, b)[1..] == RetargetFields(fields[1..], id, b);
    }
  }

  // ---- the post-condition the generator checks ----

  /** With an id that decodes to 32 bytes: nothing foreign is left in either encoding, every key sits
    * where it sat, known keys and everything that is not a key are untouched, and rewriting again
    * changes nothing. */
  lemma RetargetTheorem(idl: Json, id: string, b: seq<Byte>)
    requires ByteLists(idl) && Decode(id) == Some(b) && |b| == 32
    ensures var out := Retarget(idl, id, b);
            && ByteLists(out)
            && ForeignPubkeys(out, id) == []
            && Pubkeys(out, []) == Retargeted(Pubkeys(idl, []), id)
            && Erase(out) == Erase(idl)
            && Retarget(out, id, b) == out
  {
    EncodeDecode(id);
    RetargetNode(idl, [], id, b);
    NothingForeignLeft(Pubkeys(idl, []), id);
  }

  // ---- why 32 bytes ----

  /** 31 zero bytes and a one: an ordinary key that is none of the named programs. */
  function OtherKey(): seq<Byte> {
    Zeros(31) + [1]
  }

  lemma OtherKeyIsForeign()
    ensures |OtherKey()| == 32 && Encode(OtherKey()) !in EXTERNAL_PROGRAMS
  {
    var ds: seq<nat> := Zeros(31) + [1];
    LeadingZerosIs(ds, 31);
    ValueIgnoresZeros(31, [1], 256);
    assert Value([1], 256) == 1;
    assert Digits(1, 58) == [1];
    var text := Encode(OtherKey());
    assert text == Spell(ds);
    assert |text| == 32 && text[31] == B58[1];
    NotAllOnes(text);
  }

  lemma NotAllOnes(text: string)
    requires |text| == 32 && text[31] == B58[1]
    ensures text !in EXTERNAL_PROGRAMS
  {
    ShortProgramsEndInOne();
    assert B58[1] == '2';
  }

  /** The only known program whose id has 32 characters is all ones. */
  lemma ShortProgramsEndInOne()
    ensures forall p :: p in EXTERNAL_PROGRAMS && |p| == 32 ==> p[31] == '1'
  {
  }

  lemma {:induction false} NumbersNameNothing(items: seq<Json>, n: nat, at: seq<PathStep>)
    requires forall i :: 0 <= i < |items| ==> items[i].Num?
    ensures (forall i :: 0 <= i < |items| ==> ByteLists(items[i])) && PubkeysOfItems(items, n, at) == []
    decreases items
  {
    if items != [] {
      NumbersNameNothing(items[1..], n + 1, at);
      assert Pubkeys(items[0], at + [Index(n)]) == [];
    }
  }

  /** The entries of a constant program, with an address beside its bytes. */
  function TrapFields(bytes: seq<Byte>, address: string): seq<Field> {
    [Field("kind", Str("const")), Field("value", Arr(NumbersOf(bytes))), Field("address", Str(address))]
  }

  function TrapField(bytes: seq<Byte>, address: string): Field {
    Field("program", Obj(TrapFields(bytes, address)))
  }

  /** Any document at all, with the trap as one more entry. */
  function Trap(idl: seq<Field>, address: string): Json {
    Obj([TrapField(OtherKey(), address)] + idl)
  }

  ghost predicate AllByteLists(idl: seq<Field>) {
    forall i :: 0 <= i < |idl| ==> ByteListsIn(idl[i])
  }

  lemma TrapIsProgram(bytes: seq<Byte>, address: string)
    ensures var f := TrapField(bytes, address);
            && (IsProgram(f) <==> |bytes| == 32) && !IsAddress(f)
            && (IsProgram(f) ==> ProgramItems(f) == NumbersOf(bytes))
            && ByteListsIn(f)
  {
    var fields := TrapFields(bytes, address);
    assert "program"[0] != "address"[0];
    assert Get(fields, "kind") == Some(Str("const"));
    assert fields[1..][0] == fields[1];
    assert Get(fields, "value") == Get(fields[1..], "value") == Some(Arr(NumbersOf(bytes)));
    NumbersNameNothing(NumbersOf(bytes), 0, []);
    TrapShut(bytes, address, []);
  }

  lemma TrapShut(bytes: seq<Byte>, address: string, at: seq<PathStep>)
    ensures forall i :: 0 <= i < 3 ==> ByteListsIn(TrapFields(bytes, address)[i])
    ensures PubkeysOfFields(TrapFields(bytes, address), at) == [Found(address, at + [Key("address")])]
  {
    var fields := TrapFields(bytes, address);
    NumbersNameNothing(NumbersOf(bytes), 0, at + [Key("value")]);
    assert PubkeysOfField(fields[0], at) == [] && PubkeysOfField(fields[1], at) == [];
    assert PubkeysOfField(fields[2], at) == [Found(address, at + [Key("address")])];
    assert fields[1..][1..] == [fields[2]];
    assert PubkeysOfFields([fields[2]], at) == PubkeysOfField(fields[2], at) + [];
    assert PubkeysOfFields(fields[1..], at) == PubkeysOfField(fields[1], at) + PubkeysOfFields([fields[2]], at);
  }

  lemma TrapRetargets(idl: seq<Field>, id: string, b: seq<Byte>, address: string)
    requires AllByteLists(idl)
    ensures ByteLists(Trap(idl, address))
    ensures Retarget(Trap(idl, address), id, b) == Obj([TrapField(b, address)] + RetargetFields(idl, id, b))
  {
    hide Encode, OtherKey;
    OtherKeyIsForeign();
    TrapIsProgram(OtherKey(), address);
    var inner, f := TrapFields(OtherKey(), address), TrapField(OtherKey(), address);
    var value := Arr(NumbersOf(b));
    assert Put(inner[1..], "value", value) == [Field("value", value)] + inner[1..][1..];
    assert Put(inner, "value", value) == TrapFields(b, address);
    assert RetargetField(f, id, b) == TrapField(b, address);
    var all := [f] + idl;
    assert all[1..] == idl;
    assert forall i :: 0 <= i < |all| ==> ByteListsIn(all[i]);
    assert RetargetFields(all, id, b) == [RetargetField(f, id, b)] + RetargetFields(idl, id, b);
  }

  /** An id of any other length turns the constant it rewrites into something the walk no longer
    * recognises, so the walk goes inside and finds what the rewrite never looked at: one entry is enough,
    * whatever else is in the document. */
  lemma WrongLengthLeavesForeign(idl: seq<Field>, id: string, b: seq<Byte>, address: string)
    requires |b| != 32 && !Known(address, id) && AllByteLists(idl)
    ensures ByteLists(Trap(idl, address))
    ensures var out := Retarget(Trap(idl, address), id, b);
            (AllByteLists(RetargetFields(idl, id, b)) ==> ByteLists(out)) && (ByteLists(out) ==> ForeignPubkeys(out, id) != [])
  {
    hide Retarget, Trap, TrapFields, Encode, Known;
    TrapRetargets(idl, id, b, address);
    TrapIsProgram(b, address);
    var at := [] + [Key("program")];
    TrapShut(b, address, at);
    var f, rest := TrapField(b, address), RetargetFields(idl, id, b);
    var all := [f] + rest;
    assert all[0] == f && all[1..] == rest;
    if ByteLists(Obj(all)) {
      assert PubkeysOfField(f, []) == Pubkeys(f.value, at) == [Found(address, at + [Key("address")])];
      assert forall i :: 0 <= i < |rest| ==> rest[i] == all[i + 1];
      assert PubkeysOfFields(all, []) == [Found(address, at + [Key("address")])] + PubkeysOfFields(rest, []);
      assert Pubkeys(Obj(all), [])[0] == Found(address, at + [Key("address")]);
    }
  }

  /** Clears every tree of byte lists: the post-condition, for one id. */
  ghost predicate ClearsEveryTree(id: string, b: seq<Byte>) {
    forall idl: Json :: ByteLists(idl) ==> Clears(idl, id, b)
  }

  ghost predicate Clears(idl: Json, id: string, b: seq<Byte>)
    requires ByteLists(idl)
  {
    var out := Retarget(idl, id, b);
    ByteLists(out) && ForeignPubkeys(out, id) == []
  }

  /** Clears every document that has at least these entries. */
  ghost predicate ClearsEveryExtension(idl: seq<Field>, id: string, b: seq<Byte>) {
    forall more: seq<Field> :: ByteLists(Obj(more + idl)) ==> Clears(Obj(more + idl), id, b)
  }

  /** The rewrite clears every tree if and only if the id it writes decodes to 32 bytes -- a check the
    * caller can make, and which the pattern that reads the id does not. The same holds of the documents
    * that extend any given one, so of those that have all the entries the script looks up by name. */
  lemma ClearsIff32Bytes(id: string, b: seq<Byte>, idl: seq<Field>)
    requires Decode(id) == Some(b) && AllByteLists(idl)
    ensures ClearsEveryTree(id, b) <==> |b| == 32
    ensures ClearsEveryExtension(idl, id, b) <==> |b| == 32
  {
    hide Retarget, Trap, ForeignPubkeys, Decode, ByteLists, AllByteLists;
    if |b| == 32 {
      forall tree: Json | ByteLists(tree)
        ensures Clears(tree, id, b)
      {
        RetargetTheorem(tree, id, b);
      }
    } else {
      var address := if id == "x" then "y" else "x";
      assert |address| == 1;
      WrongLengthLeavesForeign(idl, id, b, address);
      TrapExtends(idl, address);
      assert !Clears(Trap(idl, address), id, b);
    }
  }

  lemma TrapExtends(idl: seq<Field>, address: string)
    ensures exists more: seq<Field> :: Trap(idl, address) == Obj(more + idl)
  {
    assert Trap(idl, address) == Obj([TrapField(OtherKey(), address)] + idl);
  }
}
