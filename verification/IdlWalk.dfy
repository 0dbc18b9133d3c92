/** The two recursive walks as the generator runs them: one appends to a list, the other reassigns
  * dict entries in place. `None` is the exception a constant that is not bytes raises. */
module IdlWalk {
  import opened Basics
  import opened Base58
  import opened IdlPubkeys

  method AllBytesCheck(items: seq<Json>) returns (bytes: Option<seq<Byte>>)
    ensures bytes == if AllBytes(items) then Some(BytesOf(items)) else None
  {
    var bs: seq<Byte> := [];
    for i := 0 to |items|
      invariant AllBytes(items[..i]) && bs == BytesOf(items[..i])
    {
      var b := AsByte(items[i]);
      if b.None? {
        return None;
      }
      bs := bs + [b.value];
      assert items[..i + 1] == items[..i] + [items[i]];
    }
    assert items[..|items|] == items;
    bytes := Some(bs);
  }

  method Walk(node: Json, at: seq<PathStep>, found: seq<Found>) returns (out: Option<seq<Found>>)
    ensures out == if ByteLists(node) then Some(found + Pubkeys(node, at)) else None
    decreases node, 1
  {
    match node
    case Obj(fields) =>
      out := WalkFields(node, at, found);
    case Arr(items) =>
      out := WalkItems(node, at, found);
    case _ =>
      assert found + [] == found;
      out := Some(found);
  }

  method WalkFields(node: Json, at: seq<PathStep>, found: seq<Found>) returns (out: Option<seq<Found>>)
    requires node.Obj?
    ensures out == if ByteLists(node) then Some(found + Pubkeys(node, at)) else None
    decreases node, 0
  {
    hide Encode, IsAddress, IsProgram;
    var fields, list := node.fields, found;
    for i := 0 to |fields|
      invariant forall j :: 0 <= j < i ==> ByteListsIn(fields[j])
      invariant (forall j :: i <= j < |fields| ==> ByteListsIn(fields[j])) ==>
                  list + PubkeysOfFields(fields[i..], at) == found + PubkeysOfFields(fields, at)
    {
      assert fields[i..][0] == fields[i] && fields[i..][1..] == fields[i + 1..];
      var next := WalkField(fields[i], at, list);
      if next.None? {
        return None;
      }
      list := next.value;
    }
    assert fields[|fields|..] == [] && fields[0..] == fields && list + [] == list;
    out := Some(list);
  }

  method WalkField(f: Field, at: seq<PathStep>, found: seq<Found>) returns (out: Option<seq<Found>>)
    ensures out == if ByteListsIn(f) then Some(found + PubkeysOfField(f, at)) else None
    decreases f, 2
  {
    hide Encode;
    if IsAddress(f) {
      return Some(found + [Found(f.value.text, at + [Key("address")])]);
    }
    if IsProgram(f) {
      var bytes := AllBytesCheck(ProgramItems(f));
      if bytes.None? {
        return None;
      }
      var key := EncodeLoop(bytes.value);
      return Some(found + [Found(key, at + [Key("program")])]);
    }
    out := Walk(f.value, at + [Key(f.key)], found);
  }

  method WalkItems(node: Json, at: seq<PathStep>, found: seq<Found>) returns (out: Option<seq<Found>>)
    requires node.Arr?
    ensures out == if ByteLists(node) then Some(found + Pubkeys(node, at)) else None
    decreases node, 0
  {
    var items, list := node.items, found;
    for i := 0 to |items|
      invariant forall j :: 0 <= j < i ==> ByteLists(items[j])
      invariant (forall j :: i <= j < |items| ==> ByteLists(items[j])) ==>
                  list + PubkeysOfItems(items[i..], i, at) == found + PubkeysOfItems(items, 0, at)
    {
      assert items[i..][0] == items[i] && items[i..][1..] == items[i + 1..];
      var deeper := Walk(items[i], at + [Index(i)], list);
      if deeper.None? {
        return None;
      }
      list := deeper.value;
    }
    assert items[|items|..] == [] && items[0..] == items && list + [] == list;
    out := Some(list);
  }

  lemma {:induction false} RetargetFieldsAt(fields: seq<Field>, i: nat, id: string, b: seq<Byte>)
    requires i < |fields| && forall j :: 0 <= j < |fields| ==> ByteListsIn(fields[j])
    ensures RetargetFields(fields, id, b)[i] == RetargetField(fields[i], id, b)
    decreases i
  {
    if i > 0 {
      RetargetFieldsAt(fields[1..], i - 1, id, b);
    }
  }

  lemma {:induction false} RetargetItemsAt(items: seq<Json>, i: nat, id: string, b: seq<Byte>)
    requires i < |items| && forall j :: 0 <= j < |items| ==> ByteLists(items[j])
    ensures RetargetItems(items, id, b)[i] == Retarget(items[i], id, b)
    decreases i
  {
    if i > 0 {
      RetargetItemsAt(items[1..], i - 1, id, b);
    }
  }

  method Rewrite(node: Json, id: string, idBytes: seq<Byte>) returns (out: Option<Json>)
    ensures out == if ByteLists(node) then Some(Retarget(node, id, idBytes)) else None
    decreases node, 1
  {
    match node
    case Obj(fields) =>
      var now := fields;
      for i := 0 to |fields|
        invariant |now| == |fields|
        invariant forall j :: 0 <= j < i ==> ByteListsIn(fields[j]) && now[j] == RetargetField(fields[j], id, idBytes)
        invariant forall j :: i <= j < |fields| ==> now[j] == fields[j]
      {
        var f := RewriteField(fields[i], id, idBytes);
        if f.None? {
          return None;
        }
        now := now[i := f.value];
      }
      forall j | 0 <= j < |fields|
        ensures now[j] == RetargetFields(fields, id, idBytes)[j]
      {
        RetargetFieldsAt(fields, j, id, idBytes);
      }
      assert now == RetargetFields(fields, id, idBytes);
      out := Some(Obj(now));
    case Arr(items) =>
      var now := items;
      for i := 0 to |items|
        invariant |now| == |items|
        invariant forall j :: 0 <= j < i ==> ByteLists(items[j]) && now[j] == Retarget(items[j], id, idBytes)
        invariant forall j :: i <= j < |items| ==> now[j] == items[j]
      {
        var x := Rewrite(items[i], id, idBytes);
        if x.None? {
          return None;
        }
        now := now[i := x.value];
      }
      forall j | 0 <= j < |items|
        ensures now[j] == RetargetItems(items, id, idBytes)[j]
      {
        RetargetItemsAt(items, j, id, idBytes);
      }
      assert now == RetargetItems(items, id, idBytes);
      out := Some(Arr(now));
    case _ =>
      out := Some(node);
  }

  method RewriteField(f: Field, id: string, idBytes: seq<Byte>) returns (out: Option<Field>)
    ensures out == if ByteListsIn(f) then Some(RetargetField(f, id, idBytes)) else None
    decreases f, 2
  {
    if IsAddress(f) {
      if f.value.text != id && f.value.text !in EXTERNAL_PROGRAMS {
        return Some(Field(f.key, Str(id)));
      }
      return Some(f);
    }
    if IsProgram(f) {
      var bytes := AllBytesCheck(ProgramItems(f));
      if bytes.None? {
        return None;
      }
      var key := EncodeLoop(bytes.value);
      if key !in EXTERNAL_PROGRAMS {
        return Some(Field(f.key, Obj(Put(f.value.fields, "value", Arr(NumbersOf(idBytes))))));
      }
      return Some(f);
    }
    var v := Rewrite(f.value, id, idBytes);
    if v.None? {
      return None;
    }
    out := Some(Field(f.key, v.value));
  }
}
