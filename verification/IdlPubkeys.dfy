/** Every public key an IDL names, in both of its encodings, and the rewrite that points them all at
  * the current program. */
module IdlPubkeys {
  import opened Basics
  import opened Base58

  datatype Json =
    | Obj(fields: seq<Field>)
    | Arr(items: seq<Json>)
    | Str(text: string)
    | Num(number: int)
    | Bool(flag: bool)
    | Float(literal: string)
    | Null

  /** A dict as its entries in insertion order; lookups read the first entry of a key. */
  datatype Field = Field(key: string, value: Json)

  datatype PathStep = Key(key: string) | Index(n: nat)

  datatype Found = Found(pubkey: string, at: seq<PathStep>)

  const EXTERNAL_PROGRAMS: set<string> := {
    "11111111111111111111111111111111",
    "SysvarS1otHashes111111111111111111111111111",
    "DELeGGvXpWV2fqJUhqcF5ZSYMS4JTLjteaAMARRSaeSh",
    "Magic11111111111111111111111111111111111111",
    "MagicContext1111111111111111111111111111111",
    "Vrf1RNUjXmQGjmQrQLvJHs9SNkvDJEsRVFPkfSQUwGz"}

  function Get(fields: seq<Field>, key: string): Option<Json> {
    if fields == [] then None
    else if fields[0].key == key then Some(fields[0].value)
    else Get(fields[1..], key)
  }

  function Put(fields: seq<Field>, key: string, value: Json): seq<Field> {
    if fields == [] then []
    else if fields[0].key == key then [Field(key, value)] + fields[1..]
    else [fields[0]] + Put(fields[1..], key, value)
  }

  /** An element of a byte list: the runtime takes integers 0..255, and booleans as 0 and 1. */
  function AsByte(j: Json): Option<Byte> {
    match j
    case Num(n) => if 0 <= n < 256 then Some(n) else None
    case Bool(b) => Some(if b then 1 else 0)
    case _ => None
  }

  predicate AllBytes(items: seq<Json>) {
    forall i :: 0 <= i < |items| ==> AsByte(items[i]).Some?
  }

  function BytesOf(items: seq<Json>): (bs: seq<Byte>)
    requires AllBytes(items)
    ensures |bs| == |items|
  {
    seq(|items|, i requires 0 <= i < |items| => AsByte(items[i]).value)
  }

  function NumbersOf(bs: seq<Byte>): (items: seq<Json>)
    ensures |items| == |bs| && AllBytes(items) && BytesOf(items) == bs
  {
    seq(|bs|, i requires 0 <= i < |bs| => Num(bs[i]))
  }

  // ---- the two encodings ----

  predicate IsAddress(f: Field) {
    f.key == "address" && f.value.Str?
  }

  /** A PDA's `program` written as a constant of 32 raw bytes. */
  predicate IsProgram(f: Field) {
    f.key == "program" && f.value.Obj?
    && Get(f.value.fields, "kind") == Some(Str("const"))
    && Get(f.value.fields, "value").Some? && Get(f.value.fields, "value").value.Arr?
    && |Get(f.value.fields, "value").value.items| == 32
  }

  function ProgramItems(f: Field): seq<Json>
    requires IsProgram(f)
  {
    Get(f.value.fields, "value").value.items
  }

  /** No constant holds anything but bytes; otherwise every walk raises. */
  predicate ByteLists(node: Json) {
    match node
    case Obj(fields) => forall i :: 0 <= i < |fields| ==> ByteListsIn(fields[i])
    case Arr(items) => forall i :: 0 <= i < |items| ==> ByteLists(items[i])
    case _ => true
  }

  predicate ByteListsIn(f: Field) {
    if IsAddress(f) then true
    else if IsProgram(f) then AllBytes(ProgramItems(f))
    else ByteLists(f.value)
  }

  // ---- the walk ----

  function Pubkeys(node: Json, at: seq<PathStep>): seq<Found>
    requires ByteLists(node)
    decreases node, 1
  {
    match node
    case Obj(fields) => PubkeysOfFields(fields, at)
    case Arr(items) => PubkeysOfItems(items, 0, at)
    case _ => []
  }

  function PubkeysOfFields(fields: seq<Field>, at: seq<PathStep>): seq<Found>
    requires forall i :: 0 <= i < |fields| ==> ByteListsIn(fields[i])
    decreases fields, 0
  {
    if fields == [] then [] else PubkeysOfField(fields[0], at) + PubkeysOfFields(fields[1..], at)
  }

  function PubkeysOfField(f: Field, at: seq<PathStep>): seq<Found>
    requires ByteListsIn(f)
    decreases f, 2
  {
    if IsAddress(f) then [Found(f.value.text, at + [Key("address")])]
    else if IsProgram(f) then [Found(Encode(BytesOf(ProgramItems(f))), at + [Key("program")])]
    else Pubkeys(f.value, at + [Key(f.key)])
  }

  function PubkeysOfItems(items: seq<Json>, n: nat, at: seq<PathStep>): seq<Found>
    requires forall i :: 0 <= i < |items| ==> ByteLists(items[i])
    decreases items, 0
  {
    if items == [] then [] else Pubkeys(items[0], at + [Index(n)]) + PubkeysOfItems(items[1..], n + 1, at)
  }

  predicate Known(key: string, id: string) {
    key == id || key in EXTERNAL_PROGRAMS
  }

  function ForeignOf(found: seq<Found>, id: string): seq<Found> {
    if found == [] then []
    else (if Known(found[0].pubkey, id) then [] else [found[0]]) + ForeignOf(found[1..], id)
  }

  function ForeignPubkeys(idl: Json, id: string): seq<Found>
    requires ByteLists(idl)
  {
    ForeignOf(Pubkeys(idl, []), id)
  }

  // ---- the rewrite ----

  function Retarget(node: Json, id: string, idBytes: seq<Byte>): Json
    requires ByteLists(node)
    decreases node, 1
  {
    match node
    case Obj(fields) => Obj(RetargetFields(fields, id, idBytes))
    case Arr(items) => Arr(RetargetItems(items, id, idBytes))
    case _ => node
  }

  function RetargetFields(fields: seq<Field>, id: string, idBytes: seq<Byte>): (out: seq<Field>)
    requires forall i :: 0 <= i < |fields| ==> ByteListsIn(fields[i])
    ensures |out| == |fields|
    decreases fields, 0
  {
    if fields == [] then []
    else [RetargetField(fields[0], id, idBytes)] + RetargetFields(fields[1..], id, idBytes)
  }

  function RetargetField(f: Field, id: string, idBytes: seq<Byte>): Field
    requires ByteListsIn(f)
    decreases f, 2
  {
    if IsAddress(f) then (if Known(f.value.text, id) then f else Field(f.key, Str(id)))
    else if IsProgram(f) then
      (if Encode(BytesOf(ProgramItems(f))) in EXTERNAL_PROGRAMS then f
       else Field(f.key, Obj(Put(f.value.fields, "value", Arr(NumbersOf(idBytes))))))
    else Field(f.key, Retarget(f.value, id, idBytes))
  }

  function RetargetItems(items: seq<Json>, id: string, idBytes: seq<Byte>): (out: seq<Json>)
    requires forall i :: 0 <= i < |items| ==> ByteLists(items[i])
    ensures |out| == |items|
    decreases items, 0
  {
    if items == [] then []
    else [Retarget(items[0], id, idBytes)] + RetargetItems(items[1..], id, idBytes)
  }
}
