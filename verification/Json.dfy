/** JSON values as Qt reads them, with its lenient conversions. */
module JsonValues {

  datatype Json =
    | Undefined | Null
    | Bool(b: bool)
    | Number(n: real)
    | Str(s: string)
    | Array(items: seq<Json>)
    | Object(members: seq<Member>)

  datatype Member = Member(name: string, value: Json)

  const EMPTY: Json := Object([])

  function Lookup(members: seq<Member>, name: string): Json {
    if members == [] then Undefined else if members[0].name == name then members[0].value
      else Lookup(members[1..], name)
  }

  /** QJsonObject::value of a value that is taken as an object. */
  function Value(j: Json, name: string): Json { if j.Object? then Lookup(j.members, name) else Undefined }

  predicate HasName(members: seq<Member>, name: string) { exists i :: 0 <= i < |members| && members[i].name == name }

  predicate Has(j: Json, name: string) { j.Object? && HasName(j.members, name) }

  function AsString(j: Json): string { if j.Str? then j.s else "" }

  function AsArray(j: Json): seq<Json> { if j.Array? then j.items else [] }

  function AsObject(j: Json): Json { if j.Object? then j else EMPTY }

  function AsBool(j: Json): bool { if j.Bool? then j.b else false }

  function AsReal(j: Json): real { if j.Number? then j.n else 0.0 }

  const INT_LIMIT: int := 0x8000_0000
  const INT64_LIMIT: int := 0x8000_0000_0000_0000

  predicate Integral(x: real) { x.Floor as real == x }

  /** QJsonValue::toInt: a number that is no 32-bit integer reads as zero. */
  function AsInt(j: Json): int {
    if j.Number? && Integral(j.n) && -INT_LIMIT <= j.n.Floor < INT_LIMIT then j.n.Floor else 0
  }

  function Size(j: Json): nat
    decreases j, 0
  {
    match j
    case Array(items) => 1 + SizeOfItems(items)
    case Object(members) => 1 + SizeOfMembers(members)
    case _ => 1
  }

  function SizeOfItems(items: seq<Json>): nat
    decreases items, 1
  {
    if items == [] then 0 else Size(items[0]) + SizeOfItems(items[1..])
  }

  function SizeOfMembers(members: seq<Member>): nat
    decreases members, 1
  {
    if members == [] then 0 else 1 + Size(members[0].value) + SizeOfMembers(members[1..])
  }

  lemma {:induction false} ItemIsSmaller(items: seq<Json>, i: nat)
    requires i < |items|
    ensures Size(items[i]) <= SizeOfItems(items)
    decreases i
  {
    if i > 0 {
      ItemIsSmaller(items[1..], i - 1);
    }
  }

  lemma {:induction false} MemberIsSmaller(members: seq<Member>, i: nat)
    requires i < |members|
    ensures Size(members[i].value) < SizeOfMembers(members)
    decreases i
  {
    if i > 0 {
      MemberIsSmaller(members[1..], i - 1);
    }
  }

  /** A found value is one of the members. */
  lemma {:induction false} LookupFinds(members: seq<Member>, name: string)
    ensures HasName(members, name) <==>
              exists i :: 0 <= i < |members| && members[i] == Member(name, Lookup(members, name))
    ensures !HasName(members, name) ==> Lookup(members, name) == Undefined
    decreases |members|
  {
    if members != [] && members[0].name != name {
      LookupFinds(members[1..], name);
      if HasName(members[1..], name) {
        var i :| 0 <= i < |members| - 1 && members[1..][i] == Member(name, Lookup(members, name));
        assert members[i + 1] == Member(name, Lookup(members, name));
      }
      if HasName(members, name) {
        var i :| 0 <= i < |members| && members[i].name == name;
        assert members[1..][i - 1].name == name;
      }
    } else if members != [] {
      assert members[0] == Member(name, Lookup(members, name));
    }
  }

  /** What a key of an object holds is smaller than the object. */
  lemma ValueIsSmaller(j: Json, name: string)
    ensures Size(Value(j, name)) <= Size(j) && (Has(j, name) ==> Size(Value(j, name)) < Size(j))
  {
    if j.Object? {
      LookupFinds(j.members, name);
      if HasName(j.members, name) {
        var i :| 0 <= i < |j.members| && j.members[i] == Member(name, Lookup(j.members, name));
        MemberIsSmaller(j.members, i);
      }
    }
  }
}
