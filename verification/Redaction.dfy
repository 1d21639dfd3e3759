/** Redaction of an export: which parts of a value it hides, and that it hides nothing else. */
module Redaction {
  import opened Common
  import opened JsonValues
  import opened SchemaSpec
  import opened Parameters

  const MARK: Json := Str("[REDACTED]")

  // ---- What redaction makes of a value -----------------------------------------------------------

  function Find(fields: seq<Field>, name: string): Option<Field> {
    if fields == [] then None
    else if fields[|fields| - 1].name == name then Some(fields[|fields| - 1])
    else Find(fields[..|fields| - 1], name)
  }

  /** The fields of the group a schema refers to. */
  function Referred(c: Context, schema: Json): seq<Field> {
    var group := AsString(Value(schema, "ref"));
    if group in c.groups then c.groups[group] else []
  }

  /** The schema for a member that its properties name, or for all others. */
  function SchemaOfMember(schema: Json, name: string): Json {
    var named := Value(AsObject(Value(schema, "properties")), name);
    if named.Object? then named else AsObject(Value(schema, "additionalProperties"))
  }

  /** The schema for an element: the one of its place, or the one for all behind the places. */
  function SchemaOfItem(schema: Json, i: nat): Json {
    var places := AsArray(Value(schema, "prefixItems"));
    if i < |places| then AsObject(places[i]) else AsObject(Value(schema, "items"))
  }

  function FieldShown(c: Context, f: Field, value: Json, levels: nat): Json
    decreases levels, 1
  {
    if f.sensitive then MARK else Shown(c, f.schema, value, levels)
  }

  /** A value as it is shown under a schema, with so many levels of nesting left. */
  function Shown(c: Context, schema: Json, value: Json, levels: nat): Json
    decreases levels, 0
  {
    if levels == 0 then MARK
    else
      Level(c, schema, ShownByAll(c, AsArray(Value(schema, "anyOf")), value, levels - 1), levels - 1)
  }

  /** The members or elements, each by the schemas for it. */
  function Level(c: Context, schema: Json, v: Json, levels: nat): Json
    decreases levels, 4
  {
    match v
    case Object(members) =>
      Object(seq(|members|, i requires 0 <= i < |members| => MemberShown(c, schema, members[i], levels)))
    case Array(items) =>
      Array(seq(|items|, i requires 0 <= i < |items| => ByChild(c, SchemaOfItem(schema, i), items[i], levels)))
    case _ => v
  }

  /** Every branch of a union redacts, one after the other. */
  function ShownByAll(c: Context, branches: seq<Json>, value: Json, levels: nat): Json
    decreases levels, 1 + |branches|
  {
    if branches == [] then value
    else
      var n := |branches| - 1;
      Shown(c, AsObject(branches[n]), ShownByAll(c, branches[..n], value, levels), levels)
  }

  /** A member is redacted as a field of the group referred to, then by its own schema. */
  function MemberShown(c: Context, schema: Json, m: Member, levels: nat): Member
    decreases levels, 3
  {
    Member(m.name, ByChild(c, SchemaOfMember(schema, m.name), ByField(c, Referred(c, schema), m, levels), levels))
  }

  function ByField(c: Context, fields: seq<Field>, m: Member, levels: nat): Json
    decreases levels, 2
  {
    match Find(fields, m.name)
    case None => m.value
    case Some(f) => FieldShown(c, f, m.value, levels)
  }

  function ByChild(c: Context, child: Json, value: Json, levels: nat): Json
    decreases levels, 2
  {
    if child == EMPTY then value else Shown(c, child, value, levels)
  }

  // ---- The loops of the source -------------------------------------------------------------------

  method RedactValue(catalog: Catalog, schema: Json, value: Json, depth: nat) returns (r: Json)
    requires catalog.Ready()
    ensures r == Shown(catalog.Ctx(), schema, value, Levels(depth))
    decreases Levels(depth), 0
  {
    if depth > LIMIT {
      return MARK;
    }
    ghost var c, left := catalog.Ctx(), Levels(depth + 1);
    var branches := AsArray(Value(schema, "anyOf"));
    r := value;
    for i := 0 to |branches|
      invariant r == ShownByAll(c, branches[..i], value, left)
    {
      assert branches[..i + 1][..i] == branches[..i];
      r := RedactValue(catalog, AsObject(branches[i]), r, depth + 1);
    }
    assert branches[..|branches|] == branches;
    if r.Object? {
      var members := RedactFields(catalog, schema, r.members, depth);
      r := RedactMembers(catalog, schema, r.members, members, depth);
    } else if r.Array? {
      r := RedactItems(catalog, schema, r.items, depth);
    }
  }

  /** Every element by the schema for its place. */
  method RedactItems(catalog: Catalog, schema: Json, before: seq<Json>, depth: nat) returns (r: Json)
    requires catalog.Ready() && depth <= LIMIT
    ensures r == Level(catalog.Ctx(), schema, Array(before), Levels(depth + 1))
    decreases Levels(depth + 1), 1
  {
    ghost var c, left := catalog.Ctx(), Levels(depth + 1);
    var items := before;
    for i := 0 to |before|
      invariant |items| == |before|
      invariant forall k :: 0 <= k < i ==> items[k] == ByChild(c, SchemaOfItem(schema, k), before[k], left)
      invariant forall k :: i <= k < |items| ==> items[k] == before[k]
    {
      var child := SchemaOfItem(schema, i);
      if child != EMPTY {
        var item := RedactValue(catalog, child, items[i], depth + 1);
        items := items[i := item];
      }
    }
    assert items == Level(c, schema, Array(before), left).items;
    return Array(items);
  }

  /** The fields of the group that is referred to, in turn. */
  method RedactFields(catalog: Catalog, schema: Json, before: seq<Member>, depth: nat) returns (members: seq<Member>)
    requires catalog.Ready() && depth <= LIMIT
    ensures |members| == |before|
    ensures forall k :: 0 <= k < |members| ==>
              members[k] == Member(before[k].name,
                                   ByField(catalog.Ctx(), Referred(catalog.Ctx(), schema), before[k],
                                     Levels(depth + 1)))
    decreases Levels(depth + 1), 2
  {
    ghost var c, left := catalog.Ctx(), Levels(depth + 1);
    members := before;
    var group := AsString(Value(schema, "ref"));
    if group !in catalog.groups {
      return;
    }
    assert catalog.GroupReady(group);
    var fields := catalog.groups[group];
    for i := 0 to |fields|
      invariant |members| == |before|
      invariant forall k :: 0 <= k < |before| ==>
                  members[k] == Member(before[k].name, ByField(c, fields[..i], before[k], left))
    {
      FindNext(fields, i);
      members := RedactField(catalog, fields[i], members, depth);
    }
    assert fields[..|fields|] == fields;
  }

  method RedactField(catalog: Catalog, f: Field, before: seq<Member>, depth: nat) returns (members: seq<Member>)
    requires catalog.Ready() && depth <= LIMIT
    ensures |members| == |before|
    ensures forall k :: 0 <= k < |members| ==>
              members[k] == if before[k].name != f.name then before[k]
                            else Member(f.name, FieldShown(catalog.Ctx(), f, before[k].value, Levels(depth + 1)))
    decreases Levels(depth + 1), 1
  {
    members := before;
    for k := 0 to |before|
      invariant |members| == |before|
      invariant forall j :: 0 <= j < k ==>
                  members[j] == if before[j].name != f.name then before[j]
                                else Member(f.name, FieldShown(catalog.Ctx(), f, before[j].value, Levels(depth + 1)))
      invariant forall j :: k <= j < |before| ==> members[j] == before[j]
    {
      if members[k].name == f.name {
        var shown := MARK;
        if !f.sensitive {
          shown := RedactValue(catalog, f.schema, members[k].value, depth + 1);
        }
        members := members[k := Member(f.name, shown)];
      }
    }
  }

  /** Then every member by the schema's own properties. */
  method RedactMembers(catalog: Catalog, schema: Json, ghost original: seq<Member>, before: seq<Member>, depth: nat)
    returns (r: Json)
    requires catalog.Ready() && depth <= LIMIT && |before| == |original|
    requires forall k :: 0 <= k < |before| ==>
               before[k] == Member(original[k].name,
                                   ByField(catalog.Ctx(), Referred(catalog.Ctx(), schema), original[k],
                                     Levels(depth + 1)))
    ensures r == Level(catalog.Ctx(), schema, Object(original), Levels(depth + 1))
    decreases Levels(depth + 1), 1
  {
    ghost var c, left := catalog.Ctx(), Levels(depth + 1);
    var members := before;
    for i := 0 to |before|
      invariant |members| == |before|
      invariant forall k :: 0 <= k < i ==> members[k] == MemberShown(c, schema, original[k], left)
      invariant forall k :: i <= k < |before| ==> members[k] == before[k]
    {
      var child := SchemaOfMember(schema, members[i].name);
      if child != EMPTY {
        var shown := RedactValue(catalog, child, members[i].value, depth + 1);
        members := members[i := Member(members[i].name, shown)];
      }
    }
    assert members == Level(c, schema, Object(original), left).members;
    return Object(members);
  }

  /** With distinct names the next field is found where none was. */
  lemma FindNext(fields: seq<Field>, i: nat)
    requires DistinctNames(fields) && i < |fields|
    ensures forall n ::
              Find(fields[..i + 1], n) == if n == fields[i].name then Some(fields[i]) else Find(fields[..i], n)
    ensures Find(fields[..i], fields[i].name).None?
  {
    assert fields[..i + 1][..i] == fields[..i];
    FindIsNamed(fields[..i], fields[i].name);
  }

  lemma {:induction false} FindIsNamed(fields: seq<Field>, name: string)
    ensures Find(fields, name).Some? <==> exists k :: 0 <= k < |fields| && fields[k].name == name
    ensures Find(fields, name).Some? ==> Find(fields, name).value in fields && Find(fields, name).value.name == name
  {
    if fields != [] {
      var init := fields[..|fields| - 1];
      FindIsNamed(init, name);
      assert fields == init + [fields[|fields| - 1]];
      if k :| 0 <= k < |init| && init[k].name == name {
        assert fields[k].name == name;
      }
      if k :| 0 <= k < |fields| && fields[k].name == name && k < |init| {
        assert init[k].name == name;
      }
    }
  }

  // ---- What redaction hides ----------------------------------------------------------------------

  /** A step into a value. */
  datatype Step = Key(name: string) | Place(i: nat)

  /** What lies there is hidden: it is in a sensitive field, by some schema that applies, or nested too deeply. */
  ghost predicate Hidden(c: Context, schema: Json, path: seq<Step>, levels: nat)
    decreases levels, 0
  {
    || levels == 0
    || HiddenByOne(c, AsArray(Value(schema, "anyOf")), path, levels - 1)
    || (path != [] && StepHides(c, schema, path[0], path[1..], levels - 1))
  }

  ghost predicate HiddenByOne(c: Context, branches: seq<Json>, path: seq<Step>, levels: nat)
    decreases levels, 1
  {
    exists i :: 0 <= i < |branches| && Hidden(c, AsObject(branches[i]), path, levels)
  }

  ghost predicate StepHides(c: Context, schema: Json, step: Step, rest: seq<Step>, levels: nat)
    decreases levels, 3
  {
    match step
    case Key(name) =>
      || FoundHides(c, Referred(c, schema), name, rest, levels)
      || ChildHides(c, SchemaOfMember(schema, name), rest, levels)
    case Place(i) => ChildHides(c, SchemaOfItem(schema, i), rest, levels)
  }

  ghost predicate FoundHides(c: Context, fields: seq<Field>, name: string, path: seq<Step>, levels: nat)
    decreases levels, 2
  {
    Find(fields, name).Some? && FieldHides(c, Find(fields, name).value, path, levels)
  }

  ghost predicate FieldHides(c: Context, f: Field, path: seq<Step>, levels: nat)
    decreases levels, 1
  {
    f.sensitive || Hidden(c, f.schema, path, levels)
  }

  ghost predicate ChildHides(c: Context, child: Json, path: seq<Step>, levels: nat)
    decreases levels, 1
  {
    child != EMPTY && Hidden(c, child, path, levels)
  }

  predicate Plain(j: Json) { !j.Object? && !j.Array? }

  /**
   * Two values are the same but for what lies at a path, where they differ; `plain` asks for no
   * objects or arrays there.
   */
  ghost predicate Differ(v: Json, w: Json, path: seq<Step>, plain: bool)
    decreases |path|, 0
  {
    if path == [] then v != w && (plain ==> Plain(v) && Plain(w))
    else
      match path[0]
      case Key(name) => v.Object? && w.Object? && exists i ::
        DifferInMember(v.members, w.members, i, name, path[1..], plain)
      case Place(i) => v.Array? && w.Array? && DifferInItem(v.items, w.items, i, path[1..], plain)
  }

  ghost predicate DifferInMember(v: seq<Member>, w: seq<Member>, i: int, name: string, rest: seq<Step>, plain: bool)
    decreases |rest|, 1
  {
    && |v| == |w| && 0 <= i < |v| && v[i].name == w[i].name == name && Differ(v[i].value, w[i].value, rest, plain)
    && forall k :: 0 <= k < |v| && k != i ==> v[k] == w[k]
  }

  ghost predicate DifferInItem(v: seq<Json>, w: seq<Json>, i: nat, rest: seq<Step>, plain: bool)
    decreases |rest|, 1
  {
    && |v| == |w| && i < |v| && Differ(v[i], w[i], rest, plain)
    && forall k :: 0 <= k < |v| && k != i ==> v[k] == w[k]
  }

  lemma {:induction false} DifferentIsUnequal(v: Json, w: Json, path: seq<Step>, plain: bool)
    requires Differ(v, w, path, plain)
    ensures v != w
    decreases |path|
  {
    if path != [] {
      if path[0].Key? {
        var i :| DifferInMember(v.members, w.members, i, path[0].name, path[1..], plain);
        DifferentIsUnequal(v.members[i].value, w.members[i].value, path[1..], plain);
      } else {
        DifferentIsUnequal(v.items[path[0].i], w.items[path[0].i], path[1..], plain);
      }
    }
  }

  /** What becomes of a difference: it vanishes where it is hidden, and else stays, if it is a plain one. */
  ghost predicate Fate(v: Json, w: Json, path: seq<Step>, plain: bool, hidden: bool) {
    && (v == w || Differ(v, w, path, plain))
    && (hidden ==> v == w)
    && (plain && !hidden ==> Differ(v, w, path, plain))
  }

  lemma GoneIsHidden(v: Json, w: Json, path: seq<Step>, plain: bool, hidden: bool)
    requires Fate(v, w, path, plain, hidden)
    ensures v == w && plain ==> hidden
    ensures v != w ==> !hidden && Differ(v, w, path, plain)
  {
    if Differ(v, w, path, plain) {
      DifferentIsUnequal(v, w, path, plain);
    }
  }

  /** Redaction hides a difference exactly where something hides it, and touches nothing beside it. */
  lemma {:induction false} ShownFate(c: Context, schema: Json, v: Json, w: Json, path: seq<Step>, plain: bool,
    levels: nat)
    requires Differ(v, w, path, plain)
    ensures Fate(Shown(c, schema, v, levels), Shown(c, schema, w, levels), path, plain, Hidden(c, schema, path, levels))
    decreases levels, 0
  {
    if levels > 0 {
      var branches := AsArray(Value(schema, "anyOf"));
      BranchesFate(c, branches, v, w, path, plain, levels - 1);
      var x, y := ShownByAll(c, branches, v, levels - 1), ShownByAll(c, branches, w, levels - 1);
      GoneIsHidden(x, y, path, plain, HiddenByOne(c, branches, path, levels - 1));
      if x != y {
        LevelFate(c, schema, x, y, path, plain, levels);
      }
    }
  }

  lemma {:induction false} BranchesFate(c: Context, branches: seq<Json>, v: Json, w: Json, path: seq<Step>,
    plain: bool, levels: nat)
    requires Differ(v, w, path, plain)
    ensures Fate(ShownByAll(c, branches, v, levels), ShownByAll(c, branches, w, levels), path, plain,
                 HiddenByOne(c, branches, path, levels))
    decreases levels, 1 + |branches|
  {
    if branches != [] {
      var n := |branches| - 1;
      BranchesFate(c, branches[..n], v, w, path, plain, levels);
      OneMoreBranch(c, branches, path, levels);
      var x, y := ShownByAll(c, branches[..n], v, levels), ShownByAll(c, branches[..n], w, levels);
      GoneIsHidden(x, y, path, plain, HiddenByOne(c, branches[..n], path, levels));
      if x != y {
        ShownFate(c, AsObject(branches[n]), x, y, path, plain, levels);
      }
    }
  }

  lemma OneMoreBranch(c: Context, branches: seq<Json>, path: seq<Step>, levels: nat)
    requires branches != []
    ensures HiddenByOne(c, branches, path, levels) <==>
            HiddenByOne(c, branches[..|branches| - 1], path, levels)
              || Hidden(c, AsObject(branches[|branches| - 1]), path, levels)
  {
    var init := branches[..|branches| - 1];
    assert forall i :: 0 <= i < |init| ==> init[i] == branches[i];
  }

  lemma {:induction false} LevelFate(c: Context, schema: Json, v: Json, w: Json, path: seq<Step>, plain: bool,
    levels: nat)
    requires levels > 0 && Differ(v, w, path, plain)
    ensures Fate(Level(c, schema, v, levels - 1), Level(c, schema, w, levels - 1), path, plain,
                 path != [] && StepHides(c, schema, path[0], path[1..], levels - 1))
    decreases levels - 1, 6
  {
    if path != [] {
      if path[0].Key? {
        var i :| DifferInMember(v.members, w.members, i, path[0].name, path[1..], plain);
        MemberFate(c, schema, v.members, w.members, i, path, plain, levels - 1);
      } else {
        ItemFate(c, schema, v.items, w.items, path, plain, levels - 1);
      }
    }
  }

  lemma {:induction false} MemberFate(c: Context, schema: Json, v: seq<Member>, w: seq<Member>, i: nat, path: seq<Step>,
                                      plain: bool, levels: nat)
    requires path != [] && path[0].Key? && DifferInMember(v, w, i, path[0].name, path[1..], plain)
    ensures Fate(Level(c, schema, Object(v), levels), Level(c, schema, Object(w), levels), path, plain,
                 StepHides(c, schema, path[0], path[1..], levels))
    decreases levels, 5
  {
    var name, rest := path[0].name, path[1..];
    var fields, child := Referred(c, schema), SchemaOfMember(schema, name);
    ValueFate(c, fields, child, v[i], w[i], rest, plain, levels);
    var a, b := Level(c, schema, Object(v), levels).members, Level(c, schema, Object(w), levels).members;
    assert forall k :: 0 <= k < |v| && k != i ==> a[k] == b[k];
    assert a[i] == MemberShown(c, schema, v[i], levels) && b[i] == MemberShown(c, schema, w[i], levels);
    if Differ(a[i].value, b[i].value, rest, plain) {
      assert DifferInMember(a, b, i, name, rest, plain);
    } else {
      assert a == b;
    }
  }

  /** A member's value goes through its field and then through its schema. */
  lemma {:induction false} ValueFate(c: Context, fields: seq<Field>, child: Json, v: Member, w: Member, path: seq<Step>,
                                     plain: bool, levels: nat)
    requires v.name == w.name && Differ(v.value, w.value, path, plain)
    ensures Fate(ByChild(c, child, ByField(c, fields, v, levels), levels),
            ByChild(c, child, ByField(c, fields, w, levels), levels),
                 path, plain, FoundHides(c, fields, v.name, path, levels) || ChildHides(c, child, path, levels))
    decreases levels, 4
  {
    FieldFate(c, fields, v, w, path, plain, levels);
    var x, y := ByField(c, fields, v, levels), ByField(c, fields, w, levels);
    GoneIsHidden(x, y, path, plain, FoundHides(c, fields, v.name, path, levels));
    if x != y {
      ChildFate(c, child, x, y, path, plain, levels);
    }
  }

  lemma {:induction false} ItemFate(c: Context, schema: Json, v: seq<Json>, w: seq<Json>, path: seq<Step>,
    plain: bool, levels: nat)
    requires path != [] && path[0].Place? && DifferInItem(v, w, path[0].i, path[1..], plain)
    ensures Fate(Level(c, schema, Array(v), levels), Level(c, schema, Array(w), levels), path, plain,
                 StepHides(c, schema, path[0], path[1..], levels))
    decreases levels, 5
  {
    var i, rest := path[0].i, path[1..];
    ChildFate(c, SchemaOfItem(schema, i), v[i], w[i], rest, plain, levels);
    var a, b := Level(c, schema, Array(v), levels).items, Level(c, schema, Array(w), levels).items;
    assert forall k :: 0 <= k < |v| && k != i ==> a[k] == b[k];
    if !Differ(a[i], b[i], rest, plain) {
      assert a == b;
    }
  }

  lemma {:induction false} FieldFate(c: Context, fields: seq<Field>, v: Member, w: Member, path: seq<Step>,
    plain: bool, levels: nat)
    requires v.name == w.name && Differ(v.value, w.value, path, plain)
    ensures Fate(ByField(c, fields, v, levels), ByField(c, fields, w, levels), path, plain,
                 FoundHides(c, fields, v.name, path, levels))
    decreases levels, 3
  {
    match Find(fields, v.name)
    case None =>
    case Some(f) =>
      assert ByField(c, fields, v, levels) == FieldShown(c, f, v.value, levels);
      assert ByField(c, fields, w, levels) == FieldShown(c, f, w.value, levels);
      assert FoundHides(c, fields, v.name, path, levels) <==> FieldHides(c, f, path, levels);
      if !f.sensitive {
        ShownFate(c, f.schema, v.value, w.value, path, plain, levels);
      }
  }

  lemma {:induction false} ChildFate(c: Context, child: Json, v: Json, w: Json, path: seq<Step>, plain: bool,
    levels: nat)
    requires Differ(v, w, path, plain)
    ensures Fate(ByChild(c, child, v, levels), ByChild(c, child, w, levels), path, plain,
            ChildHides(c, child, path, levels))
    decreases levels, 3
  {
    if child != EMPTY {
      ShownFate(c, child, v, w, path, plain, levels);
    }
  }

  /** An input: the sensitive field of a group that the elements of an array refer to. */
  lemma NestedSecretInput(c: Context, schema: Json, i: nat)
    requires schema == Object([Member("type", Str("array")),
             Member("items", Object([Member("ref", Str("custom.Secrets"))]))])
    requires "custom.Secrets" in c.groups
    requires var token := Find(c.groups["custom.Secrets"], "token"); token.Some? && token.value.sensitive
    ensures Hidden(c, schema, [Place(i), Key("token")], Levels(0))
  {
    var element := Object([Member("ref", Str("custom.Secrets"))]);
    assert SchemaOfItem(schema, i) == element;
    assert Hidden(c, element, [Key("token")], Levels(0) - 1) by {
      assert StepHides(c, element, Key("token"), [], Levels(0) - 2);
    }
    assert StepHides(c, schema, Place(i), [Key("token")], Levels(0) - 1);
  }
}
