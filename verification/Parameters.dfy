/** The parameter catalog: its checks when it is built, its indexes, and the acceptance of values. */
module Parameters {
  import opened Common
  import opened JsonValues
  import opened SchemaSpec

  const LIMIT: nat := 32

  /** The levels of nesting left at a depth. */
  function Levels(depth: nat): nat { if depth > LIMIT then 0 else LIMIT + 1 - depth }

  /**
   * The depth bound only ever refuses: what is accepted at a depth conforms, and is accepted at any
   * smaller depth.
   */
  lemma AcceptanceIsMonotone(c: Context, schema: Json, value: Json, depth: nat, smaller: nat)
    requires Accepted(c, schema, value, Levels(depth)) && smaller <= depth
    ensures Conforms(c, schema, value) && Accepted(c, schema, value, Levels(smaller))
  {
    AcceptedConforms(c, schema, value, Levels(depth), Levels(smaller));
  }

  // ---- Indexes -----------------------------------------------------------------------------------

  /** Positions of the fields by name, and of the mandatory ones. */
  datatype Index = Index(fields: map<string, nat>, required: seq<nat>)

  ghost predicate DistinctNames(fields: seq<Field>) {
    forall i, j :: 0 <= i < j < |fields| ==> fields[i].name != fields[j].name
  }

  ghost predicate Indexed(fields: seq<Field>, index: Index) {
    && DistinctNames(fields)
    && (forall i :: 0 <= i < |fields| ==> fields[i].name in index.fields && index.fields[fields[i].name] == i)
    && (forall n :: n in index.fields ==> index.fields[n] < |fields| && fields[index.fields[n]].name == n)
    && (forall i: nat :: i in index.required <==> i < |fields| && Mandatory(fields[i]))
  }

  method BuildIndex(fields: seq<Field>) returns (index: Index)
    requires DistinctNames(fields)
    ensures Indexed(fields, index)
  {
    index := Index(map[], []);
    for i := 0 to |fields|
      invariant forall j :: 0 <= j < i ==> fields[j].name in index.fields && index.fields[fields[j].name] == j
      invariant forall n :: n in index.fields ==> index.fields[n] < i && fields[index.fields[n]].name == n
      invariant forall j: nat :: j in index.required <==> j < i && Mandatory(fields[j])
    {
      index := index.(fields := index.fields[fields[i].name := i]);
      if Mandatory(fields[i]) {
        index := index.(required := index.required + [i]);
      }
    }
  }

  /** Looking a member up in the index is searching the fields for it. */
  lemma IndexIsLinearSearch(fields: seq<Field>, index: Index, m: Member, sub: Judge)
    requires Indexed(fields, index)
    ensures FieldOk(fields, m, sub) <==>
            m.name in index.fields && !fields[index.fields[m.name]].readOnly
              && sub(fields[index.fields[m.name]].schema, m.value)
  {
  }

  /** The mandatory positions are those the linear rule asks for. */
  lemma RequiredIsMandatory(fields: seq<Field>, index: Index, members: seq<Member>)
    requires Indexed(fields, index)
    ensures forall k :: 0 <= k < |index.required| ==> index.required[k] < |fields|
    ensures MandatoryGiven(fields, members) <==>
            (forall k :: 0 <= k < |index.required| ==> HasName(members, fields[index.required[k]].name))
  {
    assert forall k :: 0 <= k < |index.required| ==> index.required[k] in index.required;
    forall i | 0 <= i < |fields| && Mandatory(fields[i])
      ensures exists k :: 0 <= k < |index.required| && index.required[k] == i
    {
      assert i in index.required;
    }
  }

  // ---- The check of a schema ---------------------------------------------------------------------

  const TYPES: set<string> :=
    {"boolean", "integer", "number", "string", "array", "object", "null", "opaque", "external"}

  const SIZES: set<string> := {"minItems", "maxItems", "minLength", "maxLength"}

  const BOUNDS: set<string> := SIZES + {"minimum", "maximum", "exclusiveMinimum", "exclusiveMaximum"}

  const KEYWORDS: set<string> := BOUNDS + {"type", "enum", "anyOf", "nullable", "ref", "items", "prefixItems",
                                           "additionalProperties", "properties", "required", "pattern"}

  predicate AllObjects(items: seq<Json>) { forall i :: 0 <= i < |items| ==> items[i].Object? }

  function Values(members: seq<Member>): seq<Json> { seq(|members|, i requires 0 <= i < |members| => members[i].value) }

  /** One keyword is used as it must be; the schemas inside it are judged on their own. */
  predicate KeywordOk(m: Member, groups: set<string>, compiles: string -> bool) {
    && m.name in KEYWORDS
    && (m.name == "type" ==> AsString(m.value) in TYPES)
    && (m.name == "ref" ==> m.value.Str? && m.value.s in groups)
    && (m.name == "nullable" ==> m.value.Bool?)
    && (m.name == "enum" ==> m.value.Array? && m.value.items != [])
    && (m.name == "anyOf" ==> m.value.Array? && m.value.items != [] && AllObjects(m.value.items))
    && (m.name == "prefixItems" ==> m.value.Array? && AllObjects(m.value.items))
    && (m.name == "items" ==> m.value.Object?)
    && (m.name == "additionalProperties" ==> m.value.Object? || m.value.Bool?)
    && (m.name == "properties" ==> m.value.Object? && AllObjects(Values(m.value.members)))
    && (m.name == "required" ==> m.value.Array? && forall i :: 0 <= i < |m.value.items| ==> m.value.items[i].Str?)
    && (m.name == "pattern" ==> m.value.Str? && compiles(m.value.s))
    && (m.name in BOUNDS ==> m.value.Number?)
    && (m.name in SIZES ==> m.value.n >= 0.0 && Integral(m.value.n))
  }

  /** The schemas inside a keyword. */
  function Children(m: Member): seq<Json> {
    if m.name == "anyOf" || m.name == "prefixItems" then AsArray(m.value)
    else if m.name == "items" || m.name == "additionalProperties" then if m.value.Object? then [m.value] else []
    else if m.name == "properties" && m.value.Object? then Values(m.value.members)
    else []
  }

  /** Every keyword at every level is as it must be, within so many levels. */
  ghost predicate Checks(schema: Json, groups: set<string>, compiles: string -> bool, levels: nat)
    decreases levels, 0
  {
    levels > 0 && forall i :: 0 <= i < |Members(schema)| ==>
      MemberChecks(Members(schema)[i], groups, compiles, levels - 1)
  }

  ghost predicate MemberChecks(m: Member, groups: set<string>, compiles: string -> bool, levels: nat)
    decreases levels, 2
  {
    KeywordOk(m, groups, compiles) && SchemasCheck(Children(m), |Children(m)|, groups, compiles, levels)
  }

  function Members(schema: Json): seq<Member> { if schema.Object? then schema.members else [] }

  /** Every pattern of the schema, at every level, has been compiled. */
  ghost predicate Compiled(schema: Json, patterns: set<string>)
    decreases Size(schema), 0
  {
    forall i :: 0 <= i < |Members(schema)| ==>
      (MemberIsSmaller(Members(schema), i); MemberCompiled(Members(schema)[i], patterns))
  }

  ghost predicate MemberCompiled(m: Member, patterns: set<string>)
    decreases Size(m.value), 1
  {
    && (m.name == "pattern" ==> AsString(m.value) in patterns)
    && forall k :: 0 <= k < |Children(m)| ==> (ChildIsNoLarger(m, k); Compiled(Children(m)[k], patterns))
  }

  lemma ChildIsNoLarger(m: Member, k: nat)
    requires k < |Children(m)|
    ensures Size(Children(m)[k]) <= Size(m.value)
  {
    if m.name == "anyOf" || m.name == "prefixItems" {
      ItemIsSmaller(m.value.items, k);
    } else if m.name == "properties" {
      MemberIsSmaller(m.value.members, k);
    }
  }

  lemma {:induction false} CompiledStays(schema: Json, patterns: set<string>, more: set<string>)
    requires Compiled(schema, patterns) && patterns <= more
    ensures Compiled(schema, more)
    decreases Size(schema), 0
  {
    forall i | 0 <= i < |Members(schema)| ensures MemberCompiled(Members(schema)[i], more) {
      MemberIsSmaller(Members(schema), i);
      MemberCompiledStays(Members(schema)[i], patterns, more);
    }
  }

  lemma {:induction false} MemberCompiledStays(m: Member, patterns: set<string>, more: set<string>)
    requires MemberCompiled(m, patterns) && patterns <= more
    ensures MemberCompiled(m, more)
    decreases Size(m.value), 1
  {
    forall k | 0 <= k < |Children(m)| ensures Compiled(Children(m)[k], more) {
      ChildIsNoLarger(m, k);
      CompiledStays(Children(m)[k], patterns, more);
    }
  }

  ghost predicate SchemasCheck(schemas: seq<Json>, n: nat, groups: set<string>, compiles: string -> bool, levels: nat)
    requires n <= |schemas|
    decreases levels, 1
  {
    forall k :: 0 <= k < n ==> Checks(schemas[k], groups, compiles, levels)
  }

  ghost predicate MembersCompiled(members: seq<Member>, n: nat, patterns: set<string>)
    requires n <= |members|
  {
    forall j :: 0 <= j < n ==> MemberCompiled(members[j], patterns)
  }

  ghost predicate SchemasCompiled(schemas: seq<Json>, n: nat, patterns: set<string>)
    requires n <= |schemas|
  {
    forall j :: 0 <= j < n ==> Compiled(schemas[j], patterns)
  }

  lemma MembersStay(members: seq<Member>, n: nat, patterns: set<string>, more: set<string>)
    requires n < |members| && MembersCompiled(members, n, patterns) && patterns <= more
    ensures MembersCompiled(members, n, more)
            && (MemberCompiled(members[n], more) ==> MembersCompiled(members, n + 1, more))
  {
    forall j | 0 <= j < n ensures MemberCompiled(members[j], more) {
      MemberCompiledStays(members[j], patterns, more);
    }
  }

  lemma SchemasStay(schemas: seq<Json>, n: nat, patterns: set<string>, more: set<string>)
    requires n < |schemas| && SchemasCompiled(schemas, n, patterns) && patterns <= more
    ensures SchemasCompiled(schemas, n, more) && (Compiled(schemas[n], more) ==> SchemasCompiled(schemas, n + 1, more))
  {
    forall j | 0 <= j < n ensures Compiled(schemas[j], more) {
      CompiledStays(schemas[j], patterns, more);
    }
  }

  lemma MemberIsCompiled(m: Member, patterns: set<string>)
    requires m.name == "pattern" ==> AsString(m.value) in patterns
    requires SchemasCompiled(Children(m), |Children(m)|, patterns)
    ensures MemberCompiled(m, patterns)
  {
  }

  lemma ChildrenAreObjects(m: Member, groups: set<string>, compiles: string -> bool)
    requires KeywordOk(m, groups, compiles)
    ensures AllObjects(Children(m))
  {
  }

  lemma WholeCompiled(schema: Json, patterns: set<string>)
    requires MembersCompiled(Members(schema), |Members(schema)|, patterns)
    ensures Compiled(schema, patterns)
  {
  }

  /** The schema under a keyword is compiled with the whole. */
  lemma KeywordCompiled(schema: Json, name: string, patterns: set<string>)
    requires Compiled(schema, patterns)
    ensures Has(schema, name) ==> MemberCompiled(Member(name, Value(schema, name)), patterns)
  {
    if Has(schema, name) {
      LookupFinds(schema.members, name);
      var i :| 0 <= i < |schema.members| && schema.members[i] == Member(name, Lookup(schema.members, name));
      assert MemberCompiled(Members(schema)[i], patterns);
    }
  }

  lemma ChildCompiled(m: Member, k: nat, patterns: set<string>)
    requires MemberCompiled(m, patterns) && k < |Children(m)|
    ensures Compiled(Children(m)[k], patterns) && Compiled(AsObject(Children(m)[k]), patterns)
  {
  }

  ghost predicate AllCompiled(schemas: seq<Json>, patterns: set<string>) {
    forall i :: 0 <= i < |schemas| ==> Compiled(AsObject(schemas[i]), patterns)
  }

  lemma BranchesCompiled(schema: Json, patterns: set<string>)
    requires Compiled(schema, patterns) && Has(schema, "anyOf")
    ensures AllCompiled(AsArray(Value(schema, "anyOf")), patterns)
  {
    KeywordCompiled(schema, "anyOf", patterns);
    forall i | 0 <= i < |AsArray(Value(schema, "anyOf"))|
      ensures Compiled(AsObject(AsArray(Value(schema, "anyOf"))[i]), patterns) {
      ChildCompiled(Member("anyOf", Value(schema, "anyOf")), i, patterns);
    }
  }

  lemma PropertyCompiled(schema: Json, name: string, patterns: set<string>)
    requires Compiled(schema, patterns) && Has(AsObject(Value(schema, "properties")), name)
    ensures Compiled(AsObject(Value(AsObject(Value(schema, "properties")), name)), patterns)
  {
    var properties := Value(schema, "properties");
    LookupHas(schema, "properties");
    KeywordCompiled(schema, "properties", patterns);
    LookupFinds(properties.members, name);
    var i :| 0 <= i < |properties.members| && properties.members[i] == Member(name, Lookup(properties.members, name));
    ChildCompiled(Member("properties", properties), i, patterns);
  }

  ghost predicate FieldsCompiled(fields: seq<Field>, patterns: set<string>) {
    forall i :: 0 <= i < |fields| ==> Compiled(fields[i].schema, patterns)
  }

  lemma FieldsStay(fields: seq<Field>, patterns: set<string>, more: set<string>)
    requires FieldsCompiled(fields, patterns) && patterns <= more
    ensures FieldsCompiled(fields, more)
  {
    forall i | 0 <= i < |fields| ensures Compiled(fields[i].schema, more) {
      CompiledStays(fields[i].schema, patterns, more);
    }
  }

  /** A group as the document gives it; `regular` says that its other properties are as they must be. */
  datatype GroupDocument = GroupDocument(id: string, regular: bool, fields: seq<Field>)

  /** Fields have distinct, nonempty names and schema objects. */
  predicate FieldsRegular(fields: seq<Field>) {
    && (forall i :: 0 <= i < |fields| ==> fields[i].name != "" && fields[i].schema.Object?)
    && (forall i, j :: 0 <= i < j < |fields| ==> fields[i].name != fields[j].name)
  }

  /** The catalog holds the groups of the document, each once. */
  ghost predicate Documented(document: seq<GroupDocument>, groups: map<string, seq<Field>>) {
    && (forall d :: 0 <= d < |document| ==> document[d].id in groups && groups[document[d].id] == document[d].fields
                                            && FieldsRegular(document[d].fields))
    && (forall g :: g in groups ==> exists d :: 0 <= d < |document| && document[d].id == g)
  }

  predicate GroupRegular(group: GroupDocument) { group.regular && group.id != "" && FieldsRegular(group.fields) }

  /** The first n groups are regular and have distinct ids. */
  ghost predicate GroupsRegular(document: seq<GroupDocument>, n: nat)
    requires n <= |document|
  {
    && (forall d :: 0 <= d < n ==> GroupRegular(document[d]))
    && (forall d, e :: 0 <= d < e < n ==> document[d].id != document[e].id)
  }

  function IdsOf(document: seq<GroupDocument>): set<string> { set g | g in document :: g.id }

  ghost predicate FieldsCheck(fields: seq<Field>, ids: set<string>, compiles: string -> bool) {
    forall i :: 0 <= i < |fields| ==> Checks(fields[i].schema, ids, compiles, Levels(0))
  }

  /** A catalog document: regular groups with distinct ids, all of whose schemas check against those ids. */
  ghost predicate DocumentOk(document: seq<GroupDocument>, compiles: string -> bool) {
    GroupsRegular(document, |document|) && SchemasOk(document, compiles)
  }

  ghost predicate SchemasOk(document: seq<GroupDocument>, compiles: string -> bool) {
    forall d :: 0 <= d < |document| ==> FieldsCheck(document[d].fields, IdsOf(document), compiles)
  }

  ghost predicate GroupsCheck(groups: map<string, seq<Field>>, compiles: string -> bool) {
    forall g {:trigger FieldsCheck(groups[g], groups.Keys, compiles)} :: g in groups ==>
      FieldsCheck(groups[g], groups.Keys, compiles)
  }

  lemma DocumentedChecks(document: seq<GroupDocument>, groups: map<string, seq<Field>>, compiles: string -> bool)
    requires Documented(document, groups)
    ensures groups.Keys == IdsOf(document)
    ensures GroupsCheck(groups, compiles) <==> SchemasOk(document, compiles)
  {
    forall g ensures g in groups <==> g in IdsOf(document) {
      if g in groups {
        var d :| 0 <= d < |document| && document[d].id == g;
        assert document[d] in document;
      }
    }
    assert groups.Keys == IdsOf(document);
    if SchemasOk(document, compiles) {
      forall g | g in groups ensures FieldsCheck(groups[g], groups.Keys, compiles) {
        var d :| 0 <= d < |document| && document[d].id == g;
        assert FieldsCheck(document[d].fields, IdsOf(document), compiles);
      }
    } else {
      var d :| 0 <= d < |document| && !FieldsCheck(document[d].fields, IdsOf(document), compiles);
      assert !FieldsCheck(groups[document[d].id], groups.Keys, compiles);
    }
  }

  ghost predicate AllIndexedIn(groups: map<string, seq<Field>>, indexes: map<string, Index>) {
    && groups.Keys == indexes.Keys
    && forall g {:trigger Indexed(groups[g], indexes[g])} :: g in groups ==>
         g in indexes && Indexed(groups[g], indexes[g]) && FieldsRegular(groups[g])
  }

  lemma RegularNext(document: seq<GroupDocument>, d: nat, groups: map<string, seq<Field>>)
    requires d < |document| && GroupsRegular(document, d) && Documented(document[..d], groups)
    ensures GroupsRegular(document, d + 1) <==> GroupRegular(document[d]) && document[d].id !in groups
    ensures GroupsRegular(document, |document|) ==> GroupsRegular(document, d + 1)
  {
    assert forall k :: 0 <= k < d ==> document[..d][k] == document[k];
    if document[d].id in groups {
      var k :| 0 <= k < d && document[..d][k].id == document[d].id;
      assert document[k].id == document[d].id;
    }
  }

  lemma DocumentedNext(document: seq<GroupDocument>, d: nat, groups: map<string, seq<Field>>)
    requires d < |document| && Documented(document[..d], groups)
    ensures document[d].id !in groups && FieldsRegular(document[d].fields) ==>
              Documented(document[..d + 1], groups[document[d].id := document[d].fields])
  {
    var more := document[..d + 1];
    assert more == document[..d] + [document[d]];
    var now := groups[document[d].id := document[d].fields];
    forall g | g in now ensures exists k :: 0 <= k < |more| && more[k].id == g {
      if g == document[d].id {
        assert more[d].id == g;
      } else {
        var k :| 0 <= k < d && document[..d][k].id == g;
        assert more[k].id == g;
      }
    }
  }

  function OneBound(name: string): Json { Object([Member(name, Number(2147483648.0))]) }

  /**
   * Inputs: a schema that asks for 2^31 elements passes the check and takes the empty array, and one
   * that allows 2^31 characters passes it and refuses one character.
   */
  lemma LargeSizeBoundsInput(c: Context, compiles: string -> bool)
    ensures Checks(OneBound("minItems"), c.groups.Keys, compiles, Levels(0))
            && Accepted(c, OneBound("minItems"), Array([]), Levels(0))
    ensures Checks(OneBound("maxLength"), c.groups.Keys, compiles, Levels(0))
            && !Accepted(c, OneBound("maxLength"), Str("a"), Levels(0))
  {
    BoundChecks("minItems", c.groups.Keys, compiles);
    BoundChecks("maxLength", c.groups.Keys, compiles);
    var most := OneBound("maxLength");
    assert HasName(most.members, "maxLength") by {
      assert most.members[0].name == "maxLength";
    }
    assert !StringOk(c, most, Str("a"));
  }

  lemma BoundChecks(name: string, groups: set<string>, compiles: string -> bool)
    requires name in SIZES
    ensures Checks(OneBound(name), groups, compiles, Levels(0))
  {
    var m := Member(name, Number(2147483648.0));
    assert Integral(2147483648.0);
    assert KeywordOk(m, groups, compiles);
    assert SchemasCheck(Children(m), |Children(m)|, groups, compiles, Levels(0) - 1);
    assert MemberChecks(m, groups, compiles, Levels(0) - 1);
    assert Members(OneBound(name)) == [m];
  }

  // ---- The catalog -------------------------------------------------------------------------------

  class Catalog {
    const compiles: string -> bool
    const matches: (string, string) -> bool
    var groups: map<string, seq<Field>>
    var indexes: map<string, Index>
    var patterns: set<string>

    function Ctx(): Context
      reads this
    {
      Context(groups, matches)
    }

    constructor (compiles: string -> bool, matches: (string, string) -> bool)
      ensures groups == map[] && indexes == map[] && patterns == {} && this.compiles == compiles
              && this.matches == matches
    {
      this.compiles, this.matches := compiles, matches;
      groups, indexes, patterns := map[], map[], {};
    }

    /** Checks a schema and compiles its patterns. */
    method CheckSchema(schema: Json, depth: nat) returns (r: Result<()>)
      requires schema.Object?
      modifies this`patterns
      ensures r == if Checks(schema, groups.Keys, compiles, Levels(depth)) then Ok(()) else Err(InvalidArgument)
      ensures old(patterns) <= patterns && (r.Ok? ==> Compiled(schema, patterns))
      decreases Levels(depth), 0
    {
      if depth > LIMIT {
        return Err(InvalidArgument);
      }
      var members := schema.members;
      for i := 0 to |members|
        invariant old(patterns) <= patterns
        invariant forall j :: 0 <= j < i ==> MemberChecks(members[j], groups.Keys, compiles, Levels(depth + 1))
        invariant MembersCompiled(members, i, patterns)
      {
        ghost var before := patterns;
        r := CheckMember(members[i], depth);
        if r.Err? {
          assert !MemberChecks(Members(schema)[i], groups.Keys, compiles, Levels(depth) - 1);
          return;
        }
        MembersStay(members, i, before, patterns);
      }
      WholeCompiled(schema, patterns);
      return Ok(());
    }

    /** One keyword, and the schemas inside it one level deeper. */
    method CheckMember(m: Member, depth: nat) returns (r: Result<()>)
      requires depth <= LIMIT
      modifies this`patterns
      ensures r == if MemberChecks(m, groups.Keys, compiles, Levels(depth + 1)) then Ok(()) else Err(InvalidArgument)
      ensures old(patterns) <= patterns && (r.Ok? ==> MemberCompiled(m, patterns))
      decreases Levels(depth + 1), 3
    {
      if !KeywordOk(m, groups.Keys, compiles) {
        return Err(InvalidArgument);
      }
      if m.name == "pattern" {
        patterns := patterns + {m.value.s};
      }
      ChildrenAreObjects(m, groups.Keys, compiles);
      r := CheckChildren(Children(m), depth);
      if r.Ok? {
        MemberIsCompiled(m, patterns);
      }
    }

    method CheckChildren(children: seq<Json>, depth: nat) returns (r: Result<()>)
      requires depth <= LIMIT && AllObjects(children)
      modifies this`patterns
      ensures r == if SchemasCheck(children, |children|, groups.Keys, compiles, Levels(depth + 1)) then Ok(())
              else Err(InvalidArgument)
      ensures old(patterns) <= patterns && (r.Ok? ==> SchemasCompiled(children, |children|, patterns))
      decreases Levels(depth + 1), 2
    {
      for k := 0 to |children|
        invariant old(patterns) <= patterns && SchemasCompiled(children, k, patterns)
        invariant SchemasCheck(children, k, groups.Keys, compiles, Levels(depth + 1))
      {
        r := CheckChild(children, k, depth);
        if r.Err? {
          return;
        }
      }
      return Ok(());
    }

    method CheckChild(children: seq<Json>, k: nat, depth: nat) returns (r: Result<()>)
      requires depth <= LIMIT && k < |children| && children[k].Object?
      requires SchemasCompiled(children, k, patterns)
               && SchemasCheck(children, k, groups.Keys, compiles, Levels(depth + 1))
      modifies this`patterns
      ensures r.Ok? ==>
                SchemasCompiled(children, k + 1, patterns) &&
                SchemasCheck(children, k + 1, groups.Keys, compiles, Levels(depth + 1))
      ensures r.Err? ==>
                r.code == InvalidArgument && !SchemasCheck(children, |children|, groups.Keys, compiles,
                  Levels(depth + 1))
      ensures old(patterns) <= patterns
      decreases Levels(depth + 1), 1
    {
      ghost var before := patterns;
      r := CheckSchema(children[k], depth + 1);
      if r.Ok? {
        SchemasStay(children, k, before, patterns);
      } else {
        assert !Checks(children[k], groups.Keys, compiles, Levels(depth + 1));
      }
    }

    /** Every group has its index, and every schema of the catalog its patterns. */
    ghost predicate Ready()
      reads this
    {
      forall g {:trigger GroupReady(g)} :: g in groups ==> GroupReady(g)
    }

    ghost predicate GroupReady(g: string)
      requires g in groups
      reads this
    {
      g in indexes && Indexed(groups[g], indexes[g]) && FieldsCompiled(groups[g], patterns)
    }

    /** Whether a value is accepted, in the order of the checks, through the indexes and the compiled patterns. */
    method Accepts(schema: Json, value: Json, depth: nat) returns (ok: bool)
      requires Ready() && Compiled(schema, patterns)
      ensures ok <==> Accepted(Ctx(), schema, value, Levels(depth))
      decreases Levels(depth), 2
    {
      if depth > LIMIT || value.Undefined? {
        return false;
      }
      if value.Null? && AsBool(Value(schema, "nullable")) {
        return true;
      }
      ok := AcceptsAny(schema, value, depth);
      if !ok || !EnumOk(schema, value) {
        return false;
      }
      var kind := AsString(Value(schema, "type"));
      if kind == "external" {
        return false;
      }
      if kind == "null" {
        return value.Null?;
      }
      if !TypeOk(kind, value) || !BoundsOk(schema, value) {
        return false;
      }
      ok := AcceptsItems(schema, value, depth);
      if !ok {
        return false;
      }
      ok := AcceptsMembers(schema, value, depth);
      if !ok {
        return false;
      }
      ok := AcceptsReference(schema, value, depth);
      if !ok {
        return false;
      }
      ok := AcceptsString(schema, value);
    }

    method AcceptsAny(schema: Json, value: Json, depth: nat) returns (ok: bool)
      requires Ready() && Compiled(schema, patterns) && depth <= LIMIT
      ensures ok <==> AnyOfOk(schema, value, JudgeAt(Ctx(), Levels(depth) - 1))
      decreases Levels(depth), 1
    {
      if !Has(schema, "anyOf") {
        return true;
      }
      BranchesCompiled(schema, patterns);
      ok := AcceptsSome(AsArray(Value(schema, "anyOf")), value, depth);
    }

    method AcceptsSome(branches: seq<Json>, value: Json, depth: nat) returns (ok: bool)
      requires Ready() && depth <= LIMIT && AllCompiled(branches, patterns)
      ensures ok <==> exists i :: 0 <= i < |branches| && JudgeAt(Ctx(), Levels(depth) - 1)(AsObject(branches[i]), value)
      decreases Levels(depth), 0
    {
      for i := 0 to |branches|
        invariant forall j :: 0 <= j < i ==> !JudgeAt(Ctx(), Levels(depth) - 1)(AsObject(branches[j]), value)
      {
        ok := Accepts(AsObject(branches[i]), value, depth + 1);
        if ok {
          return true;
        }
      }
      return false;
    }

    method AcceptsItems(schema: Json, value: Json, depth: nat) returns (ok: bool)
      requires Ready() && Compiled(schema, patterns) && depth <= LIMIT
      ensures ok <==> ItemsOk(schema, value, JudgeAt(Ctx(), Levels(depth) - 1))
      decreases Levels(depth), 1
    {
      if !value.Array? {
        return true;
      }
      if !SizeOk(schema, "minItems", "maxItems", |value.items|) {
        return false;
      }
      ok := AcceptsEach(schema, value.items, depth);
      if ok {
        ok := AcceptsPrefix(schema, value.items, depth);
      }
    }

    method AcceptsEach(schema: Json, items: seq<Json>, depth: nat) returns (ok: bool)
      requires Ready() && Compiled(schema, patterns) && depth <= LIMIT
      ensures ok <==> (Value(schema, "items").Object? ==>
                         forall i :: 0 <= i < |items| ==>
                           JudgeAt(Ctx(), Levels(depth) - 1)(Value(schema, "items"), items[i]))
      decreases Levels(depth), 0
    {
      var each := Value(schema, "items");
      if !each.Object? {
        return true;
      }
      LookupHas(schema, "items");
      KeywordCompiled(schema, "items", patterns);
      ChildCompiled(Member("items", each), 0, patterns);
      for i := 0 to |items|
        invariant forall j :: 0 <= j < i ==> JudgeAt(Ctx(), Levels(depth) - 1)(each, items[j])
      {
        ok := Accepts(each, items[i], depth + 1);
        if !ok {
          return false;
        }
      }
      return true;
    }

    method AcceptsPrefix(schema: Json, items: seq<Json>, depth: nat) returns (ok: bool)
      requires Ready() && Compiled(schema, patterns) && depth <= LIMIT
      ensures ok <==> PrefixOk(Value(schema, "prefixItems"), items, JudgeAt(Ctx(), Levels(depth) - 1))
      decreases Levels(depth), 0
    {
      var prefix := Value(schema, "prefixItems");
      if !prefix.Array? {
        return true;
      }
      if |prefix.items| != |items| {
        return false;
      }
      LookupHas(schema, "prefixItems");
      KeywordCompiled(schema, "prefixItems", patterns);
      for i := 0 to |items|
        invariant forall j :: 0 <= j < i ==> JudgeAt(Ctx(), Levels(depth) - 1)(AsObject(prefix.items[j]), items[j])
      {
        ChildCompiled(Member("prefixItems", prefix), i, patterns);
        ok := Accepts(AsObject(prefix.items[i]), items[i], depth + 1);
        if !ok {
          return false;
        }
      }
      return true;
    }

    method AcceptsMembers(schema: Json, value: Json, depth: nat) returns (ok: bool)
      requires Ready() && Compiled(schema, patterns) && depth <= LIMIT
      ensures ok <==> RequiredOk(schema, value) && PropertiesOk(schema, value, JudgeAt(Ctx(), Levels(depth) - 1))
      decreases Levels(depth), 1
    {
      if !RequiredOk(schema, value) {
        return false;
      }
      if !value.Object? {
        return true;
      }
      for i := 0 to |value.members|
        invariant forall j :: 0 <= j < i ==> MemberOk(schema, value.members[j], JudgeAt(Ctx(), Levels(depth) - 1))
      {
        ok := AcceptsMember(schema, value.members[i], depth);
        if !ok {
          return false;
        }
      }
      return true;
    }

    method AcceptsMember(schema: Json, m: Member, depth: nat) returns (ok: bool)
      requires Ready() && Compiled(schema, patterns) && depth <= LIMIT
      ensures ok <==> MemberOk(schema, m, JudgeAt(Ctx(), Levels(depth) - 1))
      decreases Levels(depth), 0
    {
      var properties := AsObject(Value(schema, "properties"));
      if Has(properties, m.name) {
        PropertyCompiled(schema, m.name, patterns);
        ok := Accepts(AsObject(Value(properties, m.name)), m.value, depth + 1);
        return;
      }
      var others := Value(schema, "additionalProperties");
      if others.Object? {
        LookupHas(schema, "additionalProperties");
        KeywordCompiled(schema, "additionalProperties", patterns);
        ChildCompiled(Member("additionalProperties", others), 0, patterns);
        ok := Accepts(others, m.value, depth + 1);
        return;
      }
      return others != Bool(false);
    }

    /** The members of a referenced group, through its index. */
    method AcceptsReference(schema: Json, value: Json, depth: nat) returns (ok: bool)
      requires Ready() && Compiled(schema, patterns) && depth <= LIMIT
      ensures ok <==> ReferenceOk(Ctx(), schema, value, JudgeAt(Ctx(), Levels(depth) - 1))
      decreases Levels(depth), 0
    {
      if Has(schema, "ref") && !value.Object? {
        return false;
      }
      var g := AsString(Value(schema, "ref"));
      if !value.Object? || g !in groups {
        return true;
      }
      assert GroupReady(g);
      var fields, index := groups[g], indexes[g];
      RequiredIsMandatory(fields, index, value.members);
      if !forall k :: 0 <= k < |index.required| ==> HasName(value.members, fields[index.required[k]].name) {
        return false;
      }
      for i := 0 to |value.members|
        invariant forall j :: 0 <= j < i ==> FieldOk(fields, value.members[j], JudgeAt(Ctx(), Levels(depth) - 1))
      {
        var m := value.members[i];
        IndexIsLinearSearch(fields, index, m, JudgeAt(Ctx(), Levels(depth) - 1));
        if m.name !in index.fields || fields[index.fields[m.name]].readOnly {
          return false;
        }
        ok := Accepts(fields[index.fields[m.name]].schema, m.value, depth + 1);
        if !ok {
          return false;
        }
      }
      return true;
    }

    /** A string's length and pattern; the pattern is one that was compiled. */
    method AcceptsString(schema: Json, value: Json) returns (ok: bool)
      requires Compiled(schema, patterns)
      ensures ok <==> StringOk(Ctx(), schema, value)
    {
      if !value.Str? {
        return true;
      }
      if !SizeOk(schema, "minLength", "maxLength", |value.s|) {
        return false;
      }
      if !Has(schema, "pattern") {
        return true;
      }
      KeywordCompiled(schema, "pattern", patterns);
      ok := Match(AsString(Value(schema, "pattern")), value.s);
    }

    /** Matching a compiled pattern. */
    method Match(pattern: string, text: string) returns (ok: bool)
      requires pattern in patterns
      ensures ok <==> matches(pattern, text)
    {
      return matches(pattern, text);
    }

    /**
     * Fills an empty catalog from a document. Once that succeeds, every group has its index and every
     * schema its compiled patterns, so that acceptance never looks up one that is missing.
     */
    method FromJson(document: seq<GroupDocument>) returns (r: Result<()>)
      requires groups == map[] && indexes == map[] && patterns == {}
      modifies this
      ensures r == if DocumentOk(document, compiles) then Ok(()) else Err(InvalidArgument)
      ensures r.Ok? ==> Ready() && Documented(document, groups)
    {
      var added := AddGroups(document);
      if !added {
        return Err(InvalidArgument);
      }
      DocumentedChecks(document, groups, compiles);
      r := CheckGroups();
    }

    /** Adds and indexes group after group. */
    method AddGroups(document: seq<GroupDocument>) returns (added: bool)
      requires groups == map[] && indexes == map[]
      modifies this`groups, this`indexes
      ensures added <==> GroupsRegular(document, |document|)
      ensures AllIndexed() && (added ==> Documented(document, groups))
    {
      for d := 0 to |document|
        invariant Documented(document[..d], groups) && AllIndexed() && GroupsRegular(document, d)
      {
        DocumentedNext(document, d, groups);
        RegularNext(document, d, groups);
        added := AddGroup(document[d]);
        if !added {
          return;
        }
      }
      assert document[..|document|] == document;
      return true;
    }

    ghost predicate AllIndexed()
      reads this
    {
      AllIndexedIn(groups, indexes)
    }

    method AddGroup(group: GroupDocument) returns (added: bool)
      requires AllIndexed()
      modifies this`groups, this`indexes
      ensures AllIndexed()
      ensures added <==> group.regular && group.id != "" && group.id !in old(groups) && FieldsRegular(group.fields)
      ensures groups == if added then old(groups)[group.id := group.fields] else old(groups)
    {
      if !group.regular || group.id == "" || group.id in groups || !FieldsRegular(group.fields) {
        return false;
      }
      ghost var before, beforeIndexes := groups, indexes;
      var index := BuildIndex(group.fields);
      groups := groups[group.id := group.fields];
      indexes := indexes[group.id := index];
      forall g | g in groups ensures Indexed(groups[g], indexes[g]) && FieldsRegular(groups[g]) {
        assert g != group.id ==> Indexed(before[g], beforeIndexes[g]);
      }
      return true;
    }

    ghost predicate GroupChecks(g: string)
      requires g in groups
      reads this
    {
      FieldsCheck(groups[g], groups.Keys, compiles)
    }

    ghost predicate GroupDone(g: string)
      requires g in groups
      reads this
    {
      FieldsCompiled(groups[g], patterns) && GroupChecks(g)
    }

    ghost predicate DoneBut(left: set<string>)
      reads this
    {
      forall g {:trigger GroupDone(g)} :: g in groups && g !in left ==> GroupDone(g)
    }

    /** The schemas of every group; references may name groups that come later. */
    method CheckGroups() returns (r: Result<()>)
      requires AllIndexed()
      modifies this`patterns
      ensures r == if GroupsCheck(groups, compiles) then Ok(()) else Err(InvalidArgument)
      ensures r.Ok? ==> Ready()
    {
      var left := groups.Keys;
      while left != {}
        invariant left <= groups.Keys && AllIndexed() && DoneBut(left)
      {
        var g :| g in left;
        assert Indexed(groups[g], indexes[g]);
        r := CheckGroup(g, left);
        if r.Err? {
          assert !GroupsCheck(groups, compiles);
          return;
        }
        left := left - {g};
      }
      assert left == {};
      AllDone();
      return Ok(());
    }

    lemma AllDone()
      requires AllIndexed() && DoneBut({})
      ensures Ready() && GroupsCheck(groups, compiles)
    {
      forall g | g in groups ensures GroupReady(g) && GroupChecks(g) {
        assert Indexed(groups[g], indexes[g]) && GroupDone(g);
      }
    }

    method CheckGroup(g: string, ghost left: set<string>) returns (r: Result<()>)
      requires g in groups && FieldsRegular(groups[g]) && DoneBut(left)
      modifies this`patterns
      ensures r.Ok? ==> DoneBut(left - {g})
      ensures r.Err? ==> r.code == InvalidArgument && !FieldsCheck(groups[g], groups.Keys, compiles)
    {
      ghost var before, fields := patterns, groups;
      assert forall h {:trigger FieldsCompiled(fields[h], before)} :: h in fields && h !in left ==>
          FieldsCompiled(fields[h], before) && GroupChecks(h) by {
        assert forall h :: h in groups && h !in left ==> GroupDone(h);
      }
      r := CheckFields(groups[g]);
      if r.Ok? {
        forall h | h in groups && h !in left - {g} ensures GroupDone(h) {
          if h != g {
            FieldsStay(groups[h], before, patterns);
          }
        }
      }
    }

    method CheckFields(fields: seq<Field>) returns (r: Result<()>)
      requires FieldsRegular(fields)
      modifies this`patterns
      ensures old(patterns) <= patterns && (r.Ok? ==> FieldsCompiled(fields, patterns))
      ensures r == if FieldsCheck(fields, groups.Keys, compiles) then Ok(()) else Err(InvalidArgument)
    {
      for i := 0 to |fields|
        invariant old(patterns) <= patterns && FieldsCompiled(fields[..i], patterns)
        invariant forall j :: 0 <= j < i ==> Checks(fields[j].schema, groups.Keys, compiles, Levels(0))
      {
        ghost var before := patterns;
        r := CheckSchema(fields[i].schema, 0);
        if r.Err? {
          return;
        }
        FieldsStay(fields[..i], before, patterns);
        assert fields[..i + 1] == fields[..i] + [fields[i]];
      }
      assert fields[..|fields|] == fields;
      return Ok(());
    }
  }
}
