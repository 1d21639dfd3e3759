/** Typed parameter objects and control documents: what can be stored is valid, and survives a round trip. */
module ParameterObjects {
  import opened Common
  import opened JsonValues
  import opened SchemaSpec
  import opened Parameters
  import opened Redaction

  type Values = map<string, Json>

  /** A writable field of the group takes the value. */
  ghost predicate Allowed(c: Context, group: string, name: string, value: Json) {
    group in c.groups && FieldOk(c.groups[group], Member(name, value), JudgeAt(c, Levels(0)))
  }

  ghost predicate AllAllowed(c: Context, group: string, values: Values) {
    forall n {:trigger Allowed(c, group, n, values[n])} :: n in values ==> Allowed(c, group, n, values[n])
  }

  predicate StartsWith(text: string, head: string) { head <= text }

  predicate IsSet(values: Values, flag: string) { flag in values && AsBool(values[flag]) }

  /** Two flags of trainer groups exclude each other. */
  predicate Clash(group: string, values: Values) {
    Trains(group) && IsSet(values, "fp16") && IsSet(values, "bf16")
  }

  predicate Trains(group: string) { StartsWith(group, "transformers.") || StartsWith(group, "trl.") }

  /** What may be stored for a group as a whole. */
  ghost predicate Storable(c: Context, group: string, values: Values) {
    group in c.groups && AllAllowed(c, group, values) && !Clash(group, values)
  }

  function Issues(ok: bool): nat { if ok then 0 else 1 }

  predicate Named(fields: seq<Field>, name: string) { exists i :: 0 <= i < |fields| && fields[i].name == name }

  class ParameterObject {
    const catalog: Catalog
    const group: string
    var values: Values

    ghost predicate Valid()
      reads this, catalog
    {
      catalog.Ready() && group in catalog.groups && AllAllowed(catalog.Ctx(), group, values)
    }

    constructor (catalog: Catalog, group: string)
      requires catalog.Ready() && group in catalog.groups
      ensures Valid() && this.catalog == catalog && this.group == group && values == map[]
    {
      this.catalog, this.group := catalog, group;
      values := map[];
    }

    /** Stores a value exactly when a writable field takes it. */
    method Set(name: string, value: Json) returns (r: Result<()>)
      requires Valid()
      modifies this
      ensures Valid()
      ensures r == if Allowed(catalog.Ctx(), group, name, value) then Ok(()) else Err(InvalidArgument)
      ensures values == if r.Ok? then old(values)[name := value] else old(values)
    {
      var ok := Judge(name, value);
      if !ok {
        return Err(InvalidArgument);
      }
      ghost var before := values;
      values := values[name := value];
      forall n | n in values ensures Allowed(catalog.Ctx(), group, n, values[n]) {
        assert n != name ==> Allowed(catalog.Ctx(), group, n, before[n]);
      }
      return Ok(());
    }

    /** validateValue: the field is looked up in the index, must be writable and accept the value. */
    method Judge(name: string, value: Json) returns (ok: bool)
      requires Valid()
      ensures ok <==> Allowed(catalog.Ctx(), group, name, value)
    {
      assert catalog.GroupReady(group);
      var fields, index := catalog.groups[group], catalog.indexes[group];
      IndexIsLinearSearch(fields, index, Member(name, value), JudgeAt(catalog.Ctx(), Levels(0)));
      if name !in index.fields || fields[index.fields[name]].readOnly {
        return false;
      }
      ok := catalog.Accepts(fields[index.fields[name]].schema, value, 0);
    }

    method Unset(name: string) returns (r: Result<()>)
      requires Valid()
      modifies this
      ensures Valid()
      ensures r == if Named(catalog.groups[group], name) then Ok(()) else Err(InvalidArgument)
      ensures values == if r.Ok? then old(values) - {name} else old(values)
    {
      if !Named(catalog.groups[group], name) {
        return Err(InvalidArgument);
      }
      ghost var before := values;
      values := values - {name};
      forall n | n in values ensures Allowed(catalog.Ctx(), group, n, values[n]) {
        assert Allowed(catalog.Ctx(), group, n, before[n]);
      }
      return Ok(());
    }

    /** What is stored is valid but for the flags that exclude each other, and, if asked for, unset mandatory fields. */
    method Validate(required: bool) returns (issues: nat)
      requires Valid()
      ensures issues == 0 <==> !Clash(group, values) && (required ==> Complete())
    {
      issues := 0;
      var fields := catalog.groups[group];
      for i := 0 to |fields|
        invariant issues == 0 <==> required ==> forall j :: 0 <= j < i ==> Present(fields[j], values)
      {
        if fields[i].name in values {
          assert Allowed(catalog.Ctx(), group, fields[i].name, values[fields[i].name]);
          var ok := Judge(fields[i].name, values[fields[i].name]);
          issues := issues + Issues(ok);
        } else if required && fields[i].required && !fields[i].hasDefault {
          assert !Present(fields[i], values);
          issues := issues + 1;
        }
      }
      if Clash(group, values) {
        issues := issues + 1;
      }
    }

    ghost predicate Complete()
      requires group in catalog.groups
      reads this, catalog
    {
      AllPresent(catalog.groups[group], values)
    }

    /**
     * What is asked for on request is what a reference to the group asks for, and besides that no
     * field is required, read-only and without a default: such a field can never be set.
     */
    lemma CompleteExactly(members: seq<Member>)
      requires Valid() && forall n :: HasName(members, n) <==> n in values
      ensures var fields := catalog.groups[group];
              Complete() <==> MandatoryGiven(fields, members) && forall i :: 0 <= i < |fields| ==> !Locked(fields[i])
    {
      var fields := catalog.groups[group];
      forall i | 0 <= i < |fields| ensures fields[i].readOnly ==> fields[i].name !in values {
        if fields[i].readOnly {
          ReadOnlyIsUnset(i);
        }
      }
      forall i | 0 <= i < |fields| ensures Present(fields[i], values) <==>
        (Mandatory(fields[i]) ==> HasName(members, fields[i].name)) && !Locked(fields[i])
      {
      }
      if MandatoryGiven(fields, members) && forall i :: 0 <= i < |fields| ==> !Locked(fields[i]) {
        forall i | 0 <= i < |fields| ensures Present(fields[i], values) {
          assert !Locked(fields[i]);
        }
      }
    }

    lemma ReadOnlyIsUnset(i: nat)
      requires Valid() && i < |catalog.groups[group]| && catalog.groups[group][i].readOnly
      ensures catalog.groups[group][i].name !in values
    {
      var fields := catalog.groups[group];
      assert catalog.GroupReady(group);
      forall n | n in values ensures n != fields[i].name {
        assert Allowed(catalog.Ctx(), group, n, values[n]);
        var k :| 0 <= k < |fields| && fields[k].name == n && !fields[k].readOnly;
        assert k != i;
        assert fields[k].name != fields[i].name;
      }
    }

    /** The stored values, with defaults and without secrets if asked for, unless excluded flags are both set. */
    method ToNativeJson(defaults: bool, redact: bool) returns (r: Result<Values>)
      requires Valid()
      ensures r == if Clash(group, values) then Err(InvalidArgument)
                   else Ok(Exported(catalog.Ctx(), catalog.groups[group], values, defaults, redact))
    {
      var issues := Validate(false);
      if issues != 0 {
        return Err(InvalidArgument);
      }
      var native := Export(defaults, redact);
      return Ok(native);
    }

    method Export(defaults: bool, redact: bool) returns (native: Values)
      requires catalog.Ready() && group in catalog.groups
      ensures native == Exported(catalog.Ctx(), catalog.groups[group], values, defaults, redact)
    {
      assert catalog.GroupReady(group);
      var fields := catalog.groups[group];
      native := values;
      assert native == Exported(catalog.Ctx(), fields[..0], values, defaults, redact);
      for i := 0 to |fields|
        invariant native == Exported(catalog.Ctx(), fields[..i], values, defaults, redact)
      {
        if defaults && fields[i].hasDefault && !fields[i].readOnly && fields[i].name !in native {
          native := native[fields[i].name := fields[i].initial];
        }
        if redact && fields[i].name in native {
          var shown := MARK;
          if !fields[i].sensitive {
            shown := RedactValue(catalog, fields[i].schema, native[fields[i].name], 0);
          }
          native := native[fields[i].name := shown];
        }
        ExportStep(catalog.Ctx(), fields, i, values, defaults, redact);
      }
      assert fields[..|fields|] == fields;
    }

    /**
     * An export with defaults can be read back exactly when the defaults it adds are themselves
     * allowed and no trainer group has both flags, set or by default: the source adds them unchecked.
     */
    lemma DefaultsReadBack()
      requires Valid()
      ensures var fields := catalog.groups[group];
              Storable(catalog.Ctx(), group, WithDefaults(fields, values)) <==>
              (forall i :: 0 <= i < |fields| && Adds(fields[i], values) ==>
                  Allowed(catalog.Ctx(), group, fields[i].name, fields[i].initial))
              && !(Trains(group) && EndsSet(fields, values, "fp16") && EndsSet(fields, values, "bf16"))
    {
      var fields := catalog.groups[group];
      var all := WithDefaults(fields, values);
      assert catalog.GroupReady(group);
      DefaultsAdded(fields, values);
      SetOrByDefault(fields, values, "fp16");
      SetOrByDefault(fields, values, "bf16");
      if forall i :: 0 <= i < |fields| && Adds(fields[i], values) ==>
          Allowed(catalog.Ctx(), group, fields[i].name, fields[i].initial) {
        forall n | n in all ensures Allowed(catalog.Ctx(), group, n, all[n]) {
          if n in values {
            assert Allowed(catalog.Ctx(), group, n, values[n]);
          } else {
            var i :| 0 <= i < |fields| && Adds(fields[i], values) && fields[i].name == n && all[n] == fields[i].initial;
          }
        }
      }
      if Storable(catalog.Ctx(), group, all) {
        forall i | 0 <= i < |fields| && Adds(fields[i], values)
          ensures Allowed(catalog.Ctx(), group, fields[i].name, fields[i].initial) {
          assert Allowed(catalog.Ctx(), group, fields[i].name, all[fields[i].name]);
        }
      }
    }
  }

  predicate Present(f: Field, values: Values) { f.required && !f.hasDefault ==> f.name in values }

  ghost predicate AllPresent(fields: seq<Field>, values: Values) {
    forall i :: 0 <= i < |fields| ==> Present(fields[i], values)
  }

  /** Required, without a default, and read-only. */
  predicate Locked(f: Field) { f.required && !f.hasDefault && f.readOnly }

  /**
   * An input, the group `vllm.DeviceConfig`: its field `device_type` is read-only and the others are
   * not mandatory, so a reference takes the empty object, which is never complete.
   */
  lemma LockedFieldInput(fields: seq<Field>, sub: Judge)
    requires Field("device_type", Object([Member("type", Str("string"))]), true, false, Undefined, true,
             false) in fields
    requires forall i :: 0 <= i < |fields| ==> !Mandatory(fields[i])
    ensures GroupOk(fields, [], sub) && !AllPresent(fields, map[])
  {
    var i :| 0 <= i < |fields| && Locked(fields[i]);
    var none: Values := map[];
    assert Locked(fields[i]) && fields[i].name !in none;
    assert !Present(fields[i], none);
  }

  /** The export adds the field's default. */
  predicate Adds(f: Field, values: Values) { f.hasDefault && !f.readOnly && f.name !in values }

  function WithDefaults(fields: seq<Field>, values: Values): Values {
    if fields == [] then values
    else
      var last, sofar := fields[|fields| - 1], WithDefaults(fields[..|fields| - 1], values);
      if Adds(last, sofar) then sofar[last.name := last.initial] else sofar
  }

  /** Exactly the defaults of unset, writable fields are added; what was set stays. */
  lemma {:induction false} DefaultsAdded(fields: seq<Field>, values: Values)
    requires DistinctNames(fields)
    ensures var all := WithDefaults(fields, values);
            && (forall n :: n in values ==> n in all && all[n] == values[n])
            && (forall n :: n in all && n !in values ==>
                  exists i :: 0 <= i < |fields| && Adds(fields[i], values) && fields[i].name == n
                    && all[n] == fields[i].initial)
            && (forall i :: 0 <= i < |fields| && Adds(fields[i], values) ==>
                  fields[i].name in all && all[fields[i].name] == fields[i].initial)
  {
    if fields != [] {
      var init, last := fields[..|fields| - 1], fields[|fields| - 1];
      DefaultsAdded(init, values);
      var sofar, all := WithDefaults(init, values), WithDefaults(fields, values);
      forall n | n in sofar && n !in values ensures n != last.name {
        var i :| 0 <= i < |init| && Adds(init[i], values) && init[i].name == n && sofar[n] == init[i].initial;
        assert fields[i].name != fields[|fields| - 1].name;
      }
      forall n | n in all && n !in values
        ensures exists i ::
                  0 <= i < |fields| && Adds(fields[i], values) && fields[i].name == n && all[n] == fields[i].initial
      {
        if n == last.name {
          assert Adds(fields[|fields| - 1], values);
        } else {
          var i :| 0 <= i < |init| && Adds(init[i], values) && init[i].name == n && sofar[n] == init[i].initial;
          assert fields[i] == init[i];
        }
      }
      forall i | 0 <= i < |fields| && Adds(fields[i], values)
        ensures fields[i].name in all && all[fields[i].name] == fields[i].initial {
        if i < |init| {
          assert init[i] == fields[i] && fields[i].name != last.name;
        }
      }
    }
  }

  /** After export a flag is set: as stored, or because it is unset and has such a default. */
  predicate EndsSet(fields: seq<Field>, values: Values, flag: string) {
    if flag in values then AsBool(values[flag])
    else exists i :: 0 <= i < |fields| && fields[i].name == flag && Adds(fields[i], values) && AsBool(fields[i].initial)
  }

  lemma SetOrByDefault(fields: seq<Field>, values: Values, flag: string)
    requires DistinctNames(fields)
    ensures IsSet(WithDefaults(fields, values), flag) <==> EndsSet(fields, values, flag)
  {
    DefaultsAdded(fields, values);
  }

  /**
   * An input, the group `accelerate.MegatronLMPlugin`: the default of its text field
   * `is_train_batch_min` is a boolean, so the empty object is storable and its export is not.
   */
  lemma DefaultInput(c: Context, group: string)
    requires group == "accelerate.MegatronLMPlugin" && group in c.groups && DistinctNames(c.groups[group])
    requires TextByTruth() in c.groups[group]
    ensures Storable(c, group, map[]) && !Storable(c, group, WithDefaults(c.groups[group], map[]))
  {
    var fields := c.groups[group];
    var i :| 0 <= i < |fields| && fields[i] == TextByTruth();
    DefaultsAdded(fields, map[]);
    var all := WithDefaults(fields, map[]);
    assert Adds(fields[i], map[]) && all["is_train_batch_min"] == Bool(true);
    assert forall k :: 0 <= k < |fields| && k != i ==> fields[k].name != fields[i].name;
    assert Value(fields[i].schema, "type") == Str("string");
    assert !Accepted(c, fields[i].schema, Bool(true), Levels(0));
    assert !Allowed(c, group, "is_train_batch_min", all["is_train_batch_min"]);
  }

  function TextByTruth(): Field {
    Field("is_train_batch_min", Object([Member("type", Str("string"))]), false, true, Bool(true), false, false)
  }

  // ---- Export without secrets --------------------------------------------------------------------

  function Exported(c: Context, fields: seq<Field>, values: Values, defaults: bool, redact: bool): Values {
    var all := if defaults then WithDefaults(fields, values) else values;
    if redact then Masked(c, fields, all) else all
  }

  function Masked(c: Context, fields: seq<Field>, values: Values): Values {
    map n | n in values :: ByField(c, fields, Member(n, values[n]), Levels(0))
  }

  lemma ExportStep(c: Context, fields: seq<Field>, i: nat, values: Values, defaults: bool, redact: bool)
    requires DistinctNames(fields) && i < |fields|
    ensures var f, before := fields[i], Exported(c, fields[..i], values, defaults, redact);
            var filled := if defaults && Adds(f, before) then before[f.name := f.initial] else before;
            Exported(c, fields[..i + 1], values, defaults, redact) ==
            if redact && f.name in filled then filled[f.name := FieldShown(c, f, filled[f.name], Levels(0))] else filled
  {
    FindNext(fields, i);
    assert fields[..i + 1][..i] == fields[..i];
  }

  /**
   * Two objects that differ in one place export alike without secrets when that place lies in a
   * sensitive field, or below one, or is nested too deeply. Elsewhere a different plain value shows.
   */
  lemma SecretsStayHidden(c: Context, fields: seq<Field>, a: Values, b: Values, name: string, path: seq<Step>,
                          plain: bool, defaults: bool)
    requires DistinctNames(fields) && a.Keys == b.Keys && name in a && Differ(a[name], b[name], path, plain)
    requires forall n :: n in a && n != name ==> a[n] == b[n]
    ensures var same := Exported(c, fields, a, defaults, true) == Exported(c, fields, b, defaults, true);
            var hidden := FoundHides(c, fields, name, path, Levels(0));
            (hidden ==> same) && (plain && !hidden ==> !same)
  {
    var x, y := if defaults then WithDefaults(fields, a) else a, if defaults then WithDefaults(fields, b) else b;
    if defaults {
      SameDefaults(fields, a, b);
    }
    FieldFate(c, fields, Member(name, a[name]), Member(name, b[name]), path, plain, Levels(0));
    var p, q := Masked(c, fields, x), Masked(c, fields, y);
    assert x[name] == a[name] && y[name] == b[name];
    assert forall n :: n in p && n != name ==> p[n] == q[n];
    if FoundHides(c, fields, name, path, Levels(0)) {
      assert p == q;
    } else if plain {
      GoneIsHidden(p[name], q[name], path, plain, false);
    }
  }

  /** Objects with values for the same fields get the same defaults. */
  lemma SameDefaults(fields: seq<Field>, a: Values, b: Values)
    requires DistinctNames(fields) && a.Keys == b.Keys
    ensures var x, y := WithDefaults(fields, a), WithDefaults(fields, b);
            && x.Keys == y.Keys && (forall n :: n in a ==> n in x && x[n] == a[n] && y[n] == b[n])
            && (forall n :: n in x && n !in a ==> x[n] == y[n])
  {
    DefaultsAdded(fields, a);
    DefaultsAdded(fields, b);
    var x, y := WithDefaults(fields, a), WithDefaults(fields, b);
    forall n | n in x ensures n in y && (n !in a ==> x[n] == y[n]) {
      if n !in a {
        var i :| 0 <= i < |fields| && Adds(fields[i], a) && fields[i].name == n && x[n] == fields[i].initial;
        assert Adds(fields[i], b);
      }
    }
    forall n | n in y ensures n in x {
      if n !in b {
        var i :| 0 <= i < |fields| && Adds(fields[i], b) && fields[i].name == n && y[n] == fields[i].initial;
        assert Adds(fields[i], a);
      }
    }
  }

  /** Builds an object value by value. */
  method FromNativeJson(catalog: Catalog, group: string, native: Values) returns (r: Result<ParameterObject>)
    requires catalog.Ready()
    ensures r.Ok? <==> Storable(catalog.Ctx(), group, native)
    ensures r.Ok? ==>
              fresh(r.value) && r.value.Valid() && r.value.catalog == catalog && r.value.group == group &&
              r.value.values == native
    ensures r.Err? ==> r.code == InvalidArgument
  {
    if group !in catalog.groups {
      return Err(InvalidArgument);
    }
    var item := new ParameterObject(catalog, group);
    var left := native.Keys;
    while left != {}
      invariant item.Valid() && left <= native.Keys
      invariant item.values == map n | n in native && n !in left :: native[n]
    {
      var n :| n in left;
      var stored := item.Set(n, native[n]);
      if stored.Err? {
        assert !Allowed(catalog.Ctx(), group, n, native[n]);
        return Err(InvalidArgument);
      }
      left := left - {n};
    }
    assert item.values == native;
    var issues := item.Validate(false);
    return if issues == 0 then Ok(item) else Err(InvalidArgument);
  }

  // ---- Control documents -------------------------------------------------------------------------

  /** A document: its version is right and it has no unknown fields, and the value under each group. */
  datatype Document = Document(regular: bool, objects: map<string, Option<Values>>)

  class ControlParameters {
    const catalog: Catalog
    var objects: map<string, Values>

    ghost predicate Valid()
      reads this, catalog
    {
      catalog.Ready() && AllStorable(catalog.Ctx(), objects)
    }

    constructor (catalog: Catalog)
      requires catalog.Ready()
      ensures Valid() && this.catalog == catalog && objects == map[]
    {
      this.catalog := catalog;
      objects := map[];
    }

    /** Stores a copy of the object, exactly when it exports. */
    method Set(item: ParameterObject) returns (r: Result<()>)
      requires Valid() && item.Valid() && item.catalog == catalog
      modifies this
      ensures Valid() && item.values == old(item.values)
      ensures r == if Clash(item.group, item.values) then Err(InvalidArgument) else Ok(())
      ensures objects == if r.Ok? then old(objects)[item.group := item.values] else old(objects)
    {
      var native := item.ToNativeJson(false, false);
      if native.Err? {
        return Err(native.code);
      }
      var copy := FromNativeJson(catalog, item.group, native.value);
      assert copy.Ok?;
      ghost var before := objects;
      objects := objects[item.group := copy.value.values];
      forall g | g in objects ensures Storable(catalog.Ctx(), g, objects[g]) {
        assert g != item.group ==> Storable(catalog.Ctx(), g, before[g]);
      }
      return Ok(());
    }
  }

  ghost predicate AllStorable(c: Context, objects: map<string, Values>) {
    forall g {:trigger Storable(c, g, objects[g])} :: g in objects ==> Storable(c, g, objects[g])
  }

  /** A document can be read exactly when it is regular and all of its groups can be stored. */
  ghost predicate Readable(c: Context, document: Document) {
    document.regular && forall g {:trigger document.objects[g]} :: g in document.objects ==>
      document.objects[g].Some? && Storable(c, g, document.objects[g].value)
  }

  method ReadDocument(catalog: Catalog, document: Document) returns (r: Result<ControlParameters>)
    requires catalog.Ready()
    ensures r.Ok? <==> Readable(catalog.Ctx(), document)
    ensures r.Ok? ==> r.value.Valid() && r.value.catalog == catalog && Written(r.value.objects) == document
    ensures r.Err? ==> r.code == InvalidArgument
  {
    if !document.regular {
      return Err(InvalidArgument);
    }
    var control := new ControlParameters(catalog);
    var left := document.objects.Keys;
    while left != {}
      invariant control.Valid() && left <= document.objects.Keys
      invariant forall g :: g in document.objects && g !in left ==> document.objects[g].Some?
      invariant control.objects == map g | g in document.objects && g !in left && document.objects[g].Some? ::
                document.objects[g].value
    {
      var g :| g in left;
      if document.objects[g].None? {
        return Err(InvalidArgument);
      }
      var item := FromNativeJson(catalog, g, document.objects[g].value);
      if item.Err? {
        assert !Storable(catalog.Ctx(), g, document.objects[g].value);
        return Err(InvalidArgument);
      }
      var stored := control.Set(item.value);
      left := left - {g};
    }
    forall g | g in document.objects
      ensures document.objects[g].Some? && Storable(catalog.Ctx(), g, document.objects[g].value) {
      assert Storable(catalog.Ctx(), g, control.objects[g]);
    }
    assert Written(control.objects).objects == document.objects;
    return Ok(control);
  }

  /** The document a set of control parameters is written as. */
  function Written(objects: map<string, Values>): Document {
    Document(true, map g | g in objects :: Some(objects[g]))
  }

  /** What has been stored is written to a document that reads back as it was. */
  method RoundTrip(control: ControlParameters) returns (again: ControlParameters)
    requires control.Valid()
    ensures again.Valid() && again.objects == control.objects
  {
    var document := Written(control.objects);
    forall g | g in document.objects ensures Storable(control.catalog.Ctx(), g, document.objects[g].value) {
      assert Storable(control.catalog.Ctx(), g, control.objects[g]);
    }
    var r := ReadDocument(control.catalog, document);
    again := r.value;
    forall g | g in control.objects ensures g in again.objects && again.objects[g] == control.objects[g] {
      assert Written(again.objects).objects[g] == document.objects[g];
    }
    assert again.objects.Keys == Written(again.objects).objects.Keys == control.objects.Keys;
  }
}
