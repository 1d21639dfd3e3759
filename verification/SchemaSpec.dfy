/**
 * When a value conforms to a parameter schema: keyword by keyword, with no bound on nesting. References
 * between groups may be cyclic; every step looks at a smaller value, or at the same value under a
 * smaller schema.
 */
module SchemaSpec {
  import opened JsonValues

  /** A field of a group; `initial` is its default, if it has one. */
  datatype Field = Field(name: string, schema: Json, required: bool, hasDefault: bool, initial: Json, readOnly: bool,
                         sensitive: bool)

  /** The parameter groups, and the regular expression engine. */
  datatype Context = Context(groups: map<string, seq<Field>>, matches: (string, string) -> bool)

  /** A judgement on a schema and a value, for the parts of a larger one. */
  type Judge = (Json, Json) -> bool

  predicate AnyOfOk(schema: Json, value: Json, sub: Judge) {
    Has(schema, "anyOf") ==>
      var branches := AsArray(Value(schema, "anyOf"));
      exists i :: 0 <= i < |branches| && sub(AsObject(branches[i]), value)
  }

  predicate EnumOk(schema: Json, value: Json) { Has(schema, "enum") ==> value in AsArray(Value(schema, "enum")) }

  predicate IsInteger(value: Json) {
    value.Number? && Integral(value.n) && -INT64_LIMIT <= value.n.Floor < INT64_LIMIT
  }

  predicate TypeOk(kind: string, value: Json) {
    && (kind == "boolean" ==> value.Bool?) && (kind == "string" ==> value.Str?) && (kind == "number" ==> value.Number?)
    && (kind == "integer" ==> IsInteger(value)) && (kind == "array" ==> value.Array?)
      && (kind == "object" ==> value.Object?)
  }

  predicate BoundsOk(schema: Json, value: Json) {
    value.Number? ==>
      && (Has(schema, "minimum") ==> value.n >= AsReal(Value(schema, "minimum")))
      && (Has(schema, "maximum") ==> value.n <= AsReal(Value(schema, "maximum")))
      && (Has(schema, "exclusiveMinimum") ==> value.n > AsReal(Value(schema, "exclusiveMinimum")))
      && (Has(schema, "exclusiveMaximum") ==> value.n < AsReal(Value(schema, "exclusiveMaximum")))
  }

  /** A size is within its bounds; bounds that are no 32-bit integers read as zero. */
  predicate SizeOk(schema: Json, low: string, high: string, size: nat) {
    (Has(schema, low) ==> AsInt(Value(schema, low)) <= size)
      && (Has(schema, high) ==> size <= AsInt(Value(schema, high)))
  }

  predicate ItemsOk(schema: Json, value: Json, sub: Judge) {
    value.Array? ==>
      && SizeOk(schema, "minItems", "maxItems", |value.items|)
      && (Value(schema, "items").Object? ==> forall i :: 0 <= i < |value.items| ==>
        sub(Value(schema, "items"), value.items[i]))
      && PrefixOk(Value(schema, "prefixItems"), value.items, sub)
  }

  predicate PrefixOk(prefix: Json, items: seq<Json>, sub: Judge) {
    prefix.Array? ==> |prefix.items| == |items| && forall i :: 0 <= i < |items| ==>
      sub(AsObject(prefix.items[i]), items[i])
  }

  predicate RequiredOk(schema: Json, value: Json) {
    value.Object? ==>
      var required := AsArray(Value(schema, "required"));
      forall i :: 0 <= i < |required| ==> HasName(value.members, AsString(required[i]))
  }

  predicate MemberOk(schema: Json, m: Member, sub: Judge) {
    var properties := AsObject(Value(schema, "properties"));
    if Has(properties, m.name) then sub(AsObject(Value(properties, m.name)), m.value)
    else
      var others := Value(schema, "additionalProperties");
      (others.Object? ==> sub(others, m.value)) && others != Bool(false)
  }

  predicate PropertiesOk(schema: Json, value: Json, sub: Judge) {
    value.Object? ==> forall i :: 0 <= i < |value.members| ==> MemberOk(schema, value.members[i], sub)
  }

  predicate Mandatory(f: Field) { f.required && !f.hasDefault && !f.readOnly }

  /** Some writable field of the group takes the member. */
  predicate FieldOk(fields: seq<Field>, m: Member, sub: Judge) {
    exists i :: 0 <= i < |fields| && fields[i].name == m.name && !fields[i].readOnly && sub(fields[i].schema, m.value)
  }

  predicate MandatoryGiven(fields: seq<Field>, members: seq<Member>) {
    forall i :: 0 <= i < |fields| && Mandatory(fields[i]) ==> HasName(members, fields[i].name)
  }

  predicate GroupOk(fields: seq<Field>, members: seq<Member>, sub: Judge) {
    && MandatoryGiven(fields, members)
    && (forall i :: 0 <= i < |members| ==> FieldOk(fields, members[i], sub))
  }

  predicate ReferenceOk(c: Context, schema: Json, value: Json, sub: Judge) {
    && (Has(schema, "ref") ==> value.Object?)
    && (value.Object? && AsString(Value(schema, "ref")) in c.groups ==>
          GroupOk(c.groups[AsString(Value(schema, "ref"))], value.members, sub))
  }

  predicate StringOk(c: Context, schema: Json, value: Json) {
    value.Str? ==>
      && SizeOk(schema, "minLength", "maxLength", |value.s|)
      && (Has(schema, "pattern") ==> c.matches(AsString(Value(schema, "pattern")), value.s))
  }

  /** All keywords of one schema hold of one value, as `sub` judges the parts. */
  predicate Local(c: Context, schema: Json, value: Json, sub: Judge) {
    var kind := AsString(Value(schema, "type"));
    || (value.Null? && AsBool(Value(schema, "nullable")))
    || (&& AnyOfOk(schema, value, sub) && EnumOk(schema, value) && kind != "external"
        && if kind == "null" then value.Null?
           else TypeOk(kind, value) && BoundsOk(schema, value) && ItemsOk(schema, value, sub)
                && RequiredOk(schema, value)
                && PropertiesOk(schema, value, sub) && ReferenceOk(c, schema, value, sub) && StringOk(c, schema, value))
  }

  /** What the parts of a judgement are judged on. */
  predicate Smaller(s: Json, v: Json, schema: Json, value: Json) {
    Size(v) < Size(value) || (v == value && Size(s) < Size(schema))
  }

  /** The value conforms to the schema. */
  ghost predicate Conforms(c: Context, schema: Json, value: Json)
    decreases Size(value), Size(schema)
  {
    !value.Undefined? && Local(c, schema, value, (s, v) => Smaller(s, v, schema, value) && Conforms(c, s, v))
  }

  /** The same judgement with so many levels of nesting left. */
  ghost predicate Accepted(c: Context, schema: Json, value: Json, levels: nat)
    decreases levels, 0
  {
    levels > 0 && !value.Undefined? && Local(c, schema, value, JudgeAt(c, levels - 1))
  }

  ghost function JudgeAt(c: Context, levels: nat): Judge
    decreases levels, 1
  {
    (s, v) => Accepted(c, s, v, levels)
  }

  // ---- Judgements on parts decide judgements on wholes -------------------------------------------

  /** Schemas of the catalog are within a size. */
  ghost predicate Within(c: Context, bound: nat) {
    forall g, i {:trigger c.groups[g][i]} :: g in c.groups && 0 <= i < |c.groups[g]| ==>
      Size(c.groups[g][i].schema) <= bound
  }

  /** The stronger judge never accepts a part that the weaker one refuses. */
  ghost predicate Weaker(strong: Judge, weak: Judge, schema: Json, value: Json, bound: nat) {
    forall s, v {:trigger weak(s, v)} :: Smaller(s, v, schema, value) && Size(s) <= bound && strong(s, v) ==> weak(s, v)
  }

  lemma ArrayOfIsSmaller(schema: Json, name: string, i: nat)
    requires i < |AsArray(Value(schema, name))|
    ensures Size(AsObject(AsArray(Value(schema, name))[i])) < Size(schema)
  {
    var list := Value(schema, name);
    ValueIsSmaller(schema, name);
    LookupHas(schema, name);
    ItemIsSmaller(list.items, i);
  }

  lemma LookupHas(j: Json, name: string)
    ensures !Value(j, name).Undefined? ==> Has(j, name)
  {
    if j.Object? {
      LookupFinds(j.members, name);
    }
  }

  lemma AnyOfMonotone(schema: Json, value: Json, strong: Judge, weak: Judge, bound: nat)
    requires Weaker(strong, weak, schema, value, bound) && Size(schema) <= bound && AnyOfOk(schema, value, strong)
    ensures AnyOfOk(schema, value, weak)
  {
    if Has(schema, "anyOf") {
      var branches := AsArray(Value(schema, "anyOf"));
      var i :| 0 <= i < |branches| && strong(AsObject(branches[i]), value);
      ArrayOfIsSmaller(schema, "anyOf", i);
      assert weak(AsObject(branches[i]), value);
    }
  }

  lemma ItemsMonotone(schema: Json, value: Json, strong: Judge, weak: Judge, bound: nat)
    requires Weaker(strong, weak, schema, value, bound) && Size(schema) <= bound && ItemsOk(schema, value, strong)
    ensures ItemsOk(schema, value, weak)
  {
    if value.Array? {
      ValueIsSmaller(schema, "items");
      forall i | 0 <= i < |value.items| ensures Size(value.items[i]) < Size(value) {
        ItemIsSmaller(value.items, i);
      }
      var prefix := Value(schema, "prefixItems");
      if prefix.Array? {
        forall i | 0 <= i < |value.items| ensures weak(AsObject(prefix.items[i]), value.items[i]) {
          ArrayOfIsSmaller(schema, "prefixItems", i);
        }
      }
    }
  }

  lemma PropertiesMonotone(schema: Json, value: Json, strong: Judge, weak: Judge, bound: nat)
    requires Weaker(strong, weak, schema, value, bound) && Size(schema) <= bound && PropertiesOk(schema, value, strong)
    ensures PropertiesOk(schema, value, weak)
  {
    if value.Object? {
      var properties := AsObject(Value(schema, "properties"));
      ValueIsSmaller(schema, "properties");
      ValueIsSmaller(schema, "additionalProperties");
      forall i | 0 <= i < |value.members| ensures MemberOk(schema, value.members[i], weak) {
        MemberIsSmaller(value.members, i);
        ValueIsSmaller(properties, value.members[i].name);
        assert MemberOk(schema, value.members[i], strong);
      }
    }
  }

  lemma ReferenceMonotone(c: Context, schema: Json, value: Json, strong: Judge, weak: Judge, bound: nat)
    requires Weaker(strong, weak, schema, value, bound) && Within(c, bound) && ReferenceOk(c, schema, value, strong)
    ensures ReferenceOk(c, schema, value, weak)
  {
    var g := AsString(Value(schema, "ref"));
    if value.Object? && g in c.groups {
      forall i | 0 <= i < |value.members| ensures FieldOk(c.groups[g], value.members[i], weak) {
        MemberIsSmaller(value.members, i);
        assert FieldOk(c.groups[g], value.members[i], strong);
        var k :| 0 <= k < |c.groups[g]| && c.groups[g][k].name == value.members[i].name && !c.groups[g][k].readOnly
                 && strong(c.groups[g][k].schema, value.members[i].value);
        assert weak(c.groups[g][k].schema, value.members[i].value);
      }
    }
  }

  lemma LocalMonotone(c: Context, schema: Json, value: Json, strong: Judge, weak: Judge, bound: nat)
    requires Weaker(strong, weak, schema, value, bound) && Within(c, bound) && Size(schema) <= bound
    requires Local(c, schema, value, strong)
    ensures Local(c, schema, value, weak)
  {
    if !(value.Null? && AsBool(Value(schema, "nullable"))) {
      AnyOfMonotone(schema, value, strong, weak, bound);
      if AsString(Value(schema, "type")) != "null" {
        ItemsMonotone(schema, value, strong, weak, bound);
        PropertiesMonotone(schema, value, strong, weak, bound);
        ReferenceMonotone(c, schema, value, strong, weak, bound);
      }
    }
  }

  // ---- Bounded acceptance and unbounded conformance ----------------------------------------------

  /** A value accepted with some levels of nesting left conforms. */
  lemma {:induction false} AcceptedConformsWithin(c: Context, schema: Json, value: Json, levels: nat, bound: nat)
    requires Within(c, bound) && Size(schema) <= bound && Accepted(c, schema, value, levels)
    ensures Conforms(c, schema, value)
    decreases levels
  {
    var strong := JudgeAt(c, levels - 1);
    var weak: Judge := (s, v) => Smaller(s, v, schema, value) && Conforms(c, s, v);
    forall s, v | Smaller(s, v, schema, value) && Size(s) <= bound && strong(s, v) ensures weak(s, v) {
      AcceptedConformsWithin(c, s, v, levels - 1, bound);
    }
    LocalMonotone(c, schema, value, strong, weak, bound);
  }

  /** More levels never refuse what fewer accept: a value accepted at a depth is accepted at any smaller one. */
  lemma {:induction false} MoreLevelsAcceptWithin(c: Context, schema: Json, value: Json, fewer: nat, more: nat,
    bound: nat)
    requires Within(c, bound) && Size(schema) <= bound
    requires Accepted(c, schema, value, fewer) && fewer <= more
    ensures Accepted(c, schema, value, more)
    decreases fewer
  {
    var strong := JudgeAt(c, fewer - 1);
    var weak := JudgeAt(c, more - 1);
    forall s, v | Smaller(s, v, schema, value) && Size(s) <= bound && strong(s, v) ensures weak(s, v) {
      MoreLevelsAcceptWithin(c, s, v, fewer - 1, more - 1, bound);
    }
    LocalMonotone(c, schema, value, strong, weak, bound);
  }

  /** How many levels a value can need. */
  function Need(schema: Json, value: Json, bound: nat): nat { Size(value) * (bound + 1) + Size(schema) }

  lemma OneStep(a: nat, b: nat, unit: nat)
    requires a < b
    ensures a * unit + unit <= b * unit
  {
    assert (b - a - 1) * unit >= 0;
    assert b * unit == a * unit + unit + (b - a - 1) * unit;
  }

  lemma SmallerNeedsLess(s: Json, v: Json, schema: Json, value: Json, bound: nat)
    requires Smaller(s, v, schema, value) && Size(s) <= bound
    ensures Need(s, v, bound) < Need(schema, value, bound)
  {
    if Size(v) < Size(value) {
      OneStep(Size(v), Size(value), bound + 1);
    }
  }

  /** A conforming value is accepted once there are levels enough. */
  lemma {:induction false} ConformingIsAcceptedWithin(c: Context, schema: Json, value: Json, levels: nat, bound: nat)
    requires Within(c, bound) && Size(schema) <= bound
    requires Conforms(c, schema, value) && Need(schema, value, bound) <= levels
    ensures Accepted(c, schema, value, levels)
    decreases levels
  {
    var strong: Judge := (s, v) => Smaller(s, v, schema, value) && Conforms(c, s, v);
    var weak := JudgeAt(c, levels - 1);
    forall s, v | Smaller(s, v, schema, value) && Size(s) <= bound && strong(s, v) ensures weak(s, v) {
      SmallerNeedsLess(s, v, schema, value, bound);
      ConformingIsAcceptedWithin(c, s, v, levels - 1, bound);
    }
    LocalMonotone(c, schema, value, strong, weak, bound);
  }

  function Largest(fields: seq<Field>, least: nat): (b: nat)
    ensures least <= b && forall i :: 0 <= i < |fields| ==> Size(fields[i].schema) <= b
  {
    if fields == [] then least
    else
      var rest := Largest(fields[1..], least);
      assert forall i :: 1 <= i < |fields| ==> fields[i] == fields[1..][i - 1];
      if rest < Size(fields[0].schema) then Size(fields[0].schema) else rest
  }

  /** A catalog is finite: its schemas are within some size. */
  lemma {:induction false} BoundExists(c: Context, least: nat)
    ensures exists b: nat :: least <= b && Within(c, b)
    decreases |c.groups|
  {
    if c.groups == map[] {
      assert Within(c, least);
    } else {
      var g :| g in c.groups;
      var rest := c.(groups := c.groups - {g});
      BoundExists(rest, least);
      var b: nat :| least <= b && Within(rest, b);
      var n := Largest(c.groups[g], b);
      forall h, i {:trigger c.groups[h][i]} | h in c.groups && 0 <= i < |c.groups[h]|
        ensures Size(c.groups[h][i].schema) <= n {
        assert h != g ==> rest.groups[h][i] == c.groups[h][i];
      }
      assert Within(c, n);
    }
  }

  /** A value accepted with some levels of nesting left conforms, and is accepted with any more levels. */
  lemma AcceptedConforms(c: Context, schema: Json, value: Json, levels: nat, more: nat)
    requires Accepted(c, schema, value, levels) && levels <= more
    ensures Conforms(c, schema, value) && Accepted(c, schema, value, more)
  {
    BoundExists(c, Size(schema));
    var bound: nat :| Size(schema) <= bound && Within(c, bound);
    AcceptedConformsWithin(c, schema, value, levels, bound);
    MoreLevelsAcceptWithin(c, schema, value, levels, more, bound);
  }

  /** Conformance is acceptance with some number of levels. */
  lemma ConformsIffAccepted(c: Context, schema: Json, value: Json)
    ensures Conforms(c, schema, value) <==> exists levels: nat :: Accepted(c, schema, value, levels)
  {
    BoundExists(c, Size(schema));
    var bound: nat :| Size(schema) <= bound && Within(c, bound);
    if Conforms(c, schema, value) {
      var levels := Need(schema, value, bound);
      ConformingIsAcceptedWithin(c, schema, value, levels, bound);
      assert exists n: nat :: n == levels && Accepted(c, schema, value, n);
    } else {
      forall levels: nat ensures !Accepted(c, schema, value, levels) {
        if Accepted(c, schema, value, levels) {
          AcceptedConformsWithin(c, schema, value, levels, bound);
        }
      }
    }
  }

  // ---- Size bounds that are too large ------------------------------------------------------------

  predicate IsSizeBound(j: Json) { j.Number? && j.n >= 0.0 && Integral(j.n) }

  /** What a size bound says. */
  predicate SizeMeant(schema: Json, low: string, high: string, size: nat) {
    (Has(schema, low) ==> AsReal(Value(schema, low)) <= size as real)
      && (Has(schema, high) ==> size as real <= AsReal(Value(schema, high)))
  }

  predicate FitsInt(schema: Json, name: string) {
    Has(schema, name) ==> AsReal(Value(schema, name)) < INT_LIMIT as real
  }

  /**
   * Checked size bounds mean what they say exactly when they are below 2^31: a larger one reads as
   * zero, so that it no longer asks for anything, or allows only what is empty.
   */
  lemma SizeBoundsMeanWhatTheySay(schema: Json, low: string, high: string)
    requires Has(schema, low) ==> IsSizeBound(Value(schema, low))
    requires Has(schema, high) ==> IsSizeBound(Value(schema, high))
    ensures (forall size: nat :: SizeOk(schema, low, high, size) <==> SizeMeant(schema, low, high, size))
            <==> FitsInt(schema, low) && FitsInt(schema, high)
  {
    var least, most := AsReal(Value(schema, low)), AsReal(Value(schema, high));
    if !FitsInt(schema, low) {
      assert SizeOk(schema, low, high, 0) && !SizeMeant(schema, low, high, 0);
    } else if !FitsInt(schema, high) {
      var size: nat := if Has(schema, low) && least.Floor > 0 then least.Floor else 1;
      assert !SizeOk(schema, low, high, size) && SizeMeant(schema, low, high, size);
    }
  }
}
