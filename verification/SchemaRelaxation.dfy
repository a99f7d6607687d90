/** Model answers are checked against a schema whose prose length limits have
    been removed. */
module SchemaRelaxation {

  datatype Json =
    | Null
    | Bool(b: bool)
    | Int(i: int)
    | Float(r: real)
    | Str(s: string)
    | Arr(items: seq<Json>)
    | Obj(members: map<string, Json>)

  const NARRATIVE_FIELDS: set<string> := {
    "acceptance_criteria", "context_note", "decisions_md_entry", "evidence_requirements", "goal", "instructions",
    "next_instructions", "reason", "remaining_risks", "reviewer_feedback", "selected_fanout_reason", "summary",
    "test_focus", "test_requirements", "title", "worker_feedback"
  }

  // ---- Python values ----

  predicate Truthy(j: Json) {
    match j
    case Null => false
    case Bool(b) => b
    case Int(i) => i != 0
    case Float(r) => r != 0.0
    case Str(s) => s != ""
    case Arr(items) => items != []
    case Obj(members) => members != map[]
  }

  predicate IsNumber(j: Json) {
    j.Int? || j.Float?
  }

  function Numeric(j: Json): real
    requires IsNumber(j) || j.Bool?
  {
    match j
    case Int(i) => i as real
    case Float(r) => r
    case Bool(b) => if b then 1.0 else 0.0
  }

  /** Python's `==` between any value and a scalar; booleans are numbers. */
  predicate Equal(value: Json, scalar: Json) {
    if (IsNumber(value) || value.Bool?) && (IsNumber(scalar) || scalar.Bool?) then Numeric(value) == Numeric(scalar)
    else value == scalar
  }

  predicate MatchesType(value: Json, expected: Json) {
    || (expected == Str("null") && value.Null?)
    || (expected == Str("object") && value.Obj?)
    || (expected == Str("array") && value.Arr?)
    || (expected == Str("string") && value.Str?)
    || (expected == Str("boolean") && value.Bool?)
    || (expected == Str("integer") && value.Int?)
    || (expected == Str("number") && IsNumber(value))
  }

  // ---- schemas ----

  predicate Has(schema: Json, key: string) {
    schema.Obj? && key in schema.members
  }

  predicate NumberIfPresent(schema: Json, key: string) {
    Has(schema, key) ==> IsNumber(schema.members[key])
  }

  predicate NoObjects(j: Json) {
    !j.Obj? && (j.Arr? ==> forall e :: e in j.items ==> !e.Obj?)
  }

  /** A schema the validator can read, with scalar enumerations. Keys it does
      not know may hold anything. */
  ghost predicate WellFormed(schema: Json) {
    && schema.Obj?
    && (Has(schema, "type") ==> NoObjects(schema.members["type"]))
    && (Has(schema, "enum") ==>
          && schema.members["enum"].Arr?
          && forall e :: e in schema.members["enum"].items ==> !e.Obj? && !e.Arr?)
    && NumberIfPresent(schema, "minLength") && NumberIfPresent(schema, "maxLength")
    && NumberIfPresent(schema, "minimum") && NumberIfPresent(schema, "maximum")
    && NumberIfPresent(schema, "minItems") && NumberIfPresent(schema, "maxItems")
    && (Has(schema, "uniqueItems") ==> NoObjects(schema.members["uniqueItems"]))
    && (Has(schema, "items") ==>
          || WellFormed(schema.members["items"])
          || (!Truthy(schema.members["items"]) && !schema.members["items"].Obj?))
    && (Has(schema, "required") ==>
          schema.members["required"].Arr? && forall e :: e in schema.members["required"].items ==> e.Str?)
    && (Has(schema, "properties") ==>
          && schema.members["properties"].Obj?
          && forall name :: name in schema.members["properties"].members ==>
               WellFormed(schema.members["properties"].members[name]))
  }

  // ---- the validator ----

  predicate TypeOk(value: Json, schema: Json)
    requires schema.Obj?
  {
    Has(schema, "type") && Truthy(schema.members["type"]) ==>
      var t := schema.members["type"];
      if t.Arr? then exists e :: e in t.items && MatchesType(value, e) else MatchesType(value, t)
  }

  predicate EnumOk(value: Json, schema: Json)
    requires WellFormed(schema)
  {
    Has(schema, "enum") ==> exists e :: e in schema.members["enum"].items && Equal(value, e)
  }

  predicate AtLeast(n: real, schema: Json, key: string)
    requires NumberIfPresent(schema, key)
  {
    Has(schema, key) ==> n >= Numeric(schema.members[key])
  }

  predicate AtMost(n: real, schema: Json, key: string)
    requires NumberIfPresent(schema, key)
  {
    Has(schema, key) ==> n <= Numeric(schema.members[key])
  }

  /** `uniqueItems` compares serialised items, so 1, 1.0 and true differ. */
  predicate UniqueOk(items: seq<Json>, schema: Json) {
    Has(schema, "uniqueItems") && Truthy(schema.members["uniqueItems"]) ==>
      forall i, k :: 0 <= i < k < |items| ==> items[i] != items[k]
  }

  function Properties(schema: Json): map<string, Json>
    requires WellFormed(schema)
  {
    if Has(schema, "properties") then schema.members["properties"].members else map[]
  }

  predicate MembersOk(members: map<string, Json>, schema: Json)
    requires WellFormed(schema)
  {
    && (Has(schema, "required") ==> forall e :: e in schema.members["required"].items ==> e.s in members)
    && (Has(schema, "additionalProperties") && schema.members["additionalProperties"] == Bool(false) ==>
          members.Keys <= Properties(schema).Keys)
  }

  /** `_validate_schema` raises nothing. */
  predicate Accepts(value: Json, schema: Json)
    requires WellFormed(schema)
    decreases value
  {
    && TypeOk(value, schema)
    && EnumOk(value, schema)
    && (value.Str? ==>
          AtLeast(|value.s| as real, schema, "minLength") && AtMost(|value.s| as real, schema, "maxLength"))
    && (IsNumber(value) ==> AtLeast(Numeric(value), schema, "minimum") && AtMost(Numeric(value), schema, "maximum"))
    && (value.Arr? ==>
          && AtLeast(|value.items| as real, schema, "minItems") && AtMost(|value.items| as real, schema, "maxItems")
          && UniqueOk(value.items, schema)
          && (Has(schema, "items") && Truthy(schema.members["items"]) ==>
                forall i :: 0 <= i < |value.items| ==> Accepts(value.items[i], schema.members["items"])))
    && (value.Obj? ==>
          && MembersOk(value.members, schema)
          && forall name :: name in value.members && name in Properties(schema) ==>
               Accepts(value.members[name], Properties(schema)[name]))
  }

  // ---- the relaxation ----

  /** `_without_narrative_limits`. Every nested dictionary is treated as a
      schema, not only those under known keys. */
  function Relax(schema: Json, narrative: bool): (r: Json)
    requires schema.Obj?
    ensures r.Obj?
    decreases schema, 0
  {
    Obj(map key | key in schema.members && !(key == "maxLength" && narrative) ::
          RelaxEntry(key, schema.members[key], narrative))
  }

  function RelaxEntry(key: string, value: Json, narrative: bool): Json
    decreases value, 1
  {
    match value
    case Obj(members) =>
      if key == "properties" then Obj(map name | name in members :: RelaxField(name, members[name], narrative))
      else Relax(value, narrative)
    case Arr(items) => Arr(seq(|items|, i requires 0 <= i < |items| => RelaxItem(items[i], narrative)))
    case _ => value
  }

  function RelaxField(name: string, value: Json, narrative: bool): Json
    decreases value, 1
  {
    if value.Obj? then Relax(value, narrative || name in NARRATIVE_FIELDS) else value
  }

  function RelaxItem(value: Json, narrative: bool): Json
    decreases value, 1
  {
    if value.Obj? then Relax(value, narrative) else value
  }

  /** Every string at a narrative position is within the limit the original
      schema sets there; the narrative flag is inherited downward. */
  predicate WithinLimits(value: Json, schema: Json, narrative: bool)
    requires WellFormed(schema)
    decreases value
  {
    && (value.Str? && narrative ==> AtMost(|value.s| as real, schema, "maxLength"))
    && (value.Arr? && Has(schema, "items") && Truthy(schema.members["items"]) ==>
          forall i :: 0 <= i < |value.items| ==> WithinLimits(value.items[i], schema.members["items"], narrative))
    && (value.Obj? ==>
          forall name :: name in value.members && name in Properties(schema) ==>
            WithinLimits(value.members[name], Properties(schema)[name], narrative || name in NARRATIVE_FIELDS))
  }

  // ---- what the relaxation keeps ----

  lemma KeepsKey(schema: Json, key: string, narrative: bool)
    requires schema.Obj?
    ensures Has(Relax(schema, narrative), key) <==> Has(schema, key) && !(key == "maxLength" && narrative)
    ensures Has(Relax(schema, narrative), key) ==>
              && Has(schema, key)
              && Relax(schema, narrative).members[key] == RelaxEntry(key, schema.members[key], narrative)
  {
  }

  lemma KeepsPlain(key: string, value: Json, narrative: bool)
    requires NoObjects(value)
    ensures RelaxEntry(key, value, narrative) == value
  {
    if value.Arr? {
      assert RelaxEntry(key, value, narrative).items == value.items;
    }
  }

  /** The constraints that mention no sub-schema, other than `maxLength`. */
  lemma KeepsConstraints(schema: Json, narrative: bool)
    requires WellFormed(schema)
    ensures var r := Relax(schema, narrative);
            && (forall key | key in {"type", "enum", "minLength", "minimum", "maximum",
                                     "minItems", "maxItems", "uniqueItems", "required"} ::
                  (Has(r, key) <==> Has(schema, key)) && (Has(r, key) ==> r.members[key] == schema.members[key]))
            && (Has(r, "maxLength") <==> Has(schema, "maxLength") && !narrative)
            && (Has(r, "maxLength") ==> r.members["maxLength"] == schema.members["maxLength"])
            && (Has(r, "additionalProperties") && r.members["additionalProperties"] == Bool(false)
                <==> Has(schema, "additionalProperties") && schema.members["additionalProperties"] == Bool(false))
  {
    hide Relax, RelaxEntry;
    KeepsKey(schema, "maxLength", narrative);
    KeepsKey(schema, "additionalProperties", narrative);
    forall key | key in {"type", "enum", "minLength", "minimum", "maximum",
                         "minItems", "maxItems", "uniqueItems", "required"}
      ensures var r := Relax(schema, narrative);
              (Has(r, key) <==> Has(schema, key)) && (Has(r, key) ==> r.members[key] == schema.members[key])
    {
      KeepsKey(schema, key, narrative);
      if Has(schema, key) {
        KeepsPlain(key, schema.members[key], narrative);
      }
    }
    if Has(schema, "maxLength") {
      KeepsPlain("maxLength", schema.members["maxLength"], narrative);
    }
    if Has(schema, "additionalProperties") {
      EntryFalse("additionalProperties", schema.members["additionalProperties"], narrative);
    }
  }

  lemma EntryFalse(key: string, value: Json, narrative: bool)
    ensures RelaxEntry(key, value, narrative) == Bool(false) <==> value == Bool(false)
  {
  }

  /** The sub-schemas: items inherit the flag, a property may raise it. */
  lemma KeepsChildren(schema: Json, narrative: bool)
    requires WellFormed(schema)
    ensures var r := Relax(schema, narrative);
            && (Has(r, "items") <==> Has(schema, "items"))
            && (Has(r, "items") ==>
                  r.members["items"] == if schema.members["items"].Obj? then Relax(schema.members["items"], narrative)
                                        else schema.members["items"])
            && (Has(r, "properties") <==> Has(schema, "properties"))
            && (Has(r, "properties") ==>
                  && r.members["properties"].Obj?
                  && r.members["properties"].members == map name | name in Properties(schema) ::
                       Relax(Properties(schema)[name], narrative || name in NARRATIVE_FIELDS))
  {
    KeepsKey(schema, "items", narrative);
    KeepsKey(schema, "properties", narrative);
    if Has(schema, "items") {
      ItemsEntry(schema.members["items"], narrative);
    }
    if Has(schema, "properties") {
      hide Relax;
      var p := schema.members["properties"];
      assert RelaxEntry("properties", p, narrative).members
          == map name | name in p.members :: RelaxField(name, p.members[name], narrative);
    }
  }

  lemma ItemsEntry(value: Json, narrative: bool)
    requires value.Obj? || !Truthy(value)
    ensures RelaxEntry("items", value, narrative) == if value.Obj? then Relax(value, narrative) else value
  {
    hide Relax;
  }

  lemma {:induction false} RelaxedWellFormed(schema: Json, narrative: bool)
    requires WellFormed(schema)
    ensures WellFormed(Relax(schema, narrative))
    decreases schema
  {
    var r := Relax(schema, narrative);
    KeepsConstraints(schema, narrative);
    KeepsChildren(schema, narrative);
    if Has(schema, "items") && schema.members["items"].Obj? {
      RelaxedWellFormed(schema.members["items"], narrative);
    }
    forall name | name in Properties(schema)
      ensures WellFormed(Relax(Properties(schema)[name], narrative || name in NARRATIVE_FIELDS))
    {
      RelaxedWellFormed(Properties(schema)[name], narrative || name in NARRATIVE_FIELDS);
    }
    hide Relax;
  }

  // ---- relaxing drops exactly the narrative limits ----

  predicate LocalOk(value: Json, schema: Json)
    requires WellFormed(schema)
  {
    && TypeOk(value, schema) && EnumOk(value, schema)
    && (value.Str? ==> AtLeast(|value.s| as real, schema, "minLength"))
    && (IsNumber(value) ==> AtLeast(Numeric(value), schema, "minimum") && AtMost(Numeric(value), schema, "maximum"))
    && (value.Arr? ==>
          && AtLeast(|value.items| as real, schema, "minItems") && AtMost(|value.items| as real, schema, "maxItems")
          && UniqueOk(value.items, schema))
    && (value.Obj? ==> MembersOk(value.members, schema))
  }

  predicate ChecksItems(schema: Json) {
    Has(schema, "items") && Truthy(schema.members["items"])
  }

  lemma AcceptsParts(value: Json, schema: Json)
    requires WellFormed(schema)
    ensures Accepts(value, schema) <==>
              && LocalOk(value, schema)
              && (value.Str? ==> AtMost(|value.s| as real, schema, "maxLength"))
              && (value.Arr? && ChecksItems(schema) ==>
                    forall i :: 0 <= i < |value.items| ==> Accepts(value.items[i], schema.members["items"]))
              && (value.Obj? ==> forall name :: name in value.members && name in Properties(schema) ==>
                    Accepts(value.members[name], Properties(schema)[name]))
  {
    hide TypeOk, EnumOk, AtLeast, AtMost, UniqueOk, MembersOk, Truthy, WellFormed;
  }

  lemma SameLocal(value: Json, schema: Json, narrative: bool)
    requires WellFormed(schema) && WellFormed(Relax(schema, narrative))
    ensures LocalOk(value, schema) <==> LocalOk(value, Relax(schema, narrative))
  {
    KeepsConstraints(schema, narrative);
    KeepsChildren(schema, narrative);
    assert Properties(schema).Keys == Properties(Relax(schema, narrative)).Keys;
    hide Relax, MatchesType, Equal;
  }

  lemma EmptyAcceptsAll(value: Json)
    ensures WellFormed(Obj(map[])) && Accepts(value, Obj(map[]))
  {
  }

  /** The original schema accepts a value exactly when the relaxed one does and
      every narrative string keeps to its original limit. */
  lemma {:induction false} RelaxedExactly(value: Json, schema: Json, narrative: bool)
    requires WellFormed(schema)
    ensures WellFormed(Relax(schema, narrative))
    ensures Accepts(value, schema) <==>
      Accepts(value, Relax(schema, narrative)) && WithinLimits(value, schema, narrative)
    decreases value
  {
    var r := Relax(schema, narrative);
    RelaxedWellFormed(schema, narrative);
    AcceptsParts(value, schema);
    AcceptsParts(value, r);
    SameLocal(value, schema, narrative);
    KeepsConstraints(schema, narrative);
    KeepsChildren(schema, narrative);
    if value.Arr? && ChecksItems(schema) {
      var items := schema.members["items"];
      forall i | 0 <= i < |value.items|
        ensures Accepts(value.items[i], items)
           <==> (ChecksItems(r) ==> Accepts(value.items[i], r.members["items"]))
                && WithinLimits(value.items[i], items, narrative)
      {
        RelaxedExactly(value.items[i], items, narrative);
        EmptyAcceptsAll(value.items[i]);
      }
    }
    if value.Obj? {
      forall name | name in value.members && name in Properties(schema)
        ensures Accepts(value.members[name], Properties(schema)[name])
           <==> && Accepts(value.members[name], Properties(r)[name])
                && WithinLimits(value.members[name], Properties(schema)[name], narrative || name in NARRATIVE_FIELDS)
      {
        RelaxedExactly(value.members[name], Properties(schema)[name], narrative || name in NARRATIVE_FIELDS);
      }
    }
    hide Relax, LocalOk, Accepts;
  }

  /** Relaxing again changes nothing, whatever the schema holds. */
  lemma {:induction false} RelaxIdempotent(schema: Json, narrative: bool)
    requires schema.Obj?
    ensures Relax(Relax(schema, narrative), narrative) == Relax(schema, narrative)
    decreases schema, 0
  {
    var r := Relax(schema, narrative);
    forall key | key in r.members
      ensures RelaxEntry(key, r.members[key], narrative) == r.members[key]
    {
      EntryIdempotent(key, schema.members[key], narrative);
    }
    assert Relax(r, narrative).members == r.members;
  }

  lemma {:induction false} EntryIdempotent(key: string, value: Json, narrative: bool)
    ensures RelaxEntry(key, RelaxEntry(key, value, narrative), narrative) == RelaxEntry(key, value, narrative)
    decreases value, 1
  {
    var once := RelaxEntry(key, value, narrative);
    match value
    case Obj(members) =>
      if key == "properties" {
        forall name | name in members
          ensures RelaxField(name, RelaxField(name, members[name], narrative), narrative) ==
                  RelaxField(name, members[name], narrative)
        {
          if members[name].Obj? {
            RelaxIdempotent(members[name], narrative || name in NARRATIVE_FIELDS);
          }
        }
        assert RelaxEntry(key, once, narrative).members == once.members;
      } else {
        RelaxIdempotent(value, narrative);
      }
    case Arr(items) =>
      forall i | 0 <= i < |items|
        ensures RelaxItem(RelaxItem(items[i], narrative), narrative) == RelaxItem(items[i], narrative)
      {
        if items[i].Obj? {
          RelaxIdempotent(items[i], narrative);
        }
      }
      assert RelaxEntry(key, once, narrative).items == once.items;
    case _ =>
  }
}
