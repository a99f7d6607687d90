/** What schemas and their relaxation mean, for schemas written out. */
module SchemaLaws {
  import opened SchemaRelaxation

  function OfType(name: string): (r: Json)
    ensures WellFormed(r)
  {
    Obj(map["type" := Str(name)])
  }

  /** The type words and the values they name; a boolean is no number. */
  lemma TypesExactly(v: Json)
    ensures Accepts(v, OfType("null")) <==> v.Null?
    ensures Accepts(v, OfType("object")) <==> v.Obj?
    ensures Accepts(v, OfType("array")) <==> v.Arr?
    ensures Accepts(v, OfType("string")) <==> v.Str?
    ensures Accepts(v, OfType("boolean")) <==> v.Bool?
    ensures Accepts(v, OfType("integer")) <==> v.Int?
    ensures Accepts(v, OfType("number")) <==> v.Int? || v.Float?
  {
    hide *;
    forall name: string
      ensures Accepts(v, OfType(name)) <==> name == "" || MatchesType(v, Str(name))
    {
      OnlyType(v, name);
    }
    Containers(v);
    Texts(v);
    Numbers(v);
  }

  lemma Containers(v: Json)
    ensures MatchesType(v, Str("object")) <==> v.Obj?
    ensures MatchesType(v, Str("array")) <==> v.Arr?
  {
  }

  lemma Texts(v: Json)
    ensures MatchesType(v, Str("null")) <==> v.Null?
    ensures MatchesType(v, Str("string")) <==> v.Str?
  {
  }

  lemma Numbers(v: Json)
    ensures MatchesType(v, Str("boolean")) <==> v.Bool?
    ensures MatchesType(v, Str("integer")) <==> v.Int?
    ensures MatchesType(v, Str("number")) <==> v.Int? || v.Float?
  {
  }

  lemma OnlyType(v: Json, name: string)
    ensures Accepts(v, OfType(name)) <==> name == "" || MatchesType(v, Str(name))
  {
    hide MatchesType;
  }

  /** A text with both limits: they are included, and nothing but texts passes. */
  lemma TextExactly(v: Json, low: int, high: int)
    ensures var schema := Obj(map["type" := Str("string"), "minLength" := Int(low), "maxLength" := Int(high)]);
            WellFormed(schema) && (Accepts(v, schema) <==> v.Str? && low <= |v.s| <= high)
  {
  }

  lemma NumberExactly(v: Json, low: real, high: real)
    ensures var schema := Obj(map["type" := Str("number"), "minimum" := Float(low), "maximum" := Float(high)]);
            && WellFormed(schema)
            && (Accepts(v, schema) <==>
                  (v.Int? && low <= v.i as real <= high) || (v.Float? && low <= v.r <= high))
  {
  }

  function ListSchema(item: Json, low: int, high: int): (r: Json)
    requires WellFormed(item)
    ensures WellFormed(r)
  {
    Obj(map["type" := Str("array"), "minItems" := Int(low), "maxItems" := Int(high), "uniqueItems" := Bool(true),
            "items" := item])
  }

  /** A list: its length within the limits, every item accepted, no item twice. */
  lemma ListExactly(v: Json, item: Json, low: int, high: int)
    requires WellFormed(item) && item != Obj(map[])
    ensures Accepts(v, ListSchema(item, low, high)) <==>
              && v.Arr? && low <= |v.items| <= high
              && (forall i :: 0 <= i < |v.items| ==> Accepts(v.items[i], item))
              && (forall i, k :: 0 <= i < k < |v.items| ==> v.items[i] != v.items[k])
  {
    var schema := ListSchema(item, low, high);
    ListLocal(v, item, low, high);
    AcceptsParts(v, schema);
    hide Accepts, LocalOk, WellFormed;
  }

  lemma ListLocal(v: Json, item: Json, low: int, high: int)
    requires WellFormed(item)
    ensures LocalOk(v, ListSchema(item, low, high)) <==>
              && v.Arr? && low <= |v.items| <= high
              && (forall i, k :: 0 <= i < k < |v.items| ==> v.items[i] != v.items[k])
  {
    hide WellFormed;
  }

  function ClosedObject(needed: string, fields: map<string, Json>): (r: Json)
    requires forall name :: name in fields ==> WellFormed(fields[name])
    ensures WellFormed(r)
  {
    Obj(map["type" := Str("object"), "required" := Arr([Str(needed)]), "properties" := Obj(fields),
            "additionalProperties" := Bool(false)])
  }

  /** A closed object: only declared fields may appear, the required one must, and each is accepted. */
  lemma ObjectExactly(v: Json, needed: string, fields: map<string, Json>)
    requires forall name :: name in fields ==> WellFormed(fields[name])
    ensures Accepts(v, ClosedObject(needed, fields)) <==>
              && v.Obj? && needed in v.members && v.members.Keys <= fields.Keys
              && forall name :: name in v.members && name in fields ==> Accepts(v.members[name], fields[name])
  {
    var schema := ClosedObject(needed, fields);
    ObjectLocal(v, needed, fields);
    AcceptsParts(v, schema);
    assert Properties(schema) == fields;
    hide Accepts, LocalOk, WellFormed;
  }

  lemma ObjectLocal(v: Json, needed: string, fields: map<string, Json>)
    requires forall name :: name in fields ==> WellFormed(fields[name])
    ensures LocalOk(v, ClosedObject(needed, fields)) <==>
      v.Obj? && needed in v.members && v.members.Keys <= fields.Keys
  {
    hide WellFormed;
  }

  /** A choice of texts: one of them and nothing else. */
  lemma ChoiceExactly(v: Json, choices: seq<string>)
    ensures var schema := Obj(map["enum" := Arr(seq(|choices|, i requires 0 <= i < |choices| => Str(choices[i])))]);
            WellFormed(schema) && (Accepts(v, schema) <==> v.Str? && v.s in choices)
  {
    var items := seq(|choices|, i requires 0 <= i < |choices| => Str(choices[i]));
    if v.Str? && v.s in choices {
      var k :| 0 <= k < |choices| && choices[k] == v.s;
      assert items[k] in items;
    }
  }

  /** A schema for one text field of limited length. */
  function Limited(field: string, limit: int): Json {
    Obj(map["properties" := Obj(map[field := Obj(map["maxLength" := Int(limit)])])])
  }

  lemma LimitedWellFormed(field: string, limit: int)
    ensures WellFormed(Limited(field, limit))
    ensures Properties(Limited(field, limit)) == map[field := Obj(map["maxLength" := Int(limit)])]
    ensures Limited(field, limit).members.Keys == {"properties"}
  {
  }

  lemma RelaxedField(limit: int, narrative: bool)
    ensures Relax(Obj(map["maxLength" := Int(limit)]), narrative) ==
      if narrative then Obj(map[]) else Obj(map["maxLength" := Int(limit)])
  {
    var inner := Obj(map["maxLength" := Int(limit)]);
    assert Relax(inner, narrative).members == if narrative then map[] else inner.members;
  }

  lemma TextWithin(text: string, limit: int)
    ensures WellFormed(Obj(map["maxLength" := Int(limit)]))
    ensures Accepts(Str(text), Obj(map["maxLength" := Int(limit)])) <==> |text| <= limit
  {
  }

  lemma RelaxedKeys(field: string, limit: int)
    requires WellFormed(Limited(field, limit)) && WellFormed(Relax(Limited(field, limit), false))
    ensures var r := Relax(Limited(field, limit), false);
            && r.members.Keys == {"properties"}
            && Properties(r) == map[field := Relax(Obj(map["maxLength" := Int(limit)]), field in NARRATIVE_FIELDS)]
  {
    var schema := Limited(field, limit);
    var r := Relax(schema, false);
    LimitedWellFormed(field, limit);
    KeepsChildren(schema, false);
    assert r.members.Keys == schema.members.Keys;
    hide Relax, NARRATIVE_FIELDS, WellFormed;
  }

  /** A schema that knows one field and demands nothing else. */
  lemma OneField(field: string, value: Json, schema: Json, inner: Json)
    requires WellFormed(schema) && schema.members.Keys == {"properties"}
    requires Properties(schema) == map[field := inner] && WellFormed(inner)
    ensures Accepts(Obj(map[field := value]), schema) <==> Accepts(value, inner)
  {
    var v := Obj(map[field := value]);
    assert v.members[field] == value;
  }

  lemma ProseOrShort(field: string, limit: int, text: string)
    ensures WellFormed(Limited(field, limit)) && WellFormed(Relax(Limited(field, limit), false))
    ensures Accepts(Obj(map[field := Str(text)]), Relax(Limited(field, limit), false)) <==>
      |text| <= limit || field in NARRATIVE_FIELDS
  {
    hide Relax, Accepts, WellFormed, Properties, NARRATIVE_FIELDS;
    var schema, prose := Limited(field, limit), field in NARRATIVE_FIELDS;
    LimitedWellFormed(field, limit);
    RelaxedWellFormed(schema, false);
    RelaxedKeys(field, limit);
    RelaxedField(limit, prose);
    TextWithin(text, limit);
    EmptyAcceptsAll(Str(text));
    OneField(field, Str(text), Relax(schema, false), if prose then Obj(map[]) else Obj(map["maxLength" := Int(limit)]));
  }

  lemma ProseFields(field: string)
    ensures field in NARRATIVE_FIELDS <==>
      field in {"acceptance_criteria", "context_note", "decisions_md_entry", "evidence_requirements", "goal",
                "instructions", "next_instructions", "reason", "remaining_risks", "reviewer_feedback",
                "selected_fanout_reason", "summary", "test_focus", "test_requirements", "title", "worker_feedback"}
  {
  }

  /** After the relaxation a field for prose takes a text of any length; every other field keeps its limit. */
  lemma ProseMayBeLong(field: string, limit: int, text: string)
    ensures WellFormed(Limited(field, limit)) && WellFormed(Relax(Limited(field, limit), false))
    ensures Accepts(Obj(map[field := Str(text)]), Relax(Limited(field, limit), false)) <==>
              || |text| <= limit
              || field in {"acceptance_criteria", "context_note", "decisions_md_entry", "evidence_requirements", "goal",
                           "instructions", "next_instructions", "reason", "remaining_risks", "reviewer_feedback",
                           "selected_fanout_reason", "summary", "test_focus", "test_requirements", "title",
                           "worker_feedback"}
  {
    hide *;
    ProseOrShort(field, limit, text);
    ProseFields(field);
  }

  /** No schema that is read below this one limits a text's length. */
  ghost predicate Unlimited(schema: Json)
    requires WellFormed(schema)
    decreases schema
  {
    && !Has(schema, "maxLength")
    && (Has(schema, "items") && schema.members["items"].Obj? ==> Unlimited(schema.members["items"]))
    && forall name :: name in Properties(schema) ==> Unlimited(Properties(schema)[name])
  }

  /** Below a field for prose every length limit is gone, at any depth: in lists, in objects of lists, and so on. */
  lemma ProseIsUnlimited(schema: Json, field: string, narrative: bool)
    requires WellFormed(schema) && field in Properties(schema) && field in NARRATIVE_FIELDS
    ensures WellFormed(Relax(schema, narrative)) && field in Properties(Relax(schema, narrative))
    ensures WellFormed(Properties(Relax(schema, narrative))[field])
    ensures Unlimited(Properties(Relax(schema, narrative))[field])
  {
    hide Relax, Unlimited, NARRATIVE_FIELDS;
    RelaxedWellFormed(schema, narrative);
    KeepsChildren(schema, narrative);
    NoLimitBelow(Properties(schema)[field]);
  }

  lemma {:induction false} NoLimitBelow(schema: Json)
    requires WellFormed(schema)
    ensures WellFormed(Relax(schema, true)) && Unlimited(Relax(schema, true))
    decreases schema
  {
    hide Relax, NARRATIVE_FIELDS;
    var r := Relax(schema, true);
    RelaxedWellFormed(schema, true);
    KeepsKey(schema, "maxLength", true);
    KeepsChildren(schema, true);
    if Has(schema, "items") && schema.members["items"].Obj? {
      NoLimitBelow(schema.members["items"]);
    }
    forall name | name in Properties(schema)
      ensures WellFormed(Relax(Properties(schema)[name], true)) && Unlimited(Relax(Properties(schema)[name], true))
    {
      NoLimitBelow(Properties(schema)[name]);
    }
    assert forall name :: name in Properties(r) ==> Properties(r)[name] == Relax(Properties(schema)[name], true);
  }
}
