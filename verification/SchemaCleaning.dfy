/** Cleaning of JSON schemas for Gemini (backend/internal/translator/schema.go). A schema is
    a tree of values; an object is given by its fields. */
module SchemaCleaning {
  import opened Basics

  datatype Json =
    | Null
    | Bool(value: bool)
    | Num(text: string)
    | Str(s: string)
    | Arr(items: seq<Json>)
    | StrArr(strs: seq<string>)
    | Obj(fields: Fields)

  type Fields = map<string, Json>

  const LIMITS: seq<string> := ["minLength", "maxLength", "exclusiveMinimum", "exclusiveMaximum", "minItems", "maxItems", "format", "multipleOf"]

  const CONTENTS: seq<string> := ["uniqueItems", "contains", "unevaluatedProperties", "unevaluatedItems", "contentSchema", "default", "examples"]

  const META: seq<string> := ["$schema", "$defs", "definitions", "const", "$ref", "$comment", "deprecated", "readOnly", "writeOnly"]

  const SHAPES: seq<string> := ["additionalProperties", "propertyNames", "patternProperties", "enumDescriptions", "allOf", "not"]

  const CONDITIONS: seq<string> := ["dependencies", "dependentSchemas", "dependentRequired", "title", "optional", "if", "then", "else",
                                    "contentMediaType", "contentEncoding"]

  const STYLES: seq<string> := ["cornerRadius", "fillColor", "fontFamily", "fontSize", "fontWeight", "gap", "padding", "strokeColor",
                                "strokeThickness", "textColor"]

  const UNSUPPORTED: seq<string> := LIMITS + CONTENTS + META + SHAPES + CONDITIONS + STYLES

  const REASON: Fields := map["type" := Str("string"), "description" := Str("Brief explanation of why you are calling this tool")]

  const PLACEHOLDER: Fields := map["reason" := Obj(REASON)]

  predicate VendorExtension(k: string) {
    |k| > 2 && k[0] == 'x' && k[1] == '-'
  }

  predicate Unsupported(k: string) {
    k in UNSUPPORTED || VendorExtension(k)
  }

  function Strip(m: Fields): Fields {
    map k | k in m && !Unsupported(k) :: m[k]
  }

  function TypedProperties(m: Fields): Fields {
    if "properties" in m && "type" !in m then m["type" := Str("object")] else m
  }

  /** The string an enum item becomes; `marshal` is json.Marshal of what is no string. */
  function ItemText(item: Json, marshal: Json -> Option<string>): seq<string> {
    if item.Str? then [item.s] else
    match marshal(item)
    case None => []
    case Some(b) => [if |b| >= 2 && b[0] == '"' && b[|b| - 1] == '"' then b[1..|b| - 1] else b]
  }

  function EnumTexts(items: seq<Json>, marshal: Json -> Option<string>): seq<string> {
    if items == [] then [] else EnumTexts(items[..|items| - 1], marshal) + ItemText(items[|items| - 1], marshal)
  }

  function TypedEnum(m: Fields, marshal: Json -> Option<string>): Fields {
    if "enum" in m && m["enum"].Arr? then
      var m' := m["enum" := StrArr(EnumTexts(m["enum"].items, marshal))];
      if "type" in m then m' else m'["type" := Str("string")]
    else m
  }

  predicate Eligible(item: Json) {
    item.Obj? && ("type" in item.fields ==> item.fields["type"] != Str("null"))
  }

  /** The first branch that is more than `type: null`. */
  function Branch(items: seq<Json>): (b: Option<Fields>)
    ensures b.Some? ==> Obj(b.value) in items
  {
    if items == [] then None else if Eligible(items[0]) then Some(items[0].fields) else Branch(items[1..])
  }

  /** The branch merged for `key`, if there is one. */
  function ChosenBranch(m: Fields, key: string): Option<Fields> {
    if key in m && m[key].Arr? then Branch(m[key].items) else None
  }

  function Flatten(m: Fields, key: string): Fields {
    match ChosenBranch(m, key)
    case Some(branch) => (m + branch) - {key}
    case None => m - {key}
  }

  function FirstType(items: seq<Json>): string {
    if items == [] then "string"
    else if items[0].Str? && items[0].s != "null" then (if items[0].s == "" then "string" else items[0].s)
    else FirstType(items[1..])
  }

  function SingleType(m: Fields): Fields {
    if "type" in m && m["type"].Arr? && m["type"].items != [] then m["type" := Str(FirstType(m["type"].items))] else m
  }

  function Properties(m: Fields): Fields {
    if "properties" in m && m["properties"].Obj? then m["properties"].fields else map[]
  }

  /** The required names that are properties. */
  function KnownNames(items: seq<Json>, props: Fields): seq<string> {
    if items == [] then []
    else
      var last := items[|items| - 1];
      KnownNames(items[..|items| - 1], props) + if last.Str? && last.s in props then [last.s] else []
  }

  function ValidRequired(m: Fields): Fields {
    if "required" !in m then m
    else if !m["required"].Arr? then m - {"required"}
    else
      var known := KnownNames(m["required"].items, Properties(m));
      if known == [] then m - {"required"} else m["required" := StrArr(known)]
  }

  function WithPlaceholder(m: Fields): Fields {
    m["properties" := Obj(PLACEHOLDER)]["required" := StrArr(["reason"])]
  }

  function FilledObject(m: Fields): Fields {
    if "type" in m && m["type"] == Str("object") && Properties(m) == map[] then WithPlaceholder(m)
    else if m == map[] then WithPlaceholder(map["type" := Str("object")])
    else m
  }

  /** One object made ready, its children not yet visited. */
  function Prepare(m: Fields, marshal: Json -> Option<string>): Fields {
    var typed := TypedEnum(TypedProperties(Strip(m)), marshal);
    FilledObject(ValidRequired(SingleType(Strip(Flatten(Flatten(typed, "anyOf"), "oneOf")))))
  }

  /** Where a value of a prepared object comes from: it is no container, it is the placeholder,
      or it lay strictly inside the object. */
  ghost predicate Inside(v: Json, m: Fields) {
    !(v.Obj? || v.Arr?) || v == Obj(PLACEHOLDER) || v < Obj(m)
  }

  lemma {:induction false} PreparedInside(m: Fields, marshal: Json -> Option<string>)
    ensures forall k :: k in Prepare(m, marshal) ==> Inside(Prepare(m, marshal)[k], m)
  {
    hide Unsupported, EnumTexts, FirstType, KnownNames, FilledObject, ValidRequired, Flatten;
    var typed := TypedEnum(TypedProperties(Strip(m)), marshal);
    assert forall k :: k in typed ==> Inside(typed[k], m);
    FlattenInside(typed, "anyOf", m);
    FlattenInside(Flatten(typed, "anyOf"), "oneOf", m);
    var flat := SingleType(Strip(Flatten(Flatten(typed, "anyOf"), "oneOf")));
    assert forall k :: k in flat ==> Inside(flat[k], m);
    FilledInside(flat, m);
  }

  lemma {:induction false} FlattenInside(t: Fields, key: string, m: Fields)
    requires forall k :: k in t ==> Inside(t[k], m)
    ensures forall k :: k in Flatten(t, key) ==> Inside(Flatten(t, key)[k], m)
  {
    if ChosenBranch(t, key).Some? {
      var b := ChosenBranch(t, key).value;
      assert Obj(b) < t[key] && t[key] < Obj(m);
      assert forall k :: k in b ==> b[k] < Obj(b);
    }
  }

  lemma {:induction false} FilledInside(t: Fields, m: Fields)
    requires forall k :: k in t ==> Inside(t[k], m)
    ensures var r := FilledObject(ValidRequired(t)); forall k :: k in r ==> Inside(r[k], m)
  {
    hide KnownNames;
  }

  // ----- recursion -----

  /** The names that preparation itself reads or writes. */
  predicate Known(k: string) {
    || k == "type" || k == "properties" || k == "required" || k == "reason" || k == "description"
    || k == "anyOf" || k == "oneOf"
  }

  lemma {:induction false} KnownAreSupported(k: string)
    requires Known(k)
    ensures !Unsupported(k)
  {
    assert k !in LIMITS + CONTENTS by {
      assert k !in LIMITS;
      assert k !in CONTENTS;
    }
    assert k !in META + SHAPES by {
      assert k !in META;
      assert k !in SHAPES;
    }
    assert k !in CONDITIONS + STYLES by {
      assert k !in CONDITIONS;
      assert k !in STYLES;
    }
  }

  lemma {:induction false} PlaceholderIsReady(marshal: Json -> Option<string>)
    ensures Prepare(PLACEHOLDER, marshal) == PLACEHOLDER
    ensures Prepare(REASON, marshal) == REASON
  {
    hide Unsupported;
    KnownAreSupported("reason");
    KnownAreSupported("type");
    KnownAreSupported("description");
    ReadyAsItIs(PLACEHOLDER, marshal);
    ReadyAsItIs(REASON, marshal);
  }

  /** Preparation leaves an object alone that it has nothing to say about. */
  lemma {:induction false} ReadyAsItIs(m: Fields, marshal: Json -> Option<string>)
    requires forall k :: k in m ==> !Unsupported(k) && k !in {"properties", "enum", "anyOf", "oneOf", "required"}
    requires m != map[] && ("type" in m ==> m["type"].Str? && m["type"] != Str("object"))
    ensures Prepare(m, marshal) == m
  {
    hide Unsupported;
    assert Strip(m) == m;
    assert m - {"anyOf"} == m && m - {"oneOf"} == m;
  }

  /** The placeholder is put into objects that lack properties; its own two levels come last. */
  function Height(m: Fields): nat {
    if m == REASON then 0 else if m == PLACEHOLDER then 1 else 2
  }

  /** `cleanGeminiSchema`: prepare the object, then its object children and the objects in
      its arrays. */
  function Clean(m: Fields, marshal: Json -> Option<string>): Fields
    decreases Height(m), Obj(m)
  {
    PreparedInside(m, marshal);
    PlaceholderIsReady(marshal);
    hide Prepare;
    var p := Prepare(m, marshal);
    map k | k in p ::
      match p[k]
      case Obj(f) => assert Inside(p[k], m); Obj(Clean(f, marshal))
      case Arr(items) =>
        assert Inside(p[k], m);
        Arr(seq(|items|, i requires 0 <= i < |items| => if items[i].Obj? then Obj(Clean(items[i].fields, marshal)) else items[i]))
      case other => other
  }

  function CleanValue(v: Json, marshal: Json -> Option<string>): Json {
    match v
    case Obj(f) => Obj(Clean(f, marshal))
    case Arr(items) => Arr(seq(|items|, i requires 0 <= i < |items| => if items[i].Obj? then Obj(Clean(items[i].fields, marshal)) else items[i]))
    case other => other
  }

  lemma {:induction false} CleanByValue(m: Fields, marshal: Json -> Option<string>)
    ensures Clean(m, marshal) == map k | k in Prepare(m, marshal) :: CleanValue(Prepare(m, marshal)[k], marshal)
  {
    hide Prepare;
    assert Clean(m, marshal).Keys == Prepare(m, marshal).Keys;
    forall k | k in Prepare(m, marshal) ensures Clean(m, marshal)[k] == CleanValue(Prepare(m, marshal)[k], marshal) {
      var v := Prepare(m, marshal)[k];
      if v.Arr? {
        assert Clean(m, marshal)[k].items == CleanValue(v, marshal).items;
      }
    }
  }

  // ----- the passes over one object -----

  method DropNames(schema: Fields, names: seq<string>) returns (s: Fields)
    ensures s == map k | k in schema && k !in names :: schema[k]
  {
    s := schema;
    for i := 0 to |names|
      invariant s == map k | k in schema && k !in names[..i] :: schema[k]
    {
      s := s - {names[i]};
    }
    assert names[..|names|] == names;
  }

  method DropExtensions(schema: Fields) returns (s: Fields)
    ensures s == map k | k in schema && !VendorExtension(k) :: schema[k]
  {
    s := schema;
    var keys := schema.Keys;
    while keys != {}
      invariant keys <= schema.Keys
      invariant s == map k | k in schema && (k in keys || !VendorExtension(k)) :: schema[k]
      decreases |keys|
    {
      var k := AnyElement(keys);
      keys := keys - {k};
      if VendorExtension(k) {
        s := s - {k};
      }
    }
  }

  method StripUnsupported(schema: Fields) returns (s: Fields)
    ensures s == Strip(schema)
  {
    hide VendorExtension;
    s := DropNames(schema, UNSUPPORTED);
    s := DropExtensions(s);
  }

  method ConvertEnum(items: seq<Json>, marshal: Json -> Option<string>) returns (strArr: seq<string>)
    ensures strArr == EnumTexts(items, marshal)
  {
    strArr := [];
    for i := 0 to |items|
      invariant strArr == EnumTexts(items[..i], marshal)
    {
      assert items[..i + 1][..i] == items[..i];
      if items[i].Str? {
        strArr := strArr + [items[i].s];
      } else {
        var b := marshal(items[i]);
        if b.Some? {
          if |b.value| >= 2 && b.value[0] == '"' && b.value[|b.value| - 1] == '"' {
            strArr := strArr + [b.value[1..|b.value| - 1]];
          } else {
            strArr := strArr + [b.value];
          }
        }
      }
    }
    assert items[..|items|] == items;
  }

  method FlattenBranches(schema: Fields, key: string) returns (s: Fields)
    ensures s == Flatten(schema, key)
  {
    s := schema;
    if key in s {
      if s[key].Arr? {
        var arr := s[key].items;
        var i := 0;
        assert arr[0..] == arr;
        while i < |arr|
          invariant 0 <= i <= |arr| && s == schema
          invariant Branch(arr) == Branch(arr[i..])
        {
          if Eligible(arr[i]) {
            s := s + arr[i].fields;
            break;
          }
          assert arr[i..][1..] == arr[i + 1..];
          i := i + 1;
        }
      }
      s := s - {key};
    } else {
      assert s - {key} == s;
    }
  }

  method FlattenType(items: seq<Json>) returns (t: string)
    ensures t == FirstType(items)
  {
    var firstValid, i := "", 0;
    assert items[0..] == items;
    while i < |items|
      invariant 0 <= i <= |items| && firstValid == ""
      invariant FirstType(items) == FirstType(items[i..])
    {
      if items[i].Str? && items[i].s != "null" {
        firstValid := items[i].s;
        break;
      }
      assert items[i..][1..] == items[i + 1..];
      i := i + 1;
    }
    t := if firstValid != "" then firstValid else "string";
  }

  method FilterRequired(items: seq<Json>, props: Fields) returns (validReqs: seq<string>)
    ensures validReqs == KnownNames(items, props)
  {
    validReqs := [];
    for i := 0 to |items|
      invariant validReqs == KnownNames(items[..i], props)
    {
      assert items[..i + 1][..i] == items[..i];
      if items[i].Str? && items[i].s in props {
        validReqs := validReqs + [items[i].s];
      }
    }
    assert items[..|items|] == items;
  }

  method FixEnum(schema: Fields, marshal: Json -> Option<string>) returns (s: Fields)
    ensures s == TypedEnum(schema, marshal)
  {
    s := schema;
    if "enum" in s && s["enum"].Arr? {
      var strArr := ConvertEnum(s["enum"].items, marshal);
      s := s["enum" := StrArr(strArr)];
      if "type" !in s {
        s := s["type" := Str("string")];
      }
    }
  }

  method FixRequired(schema: Fields) returns (s: Fields)
    ensures s == ValidRequired(schema)
  {
    s := schema;
    if "required" in s {
      if s["required"].Arr? {
        var validReqs := [];
        if "properties" in s && s["properties"].Obj? {
          validReqs := FilterRequired(s["required"].items, s["properties"].fields);
        } else {
          NothingKnown(s["required"].items);
        }
        if |validReqs| > 0 {
          s := s["required" := StrArr(validReqs)];
        } else {
          s := s - {"required"};
        }
      } else {
        s := s - {"required"};
      }
    }
  }

  method FillObject(schema: Fields) returns (s: Fields)
    ensures s == FilledObject(schema)
  {
    s := schema;
    if "type" in s && s["type"] == Str("object") {
      var needsPlaceholder := true;
      if "properties" in s && s["properties"].Obj? && s["properties"].fields != map[] {
        needsPlaceholder := false;
      }
      if needsPlaceholder {
        s := s["properties" := Obj(PLACEHOLDER)];
        s := s["required" := StrArr(["reason"])];
      }
    }
    if s == map[] {
      s := s["type" := Str("object")];
      s := s["properties" := Obj(PLACEHOLDER)];
      s := s["required" := StrArr(["reason"])];
    }
  }

  method PrepareSchema(schema: Fields, marshal: Json -> Option<string>) returns (s: Fields)
    ensures s == Prepare(schema, marshal)
  {
    hide Strip, Flatten, TypedEnum, FirstType, ValidRequired, FilledObject;
    s := StripUnsupported(schema);
    if "properties" in s && "type" !in s {
      s := s["type" := Str("object")];
    }
    s := FixEnum(s, marshal);
    s := FlattenBranches(s, "anyOf");
    s := FlattenBranches(s, "oneOf");
    s := StripUnsupported(s);
    if "type" in s && s["type"].Arr? && s["type"].items != [] {
      var t := FlattenType(s["type"].items);
      s := s["type" := Str(t)];
    }
    s := FixRequired(s);
    s := FillObject(s);
  }

  lemma {:induction false} PreparedPlaceholder(m: Fields, marshal: Json -> Option<string>)
    ensures m == PLACEHOLDER ==> forall k :: k in Prepare(m, marshal) ==> Prepare(m, marshal)[k] == Obj(REASON)
    ensures m == REASON ==> forall k :: k in Prepare(m, marshal) ==> Prepare(m, marshal)[k].Str?
  {
    hide Prepare;
    PlaceholderIsReady(marshal);
  }

  /** `cleanGeminiSchema`. The children are rebuilt where the original rewrites them in place. */
  method CleanGeminiSchema(schema: Fields, marshal: Json -> Option<string>) returns (s: Fields)
    ensures s == Clean(schema, marshal)
    decreases Height(schema), Obj(schema), 1
  {
    hide Prepare, Clean, CleanValue, Inside;
    PreparedInside(schema, marshal);
    PreparedPlaceholder(schema, marshal);
    CleanByValue(schema, marshal);
    s := PrepareSchema(schema, marshal);
    ghost var prepared := s;
    var keys := s.Keys;
    while keys != {}
      invariant keys <= prepared.Keys && s.Keys == prepared.Keys
      invariant forall k :: k in prepared ==> s[k] == if k in keys then prepared[k] else CleanValue(prepared[k], marshal)
      decreases |keys|
    {
      var k := AnyElement(keys);
      keys := keys - {k};
      var cleaned := CleanChild(s[k], schema, marshal);
      s := s[k := cleaned];
    }
  }

  method CleanChild(v: Json, schema: Fields, marshal: Json -> Option<string>) returns (r: Json)
    requires Inside(v, schema)
    requires schema == PLACEHOLDER ==> v == Obj(REASON)
    requires schema == REASON ==> !v.Obj? && !v.Arr?
    ensures r == CleanValue(v, marshal)
    decreases Height(schema), Obj(schema), 0
  {
    hide Clean;
    r := v;
    match v
    case Obj(child) =>
      var cleaned := CleanGeminiSchema(child, marshal);
      r := Obj(cleaned);
    case Arr(child) =>
      var elems := child;
      for i := 0 to |child|
        invariant |elems| == |child|
        invariant forall j :: i <= j < |child| ==> elems[j] == child[j]
        invariant forall j :: 0 <= j < i ==> elems[j] == if child[j].Obj? then Obj(Clean(child[j].fields, marshal)) else child[j]
      {
        if child[i].Obj? {
          var cleaned := CleanGeminiSchema(child[i].fields, marshal);
          elems := elems[i := Obj(cleaned)];
        }
      }
      r := Arr(elems);
    case _ =>
  }

  lemma {:induction false} NothingKnown(items: seq<Json>)
    ensures KnownNames(items, map[]) == []
  {
    if items != [] {
      NothingKnown(items[..|items| - 1]);
    }
  }

  // ----- what is left -----

  predicate Gone(k: string) {
    Unsupported(k) || k == "oneOf"
  }

  predicate TidyObject(m: Fields) {
    && m != map[]
    && (forall k :: k in m ==> !Gone(k))
    && ("type" in m && m["type"].Arr? ==> m["type"].items == [])
    && ("type" in m && m["type"] == Str("object") ==> Properties(m) != map[])
  }

  /** Every object reachable through objects and through arrays of objects is tidy. */
  predicate Tidy(m: Fields)
    decreases Obj(m)
  {
    && TidyObject(m)
    && forall k :: k in m ==>
         match m[k]
         case Obj(f) => Tidy(f)
         case Arr(items) => forall i :: 0 <= i < |items| && items[i].Obj? ==> Tidy(items[i].fields)
         case _ => true
  }

  lemma {:induction false} FlattenDrops(m: Fields, key: string)
    ensures key !in Flatten(m, key)
  {
  }

  lemma {:induction false} PreparedIsTidy(m: Fields, marshal: Json -> Option<string>)
    ensures TidyObject(Prepare(m, marshal))
  {
    hide Unsupported, EnumTexts, FirstType, KnownNames;
    KnownAreSupported("type");
    KnownAreSupported("properties");
    KnownAreSupported("required");
    var t := Flatten(TypedEnum(TypedProperties(Strip(m)), marshal), "anyOf");
    FlattenDrops(t, "oneOf");
    FilledIsTidy(SingleType(Strip(Flatten(t, "oneOf"))));
  }

  lemma {:induction false} FilledIsTidy(t: Fields)
    requires forall k :: k in t ==> !Gone(k)
    requires "type" in t && t["type"].Arr? ==> t["type"].items == []
    ensures TidyObject(FilledObject(ValidRequired(t)))
  {
    hide Unsupported, KnownNames;
    KnownAreSupported("type");
    KnownAreSupported("properties");
    KnownAreSupported("required");
    assert "reason" in PLACEHOLDER;
  }

  /** Cleaning the children of a tidy object leaves it tidy. */
  lemma {:induction false} StaysTidy(p: Fields, c: Fields)
    requires TidyObject(p) && c.Keys == p.Keys
    requires forall k :: k in p ==> if p[k].Obj? then c[k].Obj? && c[k].fields != map[]
                                    else if p[k].Arr? then c[k].Arr? && |c[k].items| == |p[k].items| else c[k] == p[k]
    ensures TidyObject(c)
  {
    hide Unsupported;
    assert forall k :: k in c ==> !Gone(k);
    assert c != map[] by {
      assert c.Keys != {};
    }
  }

  /** Of every schema: no unsupported keyword, no vendor extension and no oneOf is left at
      any depth, whatever the merged branches brought back in; no object is empty; and
      whatever calls itself an object has properties. */
  lemma {:induction false} CleanIsTidy(m: Fields, marshal: Json -> Option<string>)
    ensures Tidy(Clean(m, marshal))
    decreases Height(m), Obj(m)
  {
    hide Prepare, Clean, TidyObject;
    PreparedInside(m, marshal);
    PlaceholderIsReady(marshal);
    PreparedIsTidy(m, marshal);
    CleanByValue(m, marshal);
    var p, c := Prepare(m, marshal), Clean(m, marshal);
    assert c.Keys == p.Keys;
    forall k | k in p
      ensures p[k].Obj? ==> c[k].Obj? && Tidy(c[k].fields) && c[k].fields != map[]
      ensures p[k].Arr? ==> c[k].Arr? && |c[k].items| == |p[k].items|
                            && forall i :: 0 <= i < |c[k].items| && c[k].items[i].Obj? ==> Tidy(c[k].items[i].fields)
      ensures !p[k].Obj? && !p[k].Arr? ==> c[k] == p[k]
    {
      assert Inside(p[k], m);
      if p[k].Obj? {
        CleanIsTidy(p[k].fields, marshal);
        TidyIsNotEmpty(c[k].fields);
      } else if p[k].Arr? {
        forall i | 0 <= i < |p[k].items| && p[k].items[i].Obj? ensures Tidy(Clean(p[k].items[i].fields, marshal)) {
          CleanIsTidy(p[k].items[i].fields, marshal);
        }
      }
    }
    StaysTidy(p, c);
  }

  lemma {:induction false} TidyIsNotEmpty(m: Fields)
    requires Tidy(m)
    ensures m != map[]
  {
  }

  // ----- what survives -----

  function Typed(m: Fields, marshal: Json -> Option<string>): Fields {
    TypedEnum(TypedProperties(Strip(m)), marshal)
  }

  function Finished(t: Fields): Fields {
    FilledObject(ValidRequired(SingleType(Strip(t))))
  }

  lemma {:induction false} TypedKeeps(m: Fields, k: string, marshal: Json -> Option<string>)
    ensures k != "type" ==> (k in Typed(m, marshal) <==> k in m && !Unsupported(k))
    ensures k in Typed(m, marshal) && k in m && (m[k].Obj? || (k != "type" && k != "enum")) ==> Typed(m, marshal)[k] == m[k]
    ensures k in m && !Unsupported(k) ==> k in Typed(m, marshal)
    ensures k == "type" && k in Typed(m, marshal) && k !in m ==> Typed(m, marshal)[k].Str?
  {
    hide Unsupported, EnumTexts;
    KnownAreSupported("type");
  }

  lemma {:induction false} FinishedKeeps(t: Fields, k: string)
    ensures k !in {"type", "properties", "required"} ==> (k in Finished(t) <==> k in t && !Unsupported(k))
    ensures k in t && !Unsupported(k) && t[k].Obj? && k != "required" ==> k in Finished(t) && Finished(t)[k].Obj?
    ensures k in t && k in Finished(t) && k !in {"type", "properties", "required"} ==> Finished(t)[k] == t[k]
    ensures k == "required" && k in Finished(t) ==> Finished(t)[k].StrArr?
  {
    hide Unsupported, FirstType, KnownNames;
    KnownAreSupported("properties");
  }

  lemma {:induction false} PropertiesFinished(t: Fields)
    requires Properties(t) != map[]
    ensures Properties(Finished(t)) == Properties(t)
    ensures "required" in t && t["required"].Arr? && KnownNames(t["required"].items, Properties(t)) != [] ==>
              "required" in Finished(t) && Finished(t)["required"] == StrArr(KnownNames(t["required"].items, Properties(t)))
  {
    hide Unsupported, FirstType, KnownNames;
    KnownAreSupported("properties");
    KnownAreSupported("required");
    var ready := ValidRequired(SingleType(Strip(t)));
    assert "properties" in ready && Properties(ready) == Properties(t);
  }

  /** What the first merge leaves to the second one. */
  function AfterAnyOf(m: Fields): Fields {
    match ChosenBranch(m, "anyOf")
    case Some(branch) => m + branch
    case None => m
  }

  /** An anyOf is left at the top exactly when the branch merged for oneOf has one: anyOf
      is flattened first and not again. */
  lemma {:induction false} AnyOfStaysIff(m: Fields, marshal: Json -> Option<string>)
    ensures var branch := ChosenBranch(AfterAnyOf(m), "oneOf");
            "anyOf" in Clean(m, marshal) <==> branch.Some? && "anyOf" in branch.value
  {
    hide Unsupported, Branch, Typed, Finished, Clean, CleanValue, Flatten, ChosenBranch, AfterAnyOf;
    CleanByValue(m, marshal);
    KnownAreSupported("anyOf");
    KnownAreSupported("oneOf");
    TypedKeeps(m, "anyOf", marshal);
    TypedKeeps(m, "oneOf", marshal);
    var t := Typed(m, marshal);
    var flat := Flatten(Flatten(t, "anyOf"), "oneOf");
    assert Prepare(m, marshal) == Finished(flat) by {
      PreparedInStages(m, marshal);
    }
    hide Prepare;
    SecondBranch(m, t);
    FinishedKeeps(flat, "anyOf");
  }

  lemma {:induction false} SecondBranch(m: Fields, t: Fields)
    requires forall k :: k == "anyOf" || k == "oneOf" ==> (k in t <==> k in m) && (k in m ==> t[k] == m[k])
    ensures ChosenBranch(Flatten(t, "anyOf"), "oneOf") == ChosenBranch(AfterAnyOf(m), "oneOf")
    ensures var branch := ChosenBranch(AfterAnyOf(m), "oneOf");
            "anyOf" in Flatten(Flatten(t, "anyOf"), "oneOf") <==> branch.Some? && "anyOf" in branch.value
  {
    hide Branch;
    assert ChosenBranch(t, "anyOf") == ChosenBranch(m, "anyOf");
  }

  lemma {:induction false} PreparedInStages(m: Fields, marshal: Json -> Option<string>)
    ensures Prepare(m, marshal) == Finished(Flatten(Flatten(Typed(m, marshal), "anyOf"), "oneOf"))
  {
    hide Strip, TypedEnum, TypedProperties, FilledObject, ValidRequired, SingleType, Flatten;
  }

  /** The schema after both merges. */
  function Merged(m: Fields): Fields {
    Flatten(Flatten(m, "anyOf"), "oneOf")
  }

  /** The parameters declared, by the schema itself or by a branch merged into it. */
  function Parameters(m: Fields): Fields {
    Properties(Merged(m))
  }

  ghost predicate Same(a: Fields, b: Fields, k: string) {
    (k in a <==> k in b) && (k in a ==> a[k] == b[k])
  }

  lemma {:induction false} FlattenSame(a: Fields, b: Fields, key: string, k: string)
    requires Same(a, b, key)
    ensures Same(a, b, k) ==> Same(Flatten(a, key), Flatten(b, key), k)
    ensures (k in a <==> k in b) ==> (k in Flatten(a, key) <==> k in Flatten(b, key))
    ensures k in a && k != key ==> k in Flatten(a, key)
  {
    hide Branch;
  }

  /** Making types explicit does not get in the way of the merges. */
  lemma {:induction false} MergedKeeps(m: Fields, k: string, marshal: Json -> Option<string>)
    requires !Unsupported(k)
    ensures var t := Merged(Typed(m, marshal));
            && (k != "type" ==> (k in t <==> k in Merged(m)))
            && (k == "type" && k in m ==> k in t && k in Merged(m))
            && (k != "type" && k != "enum" ==> Same(t, Merged(m), k))
  {
    hide Unsupported, Typed, Flatten;
    KnownAreSupported("anyOf");
    KnownAreSupported("oneOf");
    TypedKeeps(m, "anyOf", marshal);
    TypedKeeps(m, "oneOf", marshal);
    TypedKeeps(m, k, marshal);
    var t := Typed(m, marshal);
    FlattenSame(t, m, "anyOf", "oneOf");
    FlattenSame(t, m, "anyOf", k);
    FlattenSame(m, t, "anyOf", k);
    FlattenSame(Flatten(t, "anyOf"), Flatten(m, "anyOf"), "oneOf", k);
    FlattenSame(Flatten(m, "anyOf"), Flatten(t, "anyOf"), "oneOf", k);
  }

  lemma {:induction false} PropertiesKept(m: Fields, marshal: Json -> Option<string>)
    requires Parameters(m) != map[]
    ensures Properties(Prepare(m, marshal)) == Parameters(m)
    ensures var merged := Merged(m);
            "required" in merged && merged["required"].Arr? && KnownNames(merged["required"].items, Parameters(m)) != [] ==>
              "required" in Prepare(m, marshal) && Prepare(m, marshal)["required"] == StrArr(KnownNames(merged["required"].items, Parameters(m)))
  {
    hide Unsupported, KnownNames, Prepare, Typed, Finished, Flatten;
    KnownAreSupported("properties");
    KnownAreSupported("required");
    MergedKeeps(m, "properties", marshal);
    MergedKeeps(m, "required", marshal);
    PreparedInStages(m, marshal);
    PropertiesFinished(Merged(Typed(m, marshal)));
  }

  lemma {:induction false} FinishedHolds(t: Fields, k: string)
    requires k != "required"
    ensures Unsupported(k) ==> k !in Finished(t)
    ensures !Unsupported(k) && k in t ==> k in Finished(t)
    ensures k != "type" && k != "properties" && k in Finished(t) ==> k in t
  {
    hide Unsupported, FirstType, KnownNames, Known;
    KnownAreSupported("type");
    KnownAreSupported("properties");
    var ready := SingleType(Strip(t));
    assert k in ready <==> k in t && !Unsupported(k);
    hide Strip, SingleType;
  }

  lemma {:induction false} MergedDrops(m: Fields, k: string)
    requires k in m && k != "anyOf" && k != "oneOf"
    ensures k in Merged(m)
  {
    hide Branch;
  }

  lemma {:induction false} ParametersKept(props: Fields, p: string, marshal: Json -> Option<string>)
    requires p in props && p != "required"
    ensures p in Prepare(props, marshal) <==> p in Merged(props) && !Unsupported(p)
  {
    hide Unsupported, Prepare, Typed, Finished, Flatten, Merged;
    PreparedInStages(props, marshal);
    var t := Merged(Typed(props, marshal));
    assert Prepare(props, marshal) == Finished(t) by {
      MergedIs(Typed(props, marshal));
    }
    FinishedHolds(t, p);
    if !Unsupported(p) {
      MergedKeeps(props, p, marshal);
      if p == "properties" {
        MergedDrops(props, p);
      }
    }
  }

  lemma {:induction false} MergedIs(m: Fields)
    ensures Merged(m) == Flatten(Flatten(m, "anyOf"), "oneOf")
  {
  }

  lemma {:induction false} NamedAreKnown(items: seq<Json>, props: Fields, p: string)
    requires Str(p) in items && p in props
    ensures p in KnownNames(items, props)
  {
    var n := |items| - 1;
    if items[n] != Str(p) {
      assert items == items[..n] + [items[n]];
      NamedAreKnown(items[..n], props, p);
    }
  }

  /** Of every schema and each of its parameters: the parameter is still there exactly when its
      name is no keyword that is removed and not an anyOf or oneOf that is merged away; only a
      list of names can be left of one called `required`. And a parameter that was
      required stays required even when it is gone. */
  lemma {:induction false} ParameterSurvivesIff(m: Fields, p: string, marshal: Json -> Option<string>)
    requires p in Parameters(m)
    ensures var kept := Properties(Clean(m, marshal));
            if p == "required" then p in kept ==> kept[p].StrArr?
            else p in kept <==> p in Merged(Parameters(m)) && !Unsupported(p)
    ensures var merged := Merged(m);
            "required" in merged && merged["required"].Arr? && Str(p) in merged["required"].items ==>
              "required" in Clean(m, marshal) && Clean(m, marshal)["required"].StrArr? && p in Clean(m, marshal)["required"].strs
  {
    hide Prepare, Clean, KnownNames, Merged, Unsupported;
    PropertiesKept(m, marshal);
    CleanByValue(m, marshal);
    CleanByValue(Parameters(m), marshal);
    if p == "required" {
      RequiredIsNames(Parameters(m), marshal);
    } else {
      ParametersKept(Parameters(m), p, marshal);
    }
    if "required" in Merged(m) && Merged(m)["required"].Arr? && Str(p) in Merged(m)["required"].items {
      NamedAreKnown(Merged(m)["required"].items, Parameters(m), p);
    }
  }

  lemma {:induction false} RequiredIsNames(m: Fields, marshal: Json -> Option<string>)
    ensures "required" in Prepare(m, marshal) ==> Prepare(m, marshal)["required"].StrArr?
  {
    hide Typed, Finished, Flatten, Prepare;
    PreparedInStages(m, marshal);
    FinishedKeeps(Flatten(Flatten(Typed(m, marshal), "anyOf"), "oneOf"), "required");
  }

  /** A parameter called `title`, required, is gone and still required. */
  lemma {:induction false} TitleIsLost(marshal: Json -> Option<string>)
    ensures var m := map["type" := Str("object"), "properties" := Obj(map["title" := Obj(map["type" := Str("string")])]),
                         "required" := Arr([Str("title")])];
            var c := Clean(m, marshal);
            && "title" in Properties(m) && "title" !in Properties(c)
            && "required" in c && c["required"].StrArr? && "title" in c["required"].strs
  {
    hide Clean, Unsupported;
    var m: Fields := map["type" := Str("object"), "properties" := Obj(map["title" := Obj(map["type" := Str("string")])]),
                         "required" := Arr([Str("title")])];
    assert m - {"anyOf"} == m && m - {"oneOf"} == m;
    assert Merged(m) == m;
    ParameterSurvivesIff(m, "title", marshal);
    TitleIsUnsupported();
  }

  lemma {:induction false} TitleIsUnsupported()
    ensures Unsupported("title")
  {
    assert CONDITIONS[3] == "title";
    assert "title" in CONDITIONS;
  }

  /** An anyOf inside the branch taken for oneOf is back in the result. */
  lemma {:induction false} AnyOfComesBack(marshal: Json -> Option<string>)
    ensures var m := map["oneOf" := Arr([Obj(map["anyOf" := Arr([])])])];
            "anyOf" !in m && "anyOf" in Clean(m, marshal)
  {
    hide Clean;
    var branch: Fields := map["anyOf" := Arr([])];
    var m := map["oneOf" := Arr([Obj(branch)])];
    assert Branch([Obj(branch)]) == Some(branch);
    AnyOfStaysIff(m, marshal);
  }
}
