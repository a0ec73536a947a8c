/** The input type a tool is derived from (agent/tool.go:248-347) and how an admitted input is decoded
    into it (agent/tool.go:102-116). Case folding and the classes of letters and digits are the
    Unicode tables' business and stay parameters; every statement holds for all of them. */
module InputSchema {
  import opened Prelude
  import opened ToolInput

  datatype Unicode = Unicode(fold: string -> string, letterOrDigit: char -> bool)

  datatype Kind = StringKind | BoolKind | FloatKind | OtherKind

  datatype SchemaOption = Required | Description(text: string) | Empty | Unsupported

  /** A json tag split at its commas, which yields at least one part. */
  type Tag = parts: seq<string> | parts != [] witness [""]

  /** One struct field. */
  datatype Field = Field(
    name: string, anonymous: bool, exported: bool, tag: Tag, custom: bool, kind: Kind, schema: seq<SchemaOption>)

  datatype Property = Property(kind: Kind, description: Option<string>)

  datatype Schema = Schema(properties: map<string, Property>, allowed: set<string>, required: seq<string>)

  const PUNCTUATION := "!#$%&()*+-./:;<=>?@[]^_{|}~ "

  predicate ValidTagName(u: Unicode, name: string) {
    name != "" && forall i | 0 <= i < |name| :: name[i] in PUNCTUATION || u.letterOrDigit(name[i])
  }

  function TagName(f: Field): string {
    f.tag[0]
  }

  /** Fields left out of the schema. The JSON decoder does not see them either, but for one: the tag `-,`
      makes a field named "-". No member reaches it, because the key check refuses that name. */
  predicate Skipped(f: Field) {
    !f.exported || TagName(f) == "-"
  }

  function EffectiveName(f: Field): string {
    if TagName(f) != "" then TagName(f) else f.name
  }

  predicate KnownOption(option: string) {
    option == "" || option == "omitempty" || option == "omitzero"
  }

  predicate SchemaSupported(options: seq<SchemaOption>) {
    forall i | 0 <= i < |options| :: !options[i].Unsupported?
  }

  /** A field that is not skipped can become a property. */
  predicate Describable(u: Unicode, f: Field) {
    && (TagName(f) != "" ==> ValidTagName(u, TagName(f)))
    && (forall i | 1 <= i < |f.tag| :: KnownOption(f.tag[i]))
    && !f.custom && !f.kind.OtherKind?
    && SchemaSupported(f.schema)
  }

  /** `required` repeats the name once per option, as the code does. */
  function RequiredBy(name: string, options: seq<SchemaOption>): seq<string> {
    if options == [] then []
    else (if options[0].Required? then [name] else []) + RequiredBy(name, options[1..])
  }

  function DescriptionIn(options: seq<SchemaOption>, before: Option<string>): Option<string> {
    if options == [] then before
    else DescriptionIn(options[1..], if options[0].Description? then Some(options[0].text) else before)
  }

  function PropertyOf(f: Field): Property {
    Property(f.kind, DescriptionIn(f.schema, None))
  }

  /** `parseSchemaTag`. */
  method ParseSchemaTag(options: seq<SchemaOption>, name: string, property: Property, required: seq<string>)
    returns (ok: bool, property': Property, required': seq<string>)
    ensures ok <==> SchemaSupported(options)
    ensures ok ==> property' == property.(description := DescriptionIn(options, property.description))
    ensures ok ==> required' == required + RequiredBy(name, options)
  {
    property', required' := property, required;
    for i := 0 to |options|
      invariant SchemaSupported(options[..i])
      invariant property'.kind == property.kind
      invariant DescriptionIn(options[i..], property'.description) == DescriptionIn(options, property.description)
      invariant required' + RequiredBy(name, options[i..]) == required + RequiredBy(name, options)
    {
      assert options[i..][0] == options[i] && options[i..][1..] == options[i + 1..];
      assert options[..i + 1] == options[..i] + [options[i]];
      match options[i]
      case Required => required' := required' + [name];
      case Description(text) => property' := property'.(description := Some(text));
      case Empty =>
      case Unsupported =>
        ok := false;
        assert options[..i + 1][i].Unsupported?;
        return;
    }
    assert options[..|options|] == options;
    ok := true;
  }

  /** No two visible names are equal up to case. */
  predicate FoldDistinct(u: Unicode, fields: seq<Field>) {
    forall i, j | 0 <= i < j < |fields| && !Skipped(fields[i]) && !Skipped(fields[j]) ::
      u.fold(EffectiveName(fields[i])) != u.fold(EffectiveName(fields[j]))
  }

  predicate AllDescribable(u: Unicode, fields: seq<Field>) {
    forall i | 0 <= i < |fields| :: !fields[i].anonymous && (Skipped(fields[i]) || Describable(u, fields[i]))
  }

  function Names(fields: seq<Field>): set<string> {
    set i | 0 <= i < |fields| && !Skipped(fields[i]) :: EffectiveName(fields[i])
  }

  /** The schema lists exactly the visible fields, each under its own name. */
  ghost predicate Describes(schema: Schema, fields: seq<Field>) {
    && schema.allowed == Names(fields) && schema.properties.Keys == Names(fields)
    && forall i | 0 <= i < |fields| && !Skipped(fields[i]) ::
         EffectiveName(fields[i]) in schema.properties
         && schema.properties[EffectiveName(fields[i])] == PropertyOf(fields[i])
  }

  function RequiredIn(fields: seq<Field>): seq<string> {
    if fields == [] then []
    else
      var last := fields[|fields| - 1];
      RequiredIn(fields[..|fields| - 1]) + (if Skipped(last) then [] else RequiredBy(EffectiveName(last), last.schema))
  }

  lemma NamesAppend(fields: seq<Field>, f: Field)
    ensures Names(fields + [f]) == Names(fields) + (if Skipped(f) then {} else {EffectiveName(f)})
  {
    var more := fields + [f];
    assert more[|fields|] == f;
    forall name | name in Names(fields) ensures name in Names(more) {
      var i :| 0 <= i < |fields| && !Skipped(fields[i]) && EffectiveName(fields[i]) == name;
      assert more[i] == fields[i];
    }
    forall name | name in Names(more) && name !in Names(fields) ensures !Skipped(f) && name == EffectiveName(f) {
      var i :| 0 <= i < |more| && !Skipped(more[i]) && EffectiveName(more[i]) == name;
      assert i < |fields| ==> more[i] == fields[i];
    }
  }

  lemma NameIsListed(fields: seq<Field>, i: nat)
    requires i < |fields| && !Skipped(fields[i])
    ensures EffectiveName(fields[i]) in Names(fields)
  {
  }

  /** A visible field added to described fields is described, if its name is new up to case. */
  lemma DescribesMore(u: Unicode, schema: Schema, fields: seq<Field>, f: Field)
    requires Describes(schema, fields) && !Skipped(f)
    requires forall name | name in Names(fields) :: u.fold(name) != u.fold(EffectiveName(f))
    ensures EffectiveName(f) !in Names(fields)
    ensures Describes(
              Schema(schema.properties[EffectiveName(f) := PropertyOf(f)], schema.allowed + {EffectiveName(f)}, schema.required),
              fields + [f])
    ensures FoldDistinct(u, fields) ==> FoldDistinct(u, fields + [f])
  {
    var more := fields + [f];
    NamesAppend(fields, f);
    forall i | 0 <= i < |fields| && !Skipped(fields[i]) ensures EffectiveName(fields[i]) in Names(fields) {
      NameIsListed(fields, i);
    }
    assert more[|fields|] == f;
    assert forall i | 0 <= i < |fields| :: more[i] == fields[i];
  }

  lemma SkippedAddsNothing(u: Unicode, schema: Schema, fields: seq<Field>, f: Field)
    requires Describes(schema, fields) && Skipped(f)
    ensures Describes(schema, fields + [f])
    ensures FoldDistinct(u, fields) ==> FoldDistinct(u, fields + [f])
  {
    var more := fields + [f];
    NamesAppend(fields, f);
    assert Names(more) == Names(fields);
    assert more[|fields|] == f && forall i | 0 <= i < |fields| :: more[i] == fields[i];
  }

  /** A name met before, up to case, spoils the whole type. */
  lemma RepeatedName(u: Unicode, fields: seq<Field>, i: nat, existing: string)
    requires i < |fields| && !Skipped(fields[i])
    requires existing in Names(fields[..i]) && u.fold(existing) == u.fold(EffectiveName(fields[i]))
    ensures !FoldDistinct(u, fields)
  {
    var j :| 0 <= j < i && !Skipped(fields[..i][j]) && EffectiveName(fields[..i][j]) == existing;
    assert fields[j] == fields[..i][j];
  }

  /** What the loop has established about the fields it has passed. */
  ghost predicate Progress(u: Unicode, done: seq<Field>, schema: Schema) {
    AllDescribable(u, done) && FoldDistinct(u, done) && Describes(schema, done) && schema.required == RequiredIn(done)
  }

  lemma ProgressSkips(u: Unicode, done: seq<Field>, schema: Schema, f: Field)
    requires Progress(u, done, schema) && !f.anonymous && Skipped(f)
    ensures Progress(u, done + [f], schema)
  {
    SkippedAddsNothing(u, schema, done, f);
    assert (done + [f])[..|done|] == done;
  }

  lemma ProgressAdds(u: Unicode, done: seq<Field>, schema: Schema, f: Field, required: seq<string>)
    requires Progress(u, done, schema) && !f.anonymous && !Skipped(f) && Describable(u, f)
    requires forall name | name in Names(done) :: u.fold(name) != u.fold(EffectiveName(f))
    requires required == schema.required + RequiredBy(EffectiveName(f), f.schema)
    ensures Progress(u, done + [f], Schema(schema.properties[EffectiveName(f) := PropertyOf(f)],
                                           schema.allowed + {EffectiveName(f)}, required))
  {
    DescribesMore(u, schema, done, f);
    assert (done + [f])[..|done|] == done;
  }

  lemma Blocked(u: Unicode, fields: seq<Field>, i: nat)
    requires i < |fields| && (fields[i].anonymous || !(Skipped(fields[i]) || Describable(u, fields[i])))
    ensures !AllDescribable(u, fields)
  {
  }

  /** `validJSONTagName`. */
  method ValidateTagName(u: Unicode, name: string) returns (ok: bool)
    ensures ok <==> ValidTagName(u, name)
  {
    for i := 0 to |name|
      invariant forall j | 0 <= j < i :: name[j] in PUNCTUATION || u.letterOrDigit(name[j])
    {
      if name[i] in "!#$%&()*+-./:;<=>?@[]^_{|}~ " || u.letterOrDigit(name[i]) {
        continue;
      }
      return false;
    }
    ok := name != "";
  }

  /** The options after the name in a json tag. */
  method CheckTagOptions(tag: Tag) returns (ok: bool)
    ensures ok <==> forall i | 1 <= i < |tag| :: KnownOption(tag[i])
  {
    for i := 1 to |tag|
      invariant forall j | 1 <= j < i :: KnownOption(tag[j])
    {
      if tag[i] != "" && tag[i] != "omitempty" && tag[i] != "omitzero" {
        return false;
      }
    }
    ok := true;
  }

  /** The name of a field that is not skipped, if its json tag is in order. */
  method NameField(u: Unicode, f: Field) returns (name: Option<string>)
    ensures name.Some? <==> (TagName(f) != "" ==> ValidTagName(u, TagName(f))) && forall i | 1 <= i < |f.tag| :: KnownOption(f.tag[i])
    ensures name.Some? ==> name.value == EffectiveName(f)
  {
    var chosen := f.name;
    if f.tag[0] != "" {
      var valid := ValidateTagName(u, f.tag[0]);
      if !valid {
        return None;
      }
      chosen := f.tag[0];
    }
    var known := CheckTagOptions(f.tag);
    name := if known then Some(chosen) else None;
  }

  /** `describeInput`, for a root type that is a named struct or not, with or without its own decoding. */
  method DescribeInput(u: Unicode, namedStruct: bool, custom: bool, fields: seq<Field>) returns (r: Option<Schema>)
    ensures r.Some? <==> namedStruct && !custom && AllDescribable(u, fields) && FoldDistinct(u, fields)
    ensures r.Some? ==> Describes(r.value, fields) && r.value.required == RequiredIn(fields)
  {
    if !namedStruct || custom {
      return None;
    }
    var schema := Schema(map[], {}, []);
    for i := 0 to |fields|
      invariant Progress(u, fields[..i], schema)
    {
      var f := fields[i];
      assert fields[..i + 1] == fields[..i] + [f];
      if f.anonymous {
        Blocked(u, fields, i);
        return None;
      }
      if !f.exported || f.tag[0] == "-" {
        ProgressSkips(u, fields[..i], schema, f);
        continue;
      }
      var named := NameField(u, f);
      if named.None? {
        Blocked(u, fields, i);
        return None;
      }
      var name := named.value;
      if exists existing :: existing in schema.allowed && u.fold(existing) == u.fold(name) {
        ghost var existing :| existing in schema.allowed && u.fold(existing) == u.fold(name);
        RepeatedName(u, fields, i, existing);
        return None;
      }
      var ok, property, required := ParseSchemaTag(f.schema, name, Property(f.kind, None), schema.required);
      if f.custom || f.kind.OtherKind? || !ok {
        Blocked(u, fields, i);
        return None;
      }
      ProgressAdds(u, fields[..i], schema, f, required);
      schema := Schema(schema.properties[name := property], schema.allowed + {name}, required);
    }
    assert fields[..|fields|] == fields;
    r := Some(schema);
  }

  // ---- decoding -------------------------------------------------------------

  /** The decoder's choice among the names `names`, in field order: an exact match first, else the
      first that is equal up to case. */
  function Target(u: Unicode, names: seq<string>, key: string): Option<string> {
    if key in names then Some(key) else FoldTarget(u, names, key)
  }

  function FoldTarget(u: Unicode, names: seq<string>, key: string): Option<string> {
    if names == [] then None
    else if u.fold(names[0]) == u.fold(key) then Some(names[0])
    else FoldTarget(u, names[1..], key)
  }

  /** `decoder.Decode` into a struct with unknown fields disallowed: each member goes to its target if
      its value fits there, and a later member overwrites an earlier one. */
  function Decode(u: Unicode, names: seq<string>, fits: (string, Lexeme) -> bool, members: seq<Member>, into: map<string, Lexeme>)
    : Option<map<string, Lexeme>>
    decreases |members|
  {
    if members == [] then Some(into)
    else
      match Target(u, names, members[0].name)
      case None => None
      case Some(field) =>
        if fits(field, members[0].value) then Decode(u, names, fits, members[1..], into[field := members[0].value])
        else None
  }

  predicate AllFit(fits: (string, Lexeme) -> bool, members: seq<Member>) {
    forall i | 0 <= i < |members| :: fits(members[i].name, members[i].value)
  }

  predicate DistinctNames(members: seq<Member>) {
    forall i, j | 0 <= i < j < |members| :: members[i].name != members[j].name
  }

  lemma {:induction false} AdmissibleNames(members: seq<Member>, allowed: set<string>, seen: set<string>)
    requires Admissible(members, allowed, seen)
    ensures DistinctNames(members)
    ensures forall i | 0 <= i < |members| ::
              members[i].name in allowed && members[i].name !in seen && Scalar(members[i].value)
    decreases |members|
  {
    if members != [] {
      var tail, more := members[1..], seen + {members[0].name};
      AdmissibleNames(tail, allowed, more);
      assert forall i | 1 <= i < |members| :: members[i] == tail[i - 1];
    }
  }

  /** Admitted members decode to exactly themselves: each lands in the field of its own name, none is
      dropped or overwritten, and decoding fails only on a value that does not fit. */
  lemma {:induction false} DecodesExactly(
    u: Unicode, names: seq<string>, fits: (string, Lexeme) -> bool, members: seq<Member>, into: map<string, Lexeme>)
    requires DistinctNames(members)
    requires forall i | 0 <= i < |members| :: members[i].name in names && members[i].name !in into
    ensures Decode(u, names, fits, members, into).Some? <==> AllFit(fits, members)
    ensures AllFit(fits, members) ==>
              var decoded := Decode(u, names, fits, members, into).value;
              && (forall i | 0 <= i < |members| :: members[i].name in decoded && decoded[members[i].name] == members[i].value)
              && (forall name | name in into :: name in decoded && decoded[name] == into[name])
              && (forall name | name in decoded :: name in into || exists i :: 0 <= i < |members| && members[i].name == name)
    decreases |members|
  {
    if members != [] {
      var head, tail := members[0], members[1..];
      assert forall i | 0 <= i < |tail| :: tail[i] == members[i + 1];
      if fits(head.name, head.value) {
        DecodesExactly(u, names, fits, tail, into[head.name := head.value]);
        assert AllFit(fits, members) <==> AllFit(fits, tail);
      }
    }
  }

  /** With names distinct up to case, at most one field is ever eligible, however a key is spelled. */
  lemma {:induction false} OneEligibleField(u: Unicode, names: seq<string>, key: string, name: string)
    requires forall i, j | 0 <= i < j < |names| :: u.fold(names[i]) != u.fold(names[j])
    requires name in names && u.fold(name) == u.fold(key)
    ensures Target(u, names, key) == Some(name)
  {
    if key in names {
      var i :| 0 <= i < |names| && names[i] == key;
      var j :| 0 <= j < |names| && names[j] == name;
      assert i == j;
    } else if names[0] != name {
      var tail := names[1..];
      assert forall i | 0 <= i < |tail| :: tail[i] == names[i + 1];
      assert key !in tail;
      OneEligibleField(u, tail, key, name);
      var j :| 0 <= j < |names| && names[j] == name;
      assert u.fold(names[0]) != u.fold(names[j]);
    }
  }

  lemma SameMembersSameFit(fits: (string, Lexeme) -> bool, a: seq<Member>, b: seq<Member>)
    requires forall m :: m in a ==> m in b
    ensures AllFit(fits, b) ==> AllFit(fits, a)
  {
    forall i | 0 <= i < |a| && AllFit(fits, b) ensures fits(a[i].name, a[i].value) {
      assert a[i] in b;
      var j :| 0 <= j < |b| && b[j] == a[i];
    }
  }

  lemma DecodedWithin(
    u: Unicode, names: seq<string>, fits: (string, Lexeme) -> bool, a: seq<Member>, b: seq<Member>, name: string)
    requires DistinctNames(a) && DistinctNames(b) && AllFit(fits, a) && AllFit(fits, b)
    requires (forall i | 0 <= i < |a| :: a[i].name in names) && (forall i | 0 <= i < |b| :: b[i].name in names)
    requires forall m :: m in a ==> m in b
    ensures Decode(u, names, fits, a, map[]).Some? && Decode(u, names, fits, b, map[]).Some?
    ensures var x, y := Decode(u, names, fits, a, map[]).value, Decode(u, names, fits, b, map[]).value;
      name in x ==> name in y && y[name] == x[name]
  {
    DecodesExactly(u, names, fits, a, map[]);
    DecodesExactly(u, names, fits, b, map[]);
    var x := Decode(u, names, fits, a, map[]).value;
    if name in x {
      var i :| 0 <= i < |a| && a[i].name == name;
      assert a[i] in b;
      var j :| 0 <= j < |b| && b[j] == a[i];
    }
  }

  /** An input that passes the key check of a described type decodes the same in any member order. */
  lemma OrderDoesNotMatter(
    u: Unicode, names: seq<string>, allowed: set<string>, fits: (string, Lexeme) -> bool, a: seq<Member>, b: seq<Member>)
    requires forall name :: name in allowed <==> name in names
    requires Admissible(a, allowed, {}) && Admissible(b, allowed, {})
    requires forall m :: m in a <==> m in b
    ensures Decode(u, names, fits, a, map[]) == Decode(u, names, fits, b, map[])
  {
    AdmissibleNames(a, allowed, {});
    AdmissibleNames(b, allowed, {});
    SameMembersSameFit(fits, a, b);
    SameMembersSameFit(fits, b, a);
    if AllFit(fits, a) {
      var x, y := Decode(u, names, fits, a, map[]), Decode(u, names, fits, b, map[]);
      DecodedWithin(u, names, fits, a, b, "");
      forall name ensures name in x.value ==> name in y.value && y.value[name] == x.value[name] {
        DecodedWithin(u, names, fits, a, b, name);
      }
      forall name ensures name in y.value ==> name in x.value {
        DecodedWithin(u, names, fits, b, a, name);
      }
      assert x.value == y.value;
    } else {
      DecodesExactly(u, names, fits, a, map[]);
      DecodesExactly(u, names, fits, b, map[]);
    }
  }
}
