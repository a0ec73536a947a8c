/** The input half of a tool's execute closure (agent/tool.go:102-121): from the bytes of a claim's input
    to the value the handler receives. */
module Admission {
  import opened Prelude
  import opened ToolInput
  import opened InputSchema

  /** The decoder's own pass over an object: its members in order, and what follows the closing brace. A
      nested or null member value is not decoded here, the key check has refused it before. */
  function ReadMembers(s: seq<Lexeme>, first: bool): Option<(seq<Member>, seq<Lexeme>)>
    decreases |s|
  {
    if s == [] then None
    else if s[0].RBrace? then Some(([], s[1..]))
    else if !first && !s[0].Comma? then None
    else
      var t := if first then s else s[1..];
      if |t| >= 3 && t[0].Str? && t[1].Colon? && Scalar(t[2]) then
        match ReadMembers(t[3..], false)
        case None => None
        case Some(more) => Some(([Member(t[0].text, t[2])] + more.0, more.1))
      else None
  }

  lemma ReadsOne(m: Member, tail: seq<Lexeme>, first: bool)
    requires Scalar(m.value) && ReadMembers(tail, false).Some?
    ensures var s := (if first then [] else [Comma]) + [Str(m.name), Colon, m.value] + tail;
      var more := ReadMembers(tail, false).value;
      ReadMembers(s, first) == Some(([m] + more.0, more.1))
  {
    var head := [Str(m.name), Colon, m.value];
    var s := (if first then [] else [Comma]) + head + tail;
    var t := if first then s else s[1..];
    assert t == head + tail && t[3..] == tail;
  }

  lemma {:induction false} ReadsWhatIsWritten(members: seq<Member>, first: bool, rest: seq<Lexeme>)
    requires forall i | 0 <= i < |members| :: Scalar(members[i].value)
    ensures ReadMembers(Body(members, first) + ([RBrace] + rest), first) == Some((members, rest))
    decreases |members|
  {
    var end := [RBrace] + rest;
    if members == [] {
      assert Body(members, first) + end == end && end[1..] == rest;
    } else {
      var m, others := members[0], members[1..];
      assert forall i | 0 <= i < |others| :: others[i] == members[i + 1];
      ReadsWhatIsWritten(others, false, rest);
      ReadsOne(m, Body(others, false) + end, first);
      var head := (if first then [] else [Comma]) + [Str(m.name), Colon, m.value];
      assert Body(members, first) + end == head + (Body(others, false) + end);
      assert members == [m] + others;
    }
  }

  /** The names the decoder knows, in field order. */
  function NameList(fields: seq<Field>): seq<string> {
    if fields == [] then []
    else
      var last := fields[|fields| - 1];
      NameList(fields[..|fields| - 1]) + (if Skipped(last) then [] else [EffectiveName(last)])
  }

  lemma {:induction false} NameListMember(fields: seq<Field>, name: string)
    ensures name in NameList(fields) <==> name in Names(fields)
  {
    if fields != [] {
      var n := |fields| - 1;
      NameListMember(fields[..n], name);
      NamesAppend(fields[..n], fields[n]);
      assert fields == fields[..n] + [fields[n]];
    }
  }

  /** The value holds each member under its own name, and nothing else. */
  predicate HoldsExactly(decoded: map<string, Lexeme>, members: seq<Member>) {
    && (forall i | 0 <= i < |members| :: members[i].name in decoded && decoded[members[i].name] == members[i].value)
    && (forall name | name in decoded :: exists i :: 0 <= i < |members| && members[i].name == name)
  }

  /** What the input says, read as the members of one flat object of the described type. */
  predicate Reading(input: seq<Lexeme>, schema: Schema, members: seq<Member>) {
    Admissible(members, schema.allowed, {}) && input == Render(members)
  }

  /** Decoding an input with a reading: everything is read, and each member lands in its own field. */
  lemma ReadingDecodes(
    u: Unicode, fields: seq<Field>, schema: Schema, fits: (string, Lexeme) -> bool, input: seq<Lexeme>, members: seq<Member>)
    requires Describes(schema, fields) && Reading(input, schema, members)
    ensures ReadMembers(input[1..], true) == Some((members, []))
    ensures Decode(u, NameList(fields), fits, members, map[]).Some? <==> AllFit(fits, members)
    ensures AllFit(fits, members) ==> HoldsExactly(Decode(u, NameList(fields), fits, members, map[]).value, members)
  {
    AdmissibleNames(members, schema.allowed, {});
    assert input[1..] == Body(members, true) + ([RBrace] + []);
    ReadsWhatIsWritten(members, true, []);
    forall i | 0 <= i < |members| ensures members[i].name in NameList(fields) {
      NameListMember(fields, members[i].name);
    }
    DecodesExactly(u, NameList(fields), fits, members, map[]);
  }

  lemma OneReading(input: seq<Lexeme>, schema: Schema, a: seq<Member>, b: seq<Member>)
    requires Reading(input, schema, a) && Reading(input, schema, b)
    ensures a == b
  {
    assert input[1..] == Body(a, true) + [RBrace] && input[1..] == Body(b, true) + [RBrace];
    ReadingIsUnique(a, b, true);
  }

  datatype InputError = NullInput | KeysRejected | ValueRejected | TrailingJson

  /** The closure up to the call of the handler, for a tool whose input type is `fields` and was described
      as `schema`. `fits` says which scalars a field can hold. The handler is called exactly if the input is
      one flat object of distinct described names with values that fit, and it then gets the value that
      holds exactly those members. The last check, for trailing JSON, never fires. */
  method DecodeInput(
    u: Unicode, fields: seq<Field>, schema: Schema, fits: (string, Lexeme) -> bool, input: seq<Lexeme>)
    returns (r: Result<map<string, Lexeme>, InputError>)
    requires Describes(schema, fields)
    ensures r.Ok? <==> exists members :: Reading(input, schema, members) && AllFit(fits, members)
    ensures forall members | Reading(input, schema, members) && AllFit(fits, members) ::
              r.Ok? && HoldsExactly(r.value, members)
    ensures r == Err(ValueRejected) <==> exists members :: Reading(input, schema, members) && !AllFit(fits, members)
    ensures r == Err(NullInput) <==> input == [Null]
    ensures r != Err(TrailingJson)
  {
    if input == [Null] {
      return Err(NullInput);
    }
    var ok := ValidateInputKeys(input, schema.allowed);
    AcceptsExactlyFlatObjects(input, schema.allowed);
    if !ok {
      return Err(KeysRejected);
    }
    ghost var members :| Admissible(members, schema.allowed, {}) && input == Render(members);
    assert Reading(input, schema, members);
    ReadingDecodes(u, fields, schema, fits, input, members);
    forall other | Reading(input, schema, other) ensures other == members {
      OneReading(input, schema, other, members);
    }
    var read := ReadMembers(input[1..], true);
    var decoded := Decode(u, NameList(fields), fits, read.value.0, map[]);
    if decoded.None? {
      return Err(ValueRejected);
    }
    if read.value.1 != [] {
      return Err(TrailingJson);
    }
    r := Ok(decoded.value);
  }
}
