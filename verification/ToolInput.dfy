/** Admission of a tool call's JSON input (agent/tool.go:102-116, 349-393): the token reader of
    `encoding/json`, the key check that runs over it, and the case-insensitive decoder that follows. */
module ToolInput {

  /** The lexical elements of the input; `Junk` is anything that is none of them. */
  datatype Lexeme =
    | LBrace | RBrace | LBracket | RBracket | Colon | Comma
    | Str(text: string) | Num(digits: string) | Bool(flag: bool) | Null | Junk

  datatype TokenState =
    | TopValue | ArrayStart | ArrayValue | ArrayComma
    | ObjectStart | ObjectKey | ObjectColon | ObjectValue | ObjectComma

  datatype Cursor = Cursor(pos: nat, state: TokenState, stack: seq<TokenState>)

  datatype TokenResult = Got(token: Lexeme) | AtEof | Malformed

  predicate ValueAllowed(state: TokenState) {
    state.TopValue? || state.ArrayStart? || state.ArrayValue? || state.ObjectValue?
  }

  function ValueEnd(state: TokenState): TokenState {
    if state.ArrayStart? || state.ArrayValue? then ArrayComma
    else if state.ObjectValue? then ObjectComma
    else state
  }

  function Pop(c: Cursor): Cursor {
    if c.stack == [] then c.(pos := c.pos + 1)
    else Cursor(c.pos + 1, ValueEnd(c.stack[|c.stack| - 1]), c.stack[..|c.stack| - 1])
  }

  /** `Decoder.Token`: separators are consumed silently where the grammar has them. */
  function NextToken(input: seq<Lexeme>, c: Cursor): (TokenResult, Cursor)
    decreases |input| - c.pos
  {
    if c.pos >= |input| then (AtEof, c)
    else
      var lexeme := input[c.pos];
      match lexeme
      case Colon =>
        if c.state.ObjectColon? then NextToken(input, Cursor(c.pos + 1, ObjectValue, c.stack)) else (Malformed, c)
      case Comma =>
        if c.state.ArrayComma? then NextToken(input, Cursor(c.pos + 1, ArrayValue, c.stack))
        else if c.state.ObjectComma? then NextToken(input, Cursor(c.pos + 1, ObjectKey, c.stack))
        else (Malformed, c)
      case LBrace =>
        if ValueAllowed(c.state) then (Got(LBrace), Cursor(c.pos + 1, ObjectStart, c.stack + [c.state])) else (Malformed, c)
      case LBracket =>
        if ValueAllowed(c.state) then (Got(LBracket), Cursor(c.pos + 1, ArrayStart, c.stack + [c.state])) else (Malformed, c)
      case RBrace =>
        if c.state.ObjectStart? || c.state.ObjectComma? then (Got(RBrace), Pop(c)) else (Malformed, c)
      case RBracket =>
        if c.state.ArrayStart? || c.state.ArrayComma? then (Got(RBracket), Pop(c)) else (Malformed, c)
      case Junk => (Malformed, c)
      case _ =>
        if lexeme.Str? && (c.state.ObjectStart? || c.state.ObjectKey?) then
          (Got(lexeme), Cursor(c.pos + 1, ObjectColon, c.stack))
        else if ValueAllowed(c.state) then (Got(lexeme), Cursor(c.pos + 1, ValueEnd(c.state), c.stack))
        else (Malformed, c)
  }

  /** `json.Decoder`, as far as its token interface goes. */
  class Decoder {
    const input: seq<Lexeme>
    var cursor: Cursor

    constructor (input: seq<Lexeme>)
      ensures this.input == input && cursor == Cursor(0, TopValue, [])
    {
      this.input := input;
      cursor := Cursor(0, TopValue, []);
    }

    /** `More`: something other than a closing bracket comes next. */
    method More() returns (more: bool)
      ensures more <==> cursor.pos < |input| && input[cursor.pos] != RBrace && input[cursor.pos] != RBracket
    {
      more := cursor.pos < |input| && input[cursor.pos] != RBrace && input[cursor.pos] != RBracket;
    }

    method Token() returns (r: TokenResult)
      modifies this
      ensures (r, cursor) == NextToken(input, old(cursor))
    {
      while cursor.pos < |input| && (input[cursor.pos].Colon? || input[cursor.pos].Comma?)
        invariant NextToken(input, cursor) == NextToken(input, old(cursor))
        decreases |input| - cursor.pos
      {
        if input[cursor.pos].Colon? && cursor.state.ObjectColon? {
          cursor := Cursor(cursor.pos + 1, ObjectValue, cursor.stack);
        } else if input[cursor.pos].Comma? && cursor.state.ArrayComma? {
          cursor := Cursor(cursor.pos + 1, ArrayValue, cursor.stack);
        } else if input[cursor.pos].Comma? && cursor.state.ObjectComma? {
          cursor := Cursor(cursor.pos + 1, ObjectKey, cursor.stack);
        } else {
          return Malformed;
        }
      }
      var (result, next) := NextToken(input, cursor);
      cursor := next;
      r := result;
    }
  }

  // ---- flat objects ---------------------------------------------------------

  datatype Member = Member(name: string, value: Lexeme)

  predicate Scalar(value: Lexeme) {
    value.Str? || value.Num? || value.Bool?
  }

  /** Distinct names from `allowed`, none of them in `seen`, each with a non-null scalar. */
  predicate Admissible(members: seq<Member>, allowed: set<string>, seen: set<string>)
    decreases |members|
  {
    members == [] ||
    (members[0].name in allowed && members[0].name !in seen && Scalar(members[0].value)
     && Admissible(members[1..], allowed, seen + {members[0].name}))
  }

  /** The members as they are written, the first one preceded by a comma unless it opens the object. */
  function Body(members: seq<Member>, first: bool): seq<Lexeme>
    decreases |members|
  {
    if members == [] then []
    else (if first then [] else [Comma]) + [Str(members[0].name), Colon, members[0].value] + Body(members[1..], false)
  }

  /** One flat JSON object and nothing after it. */
  function Render(members: seq<Member>): seq<Lexeme> {
    [LBrace] + (Body(members, true) + [RBrace])
  }

  /** Recognises what may follow the members named in `seen` inside the object. */
  predicate RestAccepted(s: seq<Lexeme>, allowed: set<string>, seen: set<string>, first: bool)
    decreases |s|
  {
    if s == [RBrace] then true
    else if !first && (s == [] || s[0] != Comma) then false
    else MembersAccepted(if first then s else s[1..], allowed, seen)
  }

  predicate MembersAccepted(t: seq<Lexeme>, allowed: set<string>, seen: set<string>)
    decreases |t|, 1
  {
    && |t| >= 3 && t[0].Str? && t[1] == Colon && Scalar(t[2])
    && t[0].text in allowed && t[0].text !in seen
    && RestAccepted(t[3..], allowed, seen + {t[0].text}, false)
  }

  predicate Accepted(s: seq<Lexeme>, allowed: set<string>) {
    s != [] && s[0] == LBrace && RestAccepted(s[1..], allowed, {}, true)
  }

  /** In key position a token is a string, past the comma that separates it, or there is none. */
  lemma KeyToken(input: seq<Lexeme>, c: Cursor, first: bool)
    requires c.pos < |input| && input[c.pos] != RBrace && input[c.pos] != RBracket
    requires c.state == (if first then ObjectStart else ObjectComma)
    ensures var at := if first then c.pos else c.pos + 1;
      var (r, next) := NextToken(input, c);
      && (r.Got? <==> (first || input[c.pos] == Comma) && at < |input| && input[at].Str?)
      && (r.Got? ==> r.token == input[at] && next == Cursor(at + 1, ObjectColon, c.stack))
  {
  }

  /** After a key a scalar comes only directly after a colon. */
  lemma ValueToken(input: seq<Lexeme>, c: Cursor)
    requires c.state == ObjectColon
    ensures var (r, next) := NextToken(input, c);
      && (r.Got? && Scalar(r.token) <==>
            c.pos + 1 < |input| && input[c.pos] == Colon && Scalar(input[c.pos + 1]))
      && (r.Got? && Scalar(r.token) ==>
            r.token == input[c.pos + 1] && next == Cursor(c.pos + 2, ObjectComma, c.stack))
      && (r.Got? && !Scalar(r.token) ==> r.token == Null || r.token == LBrace || r.token == LBracket)
  {
  }

  /** One member read, or none to read. */
  lemma RestStep(input: seq<Lexeme>, pos: nat, allowed: set<string>, seen: set<string>, first: bool)
    requires pos < |input| && input[pos] != RBrace
    ensures var at := if first then pos else pos + 1;
      RestAccepted(input[pos..], allowed, seen, first) <==>
        && (first || input[pos] == Comma)
        && at + 2 < |input| && input[at].Str? && input[at + 1] == Colon && Scalar(input[at + 2])
        && input[at].text in allowed && input[at].text !in seen
        && RestAccepted(input[at + 3..], allowed, seen + {input[at].text}, false)
  {
    var s := input[pos..];
    assert s[0] == input[pos];
    var at := if first then pos else pos + 1;
    var t := if first then s else s[1..];
    assert t == input[at..];
    if |t| >= 3 {
      assert t[3..] == input[at + 3..];
    }
  }

  /** Where no member follows, the input is accepted exactly if the object ends here and nothing comes after. */
  lemma ObjectEnd(input: seq<Lexeme>, c: Cursor, allowed: set<string>, seen: set<string>, first: bool)
    requires c.pos <= |input| && c.stack == [TopValue]
    requires c.state == (if first then ObjectStart else ObjectComma)
    requires c.pos < |input| ==> input[c.pos] == RBrace || input[c.pos] == RBracket
    ensures var (r, next) := NextToken(input, c);
      && (r == Got(RBrace) ==> next == Cursor(c.pos + 1, TopValue, []))
      && (RestAccepted(input[c.pos..], allowed, seen, first) <==>
            r == Got(RBrace) && NextToken(input, next).0 == AtEof)
  {
    var s := input[c.pos..];
    if c.pos < |input| {
      assert s[0] == input[c.pos];
    }
  }

  /** The reader stands inside the one object, before a member or its closing brace. */
  predicate InObject(input: seq<Lexeme>, c: Cursor, first: bool) {
    && 1 <= c.pos <= |input| && c.stack == [TopValue]
    && c.state == (if first then ObjectStart else ObjectComma)
  }

  predicate AnotherMember(input: seq<Lexeme>, c: Cursor) {
    c.pos < |input| && input[c.pos] != RBrace && input[c.pos] != RBracket
  }

  /** What reading a key and a value decides about the rest of the input. */
  lemma MemberRead(input: seq<Lexeme>, c: Cursor, allowed: set<string>, seen: set<string>, first: bool)
    requires InObject(input, c, first) && AnotherMember(input, c)
    ensures var (k, c1) := NextToken(input, c);
      var (v, c2) := NextToken(input, c1);
      && (k.Got? ==> k.token.Str?)
      && (k.Got? && v.Got? && !Scalar(v.token) ==> v.token == Null || v.token == LBrace || v.token == LBracket)
      && (k.Got? && v.Got? && Scalar(v.token) ==> InObject(input, c2, false) && c.pos < c2.pos)
      && (RestAccepted(input[c.pos..], allowed, seen, first) <==>
            && k.Got? && k.token.text in allowed && k.token.text !in seen
            && v.Got? && Scalar(v.token)
            && RestAccepted(input[c2.pos..], allowed, seen + {k.token.text}, false))
  {
    KeyToken(input, c, first);
    RestStep(input, c.pos, allowed, seen, first);
    var c1 := NextToken(input, c).1;
    if c1.state == ObjectColon {
      ValueToken(input, c1);
    }
  }

  /** `validateInputKeys`. */
  method ValidateInputKeys(input: seq<Lexeme>, allowed: set<string>) returns (ok: bool)
    ensures ok <==> Accepted(input, allowed)
  {
    var decoder := new Decoder(input);
    var token := decoder.Token();
    if token != Got(LBrace) {
      return false;
    }
    var seen: set<string> := {};
    ghost var first := true;
    var more := decoder.More();
    while more
      invariant decoder.input == input && InObject(input, decoder.cursor, first)
      invariant more <==> AnotherMember(input, decoder.cursor)
      invariant Accepted(input, allowed) <==> RestAccepted(input[decoder.cursor.pos..], allowed, seen, first)
      decreases |input| - decoder.cursor.pos
    {
      MemberRead(input, decoder.cursor, allowed, seen, first);
      token := decoder.Token();
      if !token.Got? {
        return false;
      }
      var name := token.token.text;
      if name !in allowed {
        return false;
      }
      if name in seen {
        return false;
      }
      seen := seen + {name};
      var value := decoder.Token();
      if !value.Got? {
        return false;
      }
      if value.token == Null {
        return false;
      }
      if value.token == LBrace || value.token == LBracket || value.token == RBrace || value.token == RBracket {
        return false;
      }
      first := false;
      more := decoder.More();
    }
    ObjectEnd(input, decoder.cursor, allowed, seen, first);
    token := decoder.Token();
    if token != Got(RBrace) {
      return false;
    }
    token := decoder.Token();
    ok := token == AtEof;
  }

  // ---- what is accepted -----------------------------------------------------

  lemma {:induction false} BodyAccepted(members: seq<Member>, allowed: set<string>, seen: set<string>, first: bool)
    requires Admissible(members, allowed, seen)
    ensures RestAccepted(Body(members, first) + [RBrace], allowed, seen, first)
    decreases |members|
  {
    var s := Body(members, first) + [RBrace];
    if members == [] {
      assert s == [RBrace];
    } else {
      var head := [Str(members[0].name), Colon, members[0].value];
      var rest := Body(members[1..], false) + [RBrace];
      BodyAccepted(members[1..], allowed, seen + {members[0].name}, false);
      var t := if first then s else s[1..];
      assert t == head + rest;
      assert t[3..] == rest;
    }
  }

  /** The members of an accepted remainder. */
  lemma {:induction false} AcceptedBody(s: seq<Lexeme>, allowed: set<string>, seen: set<string>, first: bool)
    returns (members: seq<Member>)
    requires RestAccepted(s, allowed, seen, first)
    ensures Admissible(members, allowed, seen) && s == Body(members, first) + [RBrace]
    decreases |s|
  {
    if s == [RBrace] {
      members := [];
    } else {
      var t := if first then s else s[1..];
      var more := AcceptedBody(t[3..], allowed, seen + {t[0].text}, false);
      members := [Member(t[0].text, t[2])] + more;
      assert members[1..] == more;
      assert t == [t[0], t[1], t[2]] + t[3..];
      assert s == Body(members, first) + [RBrace];
    }
  }

  /** The key check accepts exactly the renderings of one flat object with distinct allowed names and
      non-null scalar values, with nothing after it. */
  lemma AcceptsExactlyFlatObjects(input: seq<Lexeme>, allowed: set<string>)
    ensures Accepted(input, allowed) <==>
              exists members :: Admissible(members, allowed, {}) && input == Render(members)
  {
    if Accepted(input, allowed) {
      var members := AcceptedBody(input[1..], allowed, {}, true);
      assert input == [LBrace] + input[1..];
      assert input == Render(members);
    }
    if exists members :: Admissible(members, allowed, {}) && input == Render(members) {
      var members :| Admissible(members, allowed, {}) && input == Render(members);
      BodyAccepted(members, allowed, {}, true);
      assert input[1..] == Body(members, true) + [RBrace];
    }
  }

  lemma BodyHead(members: seq<Member>, first: bool)
    ensures (Body(members, first) + [RBrace])[0] == RBrace <==> members == []
  {
  }

  /** An accepted input has only one reading. */
  lemma {:induction false} ReadingIsUnique(a: seq<Member>, b: seq<Member>, first: bool)
    requires Body(a, first) + [RBrace] == Body(b, first) + [RBrace]
    ensures a == b
    decreases |a|
  {
    var s, t := Body(a, first) + [RBrace], Body(b, first) + [RBrace];
    var k := if first then 0 else 1;
    if a == [] || b == [] {
      BodyHead(a, first);
      BodyHead(b, first);
    } else {
      assert s[k] == Str(a[0].name) && t[k] == Str(b[0].name);
      assert s[k + 2] == a[0].value && t[k + 2] == b[0].value;
      assert s[k + 3..] == Body(a[1..], false) + [RBrace];
      assert t[k + 3..] == Body(b[1..], false) + [RBrace];
      ReadingIsUnique(a[1..], b[1..], false);
      assert a == [a[0]] + a[1..] && b == [b[0]] + b[1..];
    }
  }
}
