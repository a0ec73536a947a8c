/** Tools, namespaces and the worker's registry (agent/tool.go:83-99, 179-215,
    agent/serverapi/tool_worker.go:18-73). */
module Registry {
  import opened Prelude
  import opened Text
  import opened Keys
  import opened Outcomes
  import opened Protocol
  import opened Maintenance
  import Worker

  predicate RoutingChar(c: char) {
    'A' <= c <= 'Z' || 'a' <= c <= 'z' || '0' <= c <= '9' || c == '_'
  }

  /** `validRoutingName`: no underscore at either end and no two in a row. */
  predicate ValidRoutingName(name: string, max: nat) {
    && name != "" && |name| <= max
    && name[0] != '_' && name[|name| - 1] != '_'
    && (forall i | 0 <= i < |name| - 1 :: !(name[i] == '_' && name[i + 1] == '_'))
    && (forall i | 0 <= i < |name| :: RoutingChar(name[i]))
  }

  // ---- routing names as words -------------------------------------------------

  predicate Word(w: string) {
    w != "" && forall i | 0 <= i < |w| ::
      var n := w[i] as int; 48 <= n <= 57 || 65 <= n <= 90 || 97 <= n <= 122
  }

  predicate AllWords(words: seq<string>) {
    forall i | 0 <= i < |words| :: Word(words[i])
  }

  function JoinWords(words: seq<string>): string
    requires words != []
  {
    if |words| == 1 then words[0] else words[0] + "_" + JoinWords(words[1..])
  }

  lemma {:induction false} JoinedWordsAreValid(words: seq<string>)
    requires words != [] && AllWords(words)
    ensures ValidRoutingName(JoinWords(words), |JoinWords(words)|)
  {
    var first := words[0];
    assert Word(first);
    if |words| > 1 {
      var rest := words[1..];
      JoinedWordsAreValid(rest);
      var name, tail := JoinWords(words), JoinWords(rest);
      assert forall i | 0 <= i < |name| ::
          name[i] == (if i < |first| then first[i] else if i == |first| then '_' else tail[i - |first| - 1]);
    }
  }

  lemma HeadIsWord(name: string, max: nat, k: nat)
    requires ValidRoutingName(name, max) && k <= |name| && forall i | 0 <= i < k :: name[i] != '_'
    requires k < |name| ==> name[k] == '_'
    ensures Word(name[..k])
  {
    forall i | 0 <= i < k ensures RoutingChar(name[..k][i]) && name[..k][i] != '_' {
      assert name[..k][i] == name[i];
    }
  }

  lemma TailIsValid(name: string, max: nat, k: nat)
    requires ValidRoutingName(name, max) && k < |name| && name[k] == '_'
    ensures ValidRoutingName(name[k + 1..], max)
  {
    var tail := name[k + 1..];
    assert k != |name| - 1;
    forall i | 0 <= i < |tail| ensures tail[i] == name[k + 1 + i] {
    }
    assert !(name[k] == '_' && name[k + 1] == '_');
    forall i | 0 <= i < |tail| - 1 ensures !(tail[i] == '_' && tail[i + 1] == '_') {
      assert !(name[k + 1 + i] == '_' && name[k + 2 + i] == '_');
    }
  }

  lemma {:induction false} ValidNamesAreWords(name: string, max: nat) returns (words: seq<string>)
    requires ValidRoutingName(name, max)
    ensures words != [] && AllWords(words) && JoinWords(words) == name
    decreases |name|
  {
    if '_' !in name {
      words := [name];
      HeadIsWord(name, max, |name|);
      assert name[..|name|] == name;
    } else {
      var k := FirstUnderscore(name);
      var head, tail := name[..k], name[k + 1..];
      TailIsValid(name, max, k);
      HeadIsWord(name, max, k);
      var more := ValidNamesAreWords(tail, max);
      words := [head] + more;
      assert words[1..] == more;
      assert name == head + "_" + tail;
    }
  }

  lemma {:induction false} FirstUnderscore(name: string) returns (k: nat)
    requires '_' in name
    ensures k < |name| && name[k] == '_' && forall i | 0 <= i < k :: name[i] != '_'
  {
    if name[0] == '_' {
      k := 0;
    } else {
      var j := FirstUnderscore(name[1..]);
      k := j + 1;
      assert forall i | 1 <= i < k :: name[i] == name[1..][i - 1];
    }
  }

  /** A routing name is a sequence of nonempty words of ASCII letters and digits, joined by single underscores. */
  lemma RoutingNamesAreWords(name: string, max: nat)
    ensures ValidRoutingName(name, max) <==>
              |name| <= max && exists words :: words != [] && AllWords(words) && JoinWords(words) == name
  {
    if ValidRoutingName(name, max) {
      var words := ValidNamesAreWords(name, max);
    }
    if words :| words != [] && AllWords(words) && JoinWords(words) == name {
      JoinedWordsAreValid(words);
    }
  }

  const MAX_TOOL_NAME := 128
  const MAX_VERSION_LENGTH := 128
  const MAX_DESCRIPTION_LENGTH := 4096
  const MAX_NAMESPACE_NAME := 256

  /** `body` stands for the handler. Values exist only as Go's zero value or as `NewTool` made them. */
  datatype AnyTool = ZeroTool | MadeTool(name: string, version: string, description: string, body: nat)

  predicate WellMade(t: AnyTool) {
    t.MadeTool? ==>
      && ValidRoutingName(t.name, MAX_TOOL_NAME)
      && !Blank(t.version) && Utf16Length(t.version) <= MAX_VERSION_LENGTH
      && !Blank(t.description) && Utf16Length(t.description) <= MAX_DESCRIPTION_LENGTH
  }

  type Tool = t: AnyTool | WellMade(t) witness ZeroTool

  lemma RoutingNamesAreNulFree(name: string, max: nat)
    requires ValidRoutingName(name, max)
    ensures NulFree(name)
  {
    assert forall i | 0 <= i < |name| :: RoutingChar(name[i]) && name[i] != '\0';
  }

  /** `NewTool`, its input type having been described; None for invalid metadata. */
  function NewTool(name: string, version: string, description: string, handler: Option<nat>): (t: Option<Tool>)
    ensures t.Some? <==> handler.Some? && WellMade(MadeTool(name, version, description, 0))
    ensures t.Some? <==>
              && handler.Some? && ValidRoutingName(name, 128)
              && !Blank(version) && Utf16Length(version) <= 128
              && !Blank(description) && Utf16Length(description) <= 4096
    ensures t.Some? ==> t.value == MadeTool(name, version, description, handler.value) && NulFree(name)
  {
    if !ValidRoutingName(name, MAX_TOOL_NAME) || Blank(version) || Utf16Length(version) > MAX_VERSION_LENGTH
       || Blank(description) || Utf16Length(description) > MAX_DESCRIPTION_LENGTH || handler.None?
    then None
    else
      RoutingNamesAreNulFree(name, MAX_TOOL_NAME);
      Some(MadeTool(name, version, description, handler.value))
  }

  /** The key under which a namespace looks for duplicates. */
  function JoinedKey(t: AnyTool): string
    requires t.MadeTool?
  {
    t.name + "\0" + t.version
  }

  predicate SameIdentity(a: AnyTool, b: AnyTool)
    requires a.MadeTool? && b.MadeTool?
  {
    a.name == b.name && a.version == b.version
  }

  /** Joined keys are equal exactly for equal identities, although versions may contain NUL. */
  lemma JoinedKeyIsIdentity(a: Tool, b: Tool)
    requires a.MadeTool? && b.MadeTool?
    ensures JoinedKey(a) == JoinedKey(b) <==> SameIdentity(a, b)
  {
    RoutingNamesAreNulFree(a.name, MAX_TOOL_NAME);
    RoutingNamesAreNulFree(b.name, MAX_TOOL_NAME);
    if JoinedKey(a) == JoinedKey(b) {
      HeadSplit(a.name, a.version, b.name, b.version);
    }
  }

  /** Tools come from the constructor only: a tool rebuilt from its own definition is that tool, and the
      names and versions given to the constructor alone decide whether two tools share a key. */
  lemma ConstructedToolsAreToldApart(
    n1: string, v1: string, d1: string, h1: Option<nat>, n2: string, v2: string, d2: string, h2: Option<nat>)
    requires NewTool(n1, v1, d1, h1).Some? && NewTool(n2, v2, d2, h2).Some?
    ensures var a, b := NewTool(n1, v1, d1, h1).value, NewTool(n2, v2, d2, h2).value;
      && NewTool(a.name, a.version, a.description, Some(a.body)) == Some(a)
      && (JoinedKey(a) == JoinedKey(b) <==> n1 == n2 && v1 == v2)
  {
    JoinedKeyIsIdentity(NewTool(n1, v1, d1, h1).value, NewTool(n2, v2, d2, h2).value);
  }

  // ---- namespaces -----------------------------------------------------------

  datatype AnyNamespace = AnyNamespace(name: string, tools: seq<Tool>)

  predicate AllMade(tools: seq<Tool>) {
    forall i | 0 <= i < |tools| :: tools[i].MadeTool?
  }

  predicate DistinctTools(tools: seq<Tool>)
    requires AllMade(tools)
  {
    forall i, j | 0 <= i < j < |tools| :: !SameIdentity(tools[i], tools[j])
  }

  /** What a constructed namespace is like; the other possibility is Go's zero value. */
  predicate WellFormed(n: AnyNamespace) {
    ValidRoutingName(n.name, MAX_NAMESPACE_NAME) && n.tools != [] && AllMade(n.tools) && DistinctTools(n.tools)
  }

  type Namespace = n: AnyNamespace | n == AnyNamespace("", []) || WellFormed(n) witness AnyNamespace("", [])

  /** Two constructed tools make a namespace exactly under a valid name and if they differ in name or version. */
  lemma PairMakesNamespace(
    name: string, n1: string, v1: string, d1: string, h1: Option<nat>, n2: string, v2: string, d2: string, h2: Option<nat>)
    requires NewTool(n1, v1, d1, h1).Some? && NewTool(n2, v2, d2, h2).Some?
    ensures WellFormed(AnyNamespace(name, [NewTool(n1, v1, d1, h1).value, NewTool(n2, v2, d2, h2).value])) <==>
              ValidRoutingName(name, MAX_NAMESPACE_NAME) && (n1 != n2 || v1 != v2)
  {
    var tools := [NewTool(n1, v1, d1, h1).value, NewTool(n2, v2, d2, h2).value];
    assert AllMade(tools) && (DistinctTools(tools) <==> !SameIdentity(tools[0], tools[1]));
  }

  datatype NamespaceError = InvalidNamespace | InvalidTool | DuplicateTool(name: string, version: string)

  function KeysOf(tools: seq<Tool>): set<string>
    requires AllMade(tools)
  {
    if tools == [] then {} else KeysOf(tools[..|tools| - 1]) + {JoinedKey(tools[|tools| - 1])}
  }

  lemma {:induction false} KeysOfMember(tools: seq<Tool>, key: string)
    requires AllMade(tools)
    ensures key in KeysOf(tools) <==> exists i :: 0 <= i < |tools| && JoinedKey(tools[i]) == key
  {
    if tools != [] {
      var n := |tools| - 1;
      KeysOfMember(tools[..n], key);
      assert forall i | 0 <= i < n :: tools[..n][i] == tools[i];
      if key == JoinedKey(tools[n]) {
        assert JoinedKey(tools[n]) == key;
      }
    }
  }

  /** The loop has met the tools `done`, all different, under the keys `seen`. */
  predicate Met(seen: set<string>, done: seq<Tool>) {
    AllMade(done) && DistinctTools(done) && seen == KeysOf(done)
  }

  lemma MeetsAnother(seen: set<string>, done: seq<Tool>, t: Tool)
    requires Met(seen, done) && t.MadeTool? && JoinedKey(t) !in seen
    ensures Met(seen + {JoinedKey(t)}, done + [t])
  {
    var more := done + [t];
    assert more[..|done|] == done && more[|done|] == t;
    KeysOfMember(done, JoinedKey(t));
    forall i | 0 <= i < |done| ensures !SameIdentity(done[i], t) {
      JoinedKeyIsIdentity(done[i], t);
    }
  }

  /** Tool `i` repeats an earlier one. */
  predicate Repeats(tools: seq<Tool>, i: nat) {
    && i < |tools| && tools[i].MadeTool?
    && exists j :: 0 <= j < i && tools[j].MadeTool? && SameIdentity(tools[j], tools[i])
  }

  /** Tool `i` is the first that cannot be taken: it is a zero tool, or it repeats one of those before it,
      which are all made and all different. */
  predicate FirstFault(tools: seq<Tool>, i: nat) {
    && i < |tools| && AllMade(tools[..i]) && DistinctTools(tools[..i])
    && (tools[i].ZeroTool? || Repeats(tools, i))
  }

  lemma MetAgain(seen: set<string>, tools: seq<Tool>, i: nat)
    requires i < |tools| && Met(seen, tools[..i]) && tools[i].MadeTool? && JoinedKey(tools[i]) in seen
    ensures Repeats(tools, i)
    ensures AllMade(tools) ==> !DistinctTools(tools)
  {
    var done := tools[..i];
    KeysOfMember(done, JoinedKey(tools[i]));
    var j :| 0 <= j < i && JoinedKey(done[j]) == JoinedKey(tools[i]);
    assert done[j] == tools[j];
    JoinedKeyIsIdentity(tools[j], tools[i]);
  }

  /** `NewToolNamespace`. */
  method NewToolNamespace(name: string, tools: seq<Tool>) returns (r: Result<Namespace, NamespaceError>)
    ensures r.Ok? <==> WellFormed(AnyNamespace(name, tools))
    ensures r.Ok? ==> r.value == AnyNamespace(name, tools)
    ensures r == Err(InvalidNamespace) <==> !ValidRoutingName(name, 256) || tools == []
    ensures r == Err(InvalidTool) ==> exists i: nat :: FirstFault(tools, i) && tools[i].ZeroTool?
    ensures r.Err? && r.error.DuplicateTool? ==>
              exists i: nat :: FirstFault(tools, i) && Repeats(tools, i)
                && tools[i].name == r.error.name && tools[i].version == r.error.version
  {
    if !ValidRoutingName(name, MAX_NAMESPACE_NAME) || |tools| == 0 {
      return Err(InvalidNamespace);
    }
    var seen: set<string> := {};
    for i := 0 to |tools|
      invariant Met(seen, tools[..i])
    {
      assert tools[i].ZeroTool? ==> FirstFault(tools, i);
      if tools[i].ZeroTool? {
        return Err(InvalidTool);
      }
      var key := tools[i].name + "\0" + tools[i].version;
      if key in seen {
        MetAgain(seen, tools, i);
        return Err(DuplicateTool(tools[i].name, tools[i].version));
      }
      MeetsAnother(seen, tools[..i], tools[i]);
      assert tools[..i + 1] == tools[..i] + [tools[i]];
      seen := seen + {key};
    }
    assert tools[..|tools|] == tools;
    r := Ok(AnyNamespace(name, tools));
  }

  // ---- the worker -----------------------------------------------------------

  datatype Options = Options(maxCalls: int, poll: int, interval: int, skew: int)

  /** The defaults for options left unset (lines 36-47). */
  function WithDefaults(o: Options): Options {
    Options(if o.maxCalls <= 0 then 1 else o.maxCalls,
            if o.poll <= 0 then SECOND else o.poll,
            if o.interval <= 0 then 30 * SECOND else o.interval,
            if o.skew <= 0 then 10 * SECOND else o.skew)
  }

  function ConfigOf(o: Options, nonce: string, tools: set<Identity>, mayReturn: (Identity, HandlerResult) -> bool)
    : Worker.Config
  {
    Worker.Config(o.maxCalls, o.poll, o.interval, o.skew, nonce, tools, mayReturn)
  }

  /** Whatever the options, the worker runs with a configuration the step system can use, and
      options that were already usable are taken as they are. */
  lemma DefaultsAreUsable(o: Options, nonce: string, tools: set<Identity>, mayReturn: (Identity, HandlerResult) -> bool)
    ensures Worker.Usable(ConfigOf(WithDefaults(o), nonce, tools, mayReturn))
    ensures var d := WithDefaults(o);
      && d.maxCalls == (if o.maxCalls > 0 then o.maxCalls else 1)
      && d.poll == (if o.poll > 0 then o.poll else 1_000_000_000)
      && d.interval == (if o.interval > 0 then o.interval else 30_000_000_000)
      && d.skew == (if o.skew > 0 then o.skew else 10_000_000_000)
  {
  }

  function IdentityOf(namespace: string, t: AnyTool): Identity
    requires t.MadeTool?
  {
    Identity(namespace, t.name, t.version)
  }

  predicate DistinctNames(namespaces: seq<Namespace>) {
    forall i, j | 0 <= i < j < |namespaces| :: namespaces[i].name != namespaces[j].name
  }

  predicate AllConstructed(namespaces: seq<Namespace>) {
    forall i | 0 <= i < |namespaces| :: WellFormed(namespaces[i])
  }

  function TotalTools(namespaces: seq<Namespace>): nat {
    if namespaces == [] then 0 else TotalTools(namespaces[..|namespaces| - 1]) + |namespaces[|namespaces| - 1].tools|
  }

  function NameSet(namespaces: seq<Namespace>): set<string> {
    if namespaces == [] then {} else NameSet(namespaces[..|namespaces| - 1]) + {namespaces[|namespaces| - 1].name}
  }

  lemma {:induction false} NameSetMember(namespaces: seq<Namespace>, name: string)
    ensures name in NameSet(namespaces) <==> exists i :: 0 <= i < |namespaces| && namespaces[i].name == name
  {
    if namespaces != [] {
      var n := |namespaces| - 1;
      NameSetMember(namespaces[..n], name);
      assert forall i | 0 <= i < n :: namespaces[..n][i] == namespaces[i];
      if name == namespaces[n].name {
        assert namespaces[n].name == name;
      }
    }
  }

  function NamesOf(namespaces: seq<Namespace>): seq<string> {
    seq(|namespaces|, i requires 0 <= i < |namespaces| => namespaces[i].name)
  }

  /** Every tool of `namespace` up to `n` is found under its own identity. */
  predicate FoundAll(tools: map<Identity, Tool>, namespace: Namespace, n: nat)
    requires WellFormed(namespace) && n <= |namespace.tools|
  {
    forall j | 0 <= j < n ::
      IdentityOf(namespace.name, namespace.tools[j]) in tools
      && tools[IdentityOf(namespace.name, namespace.tools[j])] == namespace.tools[j]
  }

  /** The map holds the tools of `namespaces` and nothing else, one entry per tool. */
  ghost predicate Registers(tools: map<Identity, Tool>, namespaces: seq<Namespace>) {
    && AllConstructed(namespaces)
    && (forall i | 0 <= i < |namespaces| :: FoundAll(tools, namespaces[i], |namespaces[i].tools|))
    && (forall id | id in tools :: id.namespace in NameSet(namespaces))
    && |tools| == TotalTools(namespaces)
  }

  datatype WorkerError = ClientRequired | NamespaceRequired | InvalidWorkerNamespace | DuplicateNamespace(name: string)

  class ToolWorker {
    const options: Options
    const namespaces: seq<string>
    const tools: map<Identity, Tool>
    var running: bool

    /** The configuration `Run` works with. */
    function Config(nonce: string, mayReturn: (Identity, HandlerResult) -> bool): Worker.Config {
      ConfigOf(options, nonce, tools.Keys, mayReturn)
    }

    constructor (options: Options, namespaces: seq<string>, tools: map<Identity, Tool>)
      ensures this.options == options && this.namespaces == namespaces && this.tools == tools && !running
    {
      this.options, this.namespaces, this.tools, running := options, namespaces, tools, false;
    }

    /** `w.run.CompareAndSwap(false, true)`: only the first call of `Run` proceeds (line 71). */
    method TryStart() returns (first: bool)
      modifies this
      ensures running && (first <==> !old(running))
    {
      first := !running;
      running := true;
    }
  }

  /** `before` with the first `n` tools of `namespace` added under their identities. */
  function Enlisted(before: map<Identity, Tool>, namespace: AnyNamespace, n: nat): map<Identity, Tool>
    requires AllMade(namespace.tools) && n <= |namespace.tools|
  {
    if n == 0 then before
    else Enlisted(before, namespace, n - 1)[IdentityOf(namespace.name, namespace.tools[n - 1]) := namespace.tools[n - 1]]
  }

  /** Nothing of another namespace is touched, and nothing else appears. */
  lemma {:induction false} EnlistingKeeps(before: map<Identity, Tool>, namespace: AnyNamespace, n: nat, id: Identity)
    requires AllMade(namespace.tools) && n <= |namespace.tools| && id.namespace != namespace.name
    ensures id in Enlisted(before, namespace, n) <==> id in before
    ensures id in before ==> Enlisted(before, namespace, n)[id] == before[id]
  {
    if n > 0 {
      EnlistingKeeps(before, namespace, n - 1, id);
    }
  }

  /** A tool that has not had its turn is not in the map yet. */
  lemma {:induction false} NotYetEnlisted(before: map<Identity, Tool>, namespace: AnyNamespace, n: nat, m: nat)
    requires AllMade(namespace.tools) && DistinctTools(namespace.tools) && n <= m < |namespace.tools|
    requires IdentityOf(namespace.name, namespace.tools[m]) !in before
    ensures IdentityOf(namespace.name, namespace.tools[m]) !in Enlisted(before, namespace, n)
    decreases n
  {
    if n > 0 {
      NotYetEnlisted(before, namespace, n - 1, m);
      assert !SameIdentity(namespace.tools[n - 1], namespace.tools[m]);
    }
  }

  /** A tool that has had its turn stays where it was put. */
  lemma {:induction false} StaysEnlisted(before: map<Identity, Tool>, namespace: AnyNamespace, n: nat, k: nat)
    requires AllMade(namespace.tools) && DistinctTools(namespace.tools) && k < n <= |namespace.tools|
    ensures IdentityOf(namespace.name, namespace.tools[k]) in Enlisted(before, namespace, n)
    ensures Enlisted(before, namespace, n)[IdentityOf(namespace.name, namespace.tools[k])] == namespace.tools[k]
    decreases n
  {
    if k < n - 1 {
      StaysEnlisted(before, namespace, n - 1, k);
      assert !SameIdentity(namespace.tools[k], namespace.tools[n - 1]);
    }
  }

  lemma NewEntry(m: map<Identity, Tool>, id: Identity, t: Tool)
    requires id !in m
    ensures |m[id := t]| == |m| + 1
  {
    assert m[id := t].Keys == m.Keys + {id};
  }

  lemma NextIsNew(before: map<Identity, Tool>, namespace: AnyNamespace, n: nat)
    requires AllMade(namespace.tools) && DistinctTools(namespace.tools) && n < |namespace.tools|
    requires IdentityOf(namespace.name, namespace.tools[n]) !in before
    ensures |Enlisted(before, namespace, n + 1)| == |Enlisted(before, namespace, n)| + 1
  {
    NotYetEnlisted(before, namespace, n, n);
    NewEntry(Enlisted(before, namespace, n), IdentityOf(namespace.name, namespace.tools[n]), namespace.tools[n]);
  }

  /** Every tool makes its own entry. */
  lemma {:induction false} EnlistedSize(before: map<Identity, Tool>, namespace: AnyNamespace, n: nat)
    requires AllMade(namespace.tools) && DistinctTools(namespace.tools) && n <= |namespace.tools|
    requires forall id | id in before :: id.namespace != namespace.name
    ensures |Enlisted(before, namespace, n)| == |before| + n
  {
    if n > 0 {
      EnlistedSize(before, namespace, n - 1);
      NextIsNew(before, namespace, n - 1);
    }
  }

  /** Adds the tools of one namespace (lines 62-65). */
  method Register(namespace: Namespace, before: map<Identity, Tool>) returns (tools: map<Identity, Tool>)
    requires WellFormed(namespace)
    ensures tools == Enlisted(before, namespace, |namespace.tools|)
  {
    tools := before;
    for j := 0 to |namespace.tools|
      invariant tools == Enlisted(before, namespace, j)
    {
      tools := tools[Identity(namespace.name, namespace.tools[j].name, namespace.tools[j].version) := namespace.tools[j]];
    }
  }

  lemma StillFound(before: map<Identity, Tool>, met: Namespace, next: Namespace)
    requires WellFormed(met) && WellFormed(next) && met.name != next.name
    requires FoundAll(before, met, |met.tools|)
    ensures FoundAll(Enlisted(before, next, |next.tools|), met, |met.tools|)
  {
    forall j | 0 <= j < |met.tools|
      ensures IdentityOf(met.name, met.tools[j]) in Enlisted(before, next, |next.tools|)
      ensures Enlisted(before, next, |next.tools|)[IdentityOf(met.name, met.tools[j])] == met.tools[j]
    {
      EnlistingKeeps(before, next, |next.tools|, IdentityOf(met.name, met.tools[j]));
    }
  }

  lemma NowFound(before: map<Identity, Tool>, next: Namespace)
    requires WellFormed(next)
    ensures FoundAll(Enlisted(before, next, |next.tools|), next, |next.tools|)
  {
    forall j | 0 <= j < |next.tools|
      ensures IdentityOf(next.name, next.tools[j]) in Enlisted(before, next, |next.tools|)
      ensures Enlisted(before, next, |next.tools|)[IdentityOf(next.name, next.tools[j])] == next.tools[j]
    {
      StaysEnlisted(before, next, |next.tools|, j);
    }
  }

  lemma OwnersAreMet(before: map<Identity, Tool>, done: seq<Namespace>, next: Namespace)
    requires WellFormed(next) && forall id | id in before :: id.namespace in NameSet(done)
    ensures forall id | id in Enlisted(before, next, |next.tools|) :: id.namespace in NameSet(done) + {next.name}
  {
    forall id | id in Enlisted(before, next, |next.tools|) ensures id.namespace in NameSet(done) + {next.name} {
      if id.namespace != next.name {
        EnlistingKeeps(before, next, |next.tools|, id);
      }
    }
  }

  lemma RegistersMore(before: map<Identity, Tool>, done: seq<Namespace>, next: Namespace)
    requires Registers(before, done) && WellFormed(next) && next.name !in NameSet(done)
    ensures Registers(Enlisted(before, next, |next.tools|), done + [next])
  {
    var more := done + [next];
    var tools := Enlisted(before, next, |next.tools|);
    assert more[..|done|] == done && more[|done|] == next;
    forall i | 0 <= i < |more| ensures WellFormed(more[i]) && FoundAll(tools, more[i], |more[i].tools|) {
      if i < |done| {
        assert more[i] == done[i];
        NameSetMember(done, next.name);
        StillFound(before, done[i], next);
      } else {
        NowFound(before, next);
      }
    }
    OwnersAreMet(before, done, next);
    EnlistedSize(before, next, |next.tools|);
  }

  /** The loop has met the namespaces `done` under the names `seen`. */
  predicate MetNames(seen: set<string>, names: seq<string>, done: seq<Namespace>) {
    DistinctNames(done) && names == NamesOf(done) && seen == NameSet(done)
  }

  lemma MeetsAnotherName(seen: set<string>, names: seq<string>, done: seq<Namespace>, next: Namespace)
    requires MetNames(seen, names, done) && next.name !in seen
    ensures MetNames(seen + {next.name}, names + [next.name], done + [next])
  {
    var more := done + [next];
    assert more[..|done|] == done && more[|done|] == next;
    assert forall i | 0 <= i < |done| :: more[i] == done[i];
    NameSetMember(done, next.name);
  }

  /** Two of the namespaces have this name. */
  predicate NameRepeats(namespaces: seq<Namespace>, name: string) {
    exists i, j :: 0 <= i < j < |namespaces| && namespaces[i].name == name && namespaces[j].name == name
  }

  lemma MetNameAgain(seen: set<string>, names: seq<string>, namespaces: seq<Namespace>, i: nat)
    requires i < |namespaces| && MetNames(seen, names, namespaces[..i]) && namespaces[i].name in seen
    ensures NameRepeats(namespaces, namespaces[i].name) && !DistinctNames(namespaces)
  {
    var done := namespaces[..i];
    NameSetMember(done, namespaces[i].name);
    var j :| 0 <= j < i && done[j].name == namespaces[i].name;
    assert namespaces[j] == done[j];
  }

  lemma ZeroNamespaceSpoils(namespaces: seq<Namespace>, i: nat)
    requires i < |namespaces|
    ensures namespaces[i].name == "" || |namespaces[i].tools| == 0 <==> !WellFormed(namespaces[i])
    ensures !WellFormed(namespaces[i]) ==> !AllConstructed(namespaces)
  {
  }

  /** One round of the loop: the namespace is new, and its tools go into the map. */
  method Enroll(namespace: Namespace, ghost done: seq<Namespace>, before: map<Identity, Tool>,
                seen: set<string>, names: seq<string>)
    returns (tools: map<Identity, Tool>)
    requires WellFormed(namespace) && namespace.name !in seen
    requires Registers(before, done) && MetNames(seen, names, done)
    ensures Registers(tools, done + [namespace])
    ensures MetNames(seen + {namespace.name}, names + [namespace.name], done + [namespace])
  {
    tools := Register(namespace, before);
    RegistersMore(before, done, namespace);
    MeetsAnotherName(seen, names, done, namespace);
  }

  /** The two tests of a round. */
  method Inspect(namespaces: seq<Namespace>, i: nat, seen: set<string>, ghost names: seq<string>)
    returns (fault: Option<WorkerError>)
    requires i < |namespaces| && MetNames(seen, names, namespaces[..i])
    ensures fault.None? ==> WellFormed(namespaces[i]) && namespaces[i].name !in seen
    ensures fault.Some? ==> !AllConstructed(namespaces) || !DistinctNames(namespaces)
    ensures fault.Some? ==> fault.value.InvalidWorkerNamespace? || fault.value.DuplicateNamespace?
    ensures fault.Some? && fault.value.DuplicateNamespace? ==> NameRepeats(namespaces, fault.value.name)
  {
    ZeroNamespaceSpoils(namespaces, i);
    if namespaces[i].name == "" || |namespaces[i].tools| == 0 {
      return Some(InvalidWorkerNamespace);
    }
    if namespaces[i].name in seen {
      MetNameAgain(seen, names, namespaces, i);
      return Some(DuplicateNamespace(namespaces[i].name));
    }
    fault := None;
  }

  /** The loop over the namespaces (lines 53-66). */
  method EnrollAll(namespaces: seq<Namespace>) returns (r: Result<map<Identity, Tool>, WorkerError>, names: seq<string>)
    ensures r.Ok? <==> AllConstructed(namespaces) && DistinctNames(namespaces)
    ensures r.Ok? ==> Registers(r.value, namespaces) && names == NamesOf(namespaces)
    ensures r.Err? ==> r.error.InvalidWorkerNamespace? || r.error.DuplicateNamespace?
    ensures r.Err? && r.error.DuplicateNamespace? ==>
              NameRepeats(namespaces, r.error.name)
  {
    var tools: map<Identity, Tool> := map[];
    var seen: set<string> := {};
    ghost var done: seq<Namespace> := [];
    names := [];
    for i := 0 to |namespaces|
      invariant done == namespaces[..i]
      invariant Registers(tools, done) && MetNames(seen, names, done)
    {
      var namespace := namespaces[i];
      var fault := Inspect(namespaces, i, seen, names);
      if fault.Some? {
        return Err(fault.value), names;
      }
      tools := Enroll(namespace, done, tools, seen, names);
      seen := seen + {namespace.name};
      names := names + [namespace.name];
      done := done + [namespace];
    }
    assert done == namespaces;
    r := Ok(tools);
  }

  /** The configuration is the options, the nonce and nothing else. */
  predicate Follows(c: Worker.Config, o: Options, nonce: string) {
    c.maxCalls == o.maxCalls && c.poll == o.poll && c.interval == o.interval && c.skew == o.skew && c.nonce == nonce
  }

  /** A worker can be run with this configuration, and it finds every tool of `namespaces`. */
  ghost predicate Runnable(c: Worker.Config, namespaces: seq<Namespace>) {
    && AllConstructed(namespaces)
    && Worker.Usable(c)
    && (forall i, j | 0 <= i < |namespaces| && 0 <= j < |namespaces[i].tools| ::
          IdentityOf(namespaces[i].name, namespaces[i].tools[j]) in c.tools)
    && |c.tools| == TotalTools(namespaces)
  }

  lemma RegisteredIsRunnable(
    o: Options, nonce: string, tools: map<Identity, Tool>, mayReturn: (Identity, HandlerResult) -> bool,
    namespaces: seq<Namespace>)
    requires Registers(tools, namespaces)
    ensures Runnable(ConfigOf(WithDefaults(o), nonce, tools.Keys, mayReturn), namespaces)
  {
    DefaultsAreUsable(o, nonce, tools.Keys, mayReturn);
    assert |tools.Keys| == |tools|;
  }

  /** `NewToolWorker`. It fails exactly without a client, without namespaces, on a zero namespace and
      on a repeated name; otherwise every tool is registered under its identity, none overwrites another,
      and the worker can be run, whatever the options, the nonce and the handlers. */
  method NewToolWorker(hasClient: bool, options: Options, namespaces: seq<Namespace>)
    returns (r: Result<ToolWorker, WorkerError>)
    ensures r.Ok? <==> hasClient && namespaces != [] && AllConstructed(namespaces) && DistinctNames(namespaces)
    ensures r.Ok? ==>
              && fresh(r.value) && !r.value.running
              && r.value.options == WithDefaults(options)
              && r.value.namespaces == NamesOf(namespaces)
              && Registers(r.value.tools, namespaces)
              && forall nonce, mayReturn ::
                   Runnable(r.value.Config(nonce, mayReturn), namespaces)
                   && Follows(r.value.Config(nonce, mayReturn), r.value.options, nonce)
    ensures r.Err? && r.error.DuplicateNamespace? ==>
              NameRepeats(namespaces, r.error.name)
  {
    if !hasClient {
      return Err(ClientRequired);
    }
    if |namespaces| == 0 {
      return Err(NamespaceRequired);
    }
    var enrolled, names := EnrollAll(namespaces);
    if enrolled.Err? {
      return Err(enrolled.error);
    }
    var worker := new ToolWorker(WithDefaults(options), names, enrolled.value);
    forall nonce, mayReturn
      ensures Runnable(worker.Config(nonce, mayReturn), namespaces)
      ensures Follows(worker.Config(nonce, mayReturn), worker.options, nonce)
    {
      RegisteredIsRunnable(options, nonce, worker.tools, mayReturn, namespaces);
    }
    r := Ok(worker);
  }
}
