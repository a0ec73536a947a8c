/** Secret redaction (agent/serverapi/redact.go). Each pattern is a literal prefix followed by
    `[A-Za-z0-9_-]+`; `ReplaceAllString` rewrites its leftmost longest matches in turn. */
module Redaction {

  const MASK := "[redacted]"

  const PATTERNS: seq<string> := ["awi_tst_", "awi_tex_", "awi_tco_", "sha256:"]

  predicate SecretChar(c: char) {
    'A' <= c <= 'Z' || 'a' <= c <= 'z' || '0' <= c <= '9' || c == '_' || c == '-'
  }

  /** The pattern with prefix `p` matches at the start of `s`. */
  predicate MatchesHere(p: string, s: string) {
    |p| < |s| && p <= s && SecretChar(s[|p|])
  }

  /** The pattern matches somewhere in `s`. */
  predicate Found(p: string, s: string) {
    s != "" && (MatchesHere(p, s) || Found(p, s[1..]))
  }

  /** `s` without its longest run of secret characters. */
  function DropSecret(s: string): (rest: string)
    ensures |rest| <= |s|
  {
    if s != "" && SecretChar(s[0]) then DropSecret(s[1..]) else s
  }

  /** `pattern.ReplaceAllString(s, "[redacted]")`. */
  function Replace(p: string, s: string): string
    decreases |s|
  {
    if s == "" then ""
    else if MatchesHere(p, s) then MASK + Replace(p, DropSecret(s[|p|..]))
    else [s[0]] + Replace(p, s[1..])
  }

  function Passes(patterns: seq<string>, s: string): string {
    if patterns == [] then s else Passes(patterns[1..], Replace(patterns[0], s))
  }

  function Redact(s: string): string {
    Passes(PATTERNS, s)
  }

  /** The prefix of a pattern cannot begin inside the mask, nor reach across its brackets. */
  predicate Plain(p: string) {
    && p != "" && '[' !in p && ']' !in p
    && (forall k | 0 <= k < |MASK| && MASK[k] == p[0] :: |p| >= 2 && k + 1 < |MASK| && MASK[k + 1] != p[1])
  }

  lemma PatternsArePlain()
    ensures forall k | 0 <= k < |PATTERNS| :: Plain(PATTERNS[k])
  {
    assert PATTERNS[0][0] == 'a' && PATTERNS[0][1] == 'w';
    assert PATTERNS[1][0] == 'a' && PATTERNS[1][1] == 'w';
    assert PATTERNS[2][0] == 'a' && PATTERNS[2][1] == 'w';
    assert PATTERNS[3][0] == 's' && PATTERNS[3][1] == 'h';
    assert MASK[4] == 'a' && MASK[5] == 'c';
  }

  lemma NoMatchInMask(p: string, tail: string, k: nat)
    requires Plain(p) && k < |MASK|
    ensures !MatchesHere(p, MASK[k..] + tail)
  {
    var s := MASK[k..] + tail;
    assert s[0] == MASK[k];
    if k + 1 < |MASK| {
      assert s[1] == MASK[k + 1];
    }
  }

  /** No match starts within the mask. */
  lemma {:induction false} MaskHidesNothing(p: string, tail: string, k: nat)
    requires Plain(p) && k <= |MASK| && Found(p, MASK[k..] + tail)
    ensures Found(p, tail)
    decreases |MASK| - k
  {
    var s := MASK[k..] + tail;
    if k == |MASK| {
      assert s == tail;
    } else {
      NoMatchInMask(p, tail, k);
      assert s[1..] == MASK[k + 1..] + tail;
      MaskHidesNothing(p, tail, k + 1);
    }
  }

  lemma {:induction false} FoundLater(p: string, s: string, k: nat)
    requires k <= |s| && Found(p, s[k..])
    ensures Found(p, s)
  {
    if k == 0 {
      assert s[0..] == s;
    } else {
      assert s[1..][k - 1..] == s[k..];
      FoundLater(p, s[1..], k - 1);
    }
  }

  lemma {:induction false} DropSecretIsSuffix(s: string) returns (k: nat)
    ensures k <= |s| && DropSecret(s) == s[k..]
  {
    if s != "" && SecretChar(s[0]) {
      var j := DropSecretIsSuffix(s[1..]);
      k := j + 1;
      assert s[1..][j..] == s[k..];
    } else {
      k := 0;
    }
  }

  /** Up to its first bracket the rewritten text is the original text. */
  lemma {:induction false} UntouchedHead(q: string, s: string, n: nat)
    requires n <= |Replace(q, s)| && '[' !in Replace(q, s)[..n]
    ensures n <= |s| && Replace(q, s)[..n] == s[..n]
    ensures n > 0 ==> !MatchesHere(q, s)
  {
    if n > 0 {
      var r := Replace(q, s);
      assert r[0] in r[..n];
      assert r[1..] == Replace(q, s[1..]);
      assert forall c | c in r[1..][..n - 1] :: c in r[..n];
      UntouchedHead(q, s[1..], n - 1);
      assert s[..n] == [s[0]] + s[1..][..n - 1];
      assert r[..n] == [r[0]] + r[1..][..n - 1];
    }
  }

  /** A match at the front of the rewritten text, whose own front is not rewritten, was there before. */
  lemma MatchWasThere(p: string, q: string, s: string)
    requires Plain(p) && MatchesHere(p, Replace(q, s))
    ensures MatchesHere(p, s) && !MatchesHere(q, s)
  {
    var r, n := Replace(q, s), |p| + 1;
    assert r[..n] == p + [r[|p|]];
    UntouchedHead(q, s, n);
    assert s[..n] == r[..n];
    assert s[|p|] == r[|p|] && p == s[..|p|];
  }

  /** A pass for `q` creates no match of any pattern, and leaves none of its own. */
  lemma {:induction false} PassCreatesNothing(p: string, q: string, s: string)
    requires Plain(p) && Plain(q) && Found(p, Replace(q, s))
    ensures Found(p, s) && p != q
    decreases |s|
  {
    var r := Replace(q, s);
    if MatchesHere(q, s) {
      var rest := DropSecret(s[|q|..]);
      assert r == MASK[0..] + Replace(q, rest);
      MaskHidesNothing(p, Replace(q, rest), 0);
      PassCreatesNothing(p, q, rest);
      var k := DropSecretIsSuffix(s[|q|..]);
      assert rest == s[|q| + k..];
      FoundLater(p, s, |q| + k);
    } else if MatchesHere(p, r) {
      MatchWasThere(p, q, s);
    } else {
      assert r[1..] == Replace(q, s[1..]);
      PassCreatesNothing(p, q, s[1..]);
    }
  }

  lemma {:induction false} UnmatchedIsUnchanged(p: string, s: string)
    requires !Found(p, s)
    ensures Replace(p, s) == s
  {
    if s != "" {
      UnmatchedIsUnchanged(p, s[1..]);
    }
  }

  lemma {:induction false} DropSecretDrops(w: string, y: string)
    requires forall i | 0 <= i < |w| :: SecretChar(w[i])
    requires y == "" || !SecretChar(y[0])
    ensures DropSecret(w + y) == y
  {
    if w == "" {
      assert w + y == y;
    } else {
      assert (w + y)[1..] == w[1..] + y;
      DropSecretDrops(w[1..], y);
    }
  }

  lemma MatchAtStart(p: string, w: string, y: string)
    requires w != "" && forall i | 0 <= i < |w| :: SecretChar(w[i])
    requires y == "" || !SecretChar(y[0])
    ensures Replace(p, p + w + y) == MASK + Replace(p, y)
  {
    var s := p + w + y;
    assert s[..|p|] == p && s[|p|] == w[0];
    assert s[|p|..] == w + y;
    DropSecretDrops(w, y);
  }

  lemma {:induction false} SkipsUnmatched(p: string, x: string, t: string)
    requires forall i | 0 <= i < |x| :: !MatchesHere(p, (x + t)[i..])
    ensures Replace(p, x + t) == x + Replace(p, t)
  {
    if x == "" {
      assert x + t == t;
    } else {
      var s := x + t;
      assert s[0..] == s && s[1..] == x[1..] + t;
      forall i | 0 <= i < |x[1..]| ensures !MatchesHere(p, (x[1..] + t)[i..]) {
        assert s[1..][i..] == s[i + 1..];
      }
      SkipsUnmatched(p, x[1..], t);
    }
  }

  /** The leftmost match, taken as long as it goes, becomes the mask, and the rest is rewritten in turn. */
  lemma LeftmostLongest(p: string, x: string, w: string, y: string)
    requires w != "" && forall i | 0 <= i < |w| :: SecretChar(w[i])
    requires y == "" || !SecretChar(y[0])
    requires forall i | 0 <= i < |x| :: !MatchesHere(p, (x + (p + w + y))[i..])
    ensures Replace(p, x + (p + w + y)) == x + ("[redacted]" + Replace(p, y))
  {
    SkipsUnmatched(p, x, p + w + y);
    MatchAtStart(p, w, y);
  }

  /** The characters of a secret: ASCII letters and digits, hyphen and underscore. */
  lemma SecretCharCodes(c: char)
    ensures SecretChar(c) <==>
              var n := c as int; 65 <= n <= 90 || 97 <= n <= 122 || 48 <= n <= 57 || n == 45 || n == 95
  {
  }

  /** Redaction is the four passes, one on the result of the other. */
  lemma RedactIsFourPasses(s: string)
    ensures Redact(s) == Replace("sha256:", Replace("awi_tco_", Replace("awi_tex_", Replace("awi_tst_", s))))
  {
    var t1 := Replace("awi_tst_", s);
    var t2 := Replace("awi_tex_", t1);
    var t3 := Replace("awi_tco_", t2);
    assert Passes(PATTERNS[1..], t1) == Redact(s);
    assert PATTERNS[1..][1..] == PATTERNS[2..] && PATTERNS[2..][1..] == PATTERNS[3..] && PATTERNS[3..][1..] == [];
    assert Passes(PATTERNS[2..], t2) == Passes(PATTERNS[1..], t1);
    assert Passes(PATTERNS[3..], t3) == Passes(PATTERNS[2..], t2);
  }

  lemma MatchContainsPrefix(p: string, s: string, c: char)
    requires MatchesHere(p, s) && c in p
    ensures c in s
  {
    assert p == s[..|p|];
  }

  lemma {:induction false} NeedsPrefix(p: string, s: string, c: char)
    requires c in p && c !in s
    ensures !Found(p, s)
  {
    if s != "" {
      if MatchesHere(p, s) {
        MatchContainsPrefix(p, s, c);
      }
      NeedsPrefix(p, s[1..], c);
    }
  }

  const TOKEN := "awi_tst_"
  const DIGEST := "sha256:"
  const SAMPLE := "awi_tst_sha256:x"

  lemma TokenPassFirst()
    ensures Replace(DIGEST, Replace(TOKEN, SAMPLE)) == MASK + ":x"
  {
    assert SAMPLE == TOKEN + "sha256" + ":x";
    MatchAtStart(TOKEN, "sha256", ":x");
    NeedsPrefix(TOKEN, ":x", '_');
    UnmatchedIsUnchanged(TOKEN, ":x");
    NeedsPrefix(DIGEST, MASK + ":x", 's');
    UnmatchedIsUnchanged(DIGEST, MASK + ":x");
  }

  lemma DigestPassFirst()
    ensures Replace(TOKEN, Replace(DIGEST, SAMPLE)) == TOKEN + MASK
  {
    assert SAMPLE == TOKEN + (DIGEST + "x" + "");
    assert DIGEST[0] == 's' && DIGEST[1] == 'h';
    forall i | 0 <= i < |TOKEN| ensures !MatchesHere(DIGEST, SAMPLE[i..]) {
      assert SAMPLE[i..][0] == SAMPLE[i] && SAMPLE[i..][1] == SAMPLE[i + 1];
      assert SAMPLE[i] != 's' || SAMPLE[i + 1] != 'h';
    }
    LeftmostLongest(DIGEST, TOKEN, "x", "");
    assert TOKEN + (MASK + "") == TOKEN + MASK;
    TokenBeforeMask();
    UnmatchedIsUnchanged(TOKEN, TOKEN + MASK);
  }

  lemma TokenBeforeMask()
    ensures !Found(TOKEN, TOKEN + MASK)
  {
    var s := TOKEN + MASK;
    assert s[|TOKEN|] == '[';
    assert TOKEN[0] == 'a' && s[1..][0] == 'w';
    assert 'w' !in s[2..];
    NeedsPrefix(TOKEN, s[2..], 'w');
    assert s[1..][1..] == s[2..];
  }

  /** The order of the passes matters: here the digest pass spoils the token pass's match. */
  lemma PassesDoNotCommute()
    ensures Replace(DIGEST, Replace(TOKEN, SAMPLE)) != Replace(TOKEN, Replace(DIGEST, SAMPLE))
  {
    TokenPassFirst();
    DigestPassFirst();
    assert |MASK + ":x"| != |TOKEN + MASK|;
  }

  /** After all passes no pattern that was run, and none that was absent before, matches. */
  lemma {:induction false} PassesClean(patterns: seq<string>, s: string, p: string)
    requires Plain(p) && (forall k | 0 <= k < |patterns| :: Plain(patterns[k]))
    requires p in patterns || !Found(p, s)
    ensures !Found(p, Passes(patterns, s))
  {
    if patterns != [] {
      var t := Replace(patterns[0], s);
      if Found(p, t) {
        PassCreatesNothing(p, patterns[0], s);
      }
      PassesClean(patterns[1..], t, p);
    }
  }

  lemma {:induction false} CleanIsUnchanged(patterns: seq<string>, s: string)
    requires forall k | 0 <= k < |patterns| :: !Found(patterns[k], s)
    ensures Passes(patterns, s) == s
  {
    if patterns != [] {
      UnmatchedIsUnchanged(patterns[0], s);
      CleanIsUnchanged(patterns[1..], s);
    }
  }

  /** For every input, no pattern matches anywhere in the output. */
  lemma RedactIsClean(s: string)
    ensures forall k | 0 <= k < |PATTERNS| :: !Found(PATTERNS[k], Redact(s))
  {
    PatternsArePlain();
    forall k | 0 <= k < |PATTERNS| ensures !Found(PATTERNS[k], Redact(s)) {
      assert PATTERNS[k] in PATTERNS;
      PassesClean(PATTERNS, s, PATTERNS[k]);
    }
  }

  /** Redacting changes exactly the inputs in which some pattern matches, so it is idempotent. */
  lemma RedactFixpoints(s: string)
    ensures Redact(s) == s <==> forall k | 0 <= k < |PATTERNS| :: !Found(PATTERNS[k], s)
    ensures Redact(Redact(s)) == Redact(s)
  {
    RedactIsClean(s);
    CleanIsUnchanged(PATTERNS, Redact(s));
    if forall k | 0 <= k < |PATTERNS| :: !Found(PATTERNS[k], s) {
      CleanIsUnchanged(PATTERNS, s);
    }
  }

  /** `redact`. */
  method RedactInput(input: string) returns (output: string)
    ensures output == Redact(input)
    ensures forall k | 0 <= k < |PATTERNS| :: !Found(PATTERNS[k], output)
  {
    output := input;
    for i := 0 to |PATTERNS|
      invariant Passes(PATTERNS[i..], output) == Redact(input)
    {
      output := Replace(PATTERNS[i], output);
      assert PATTERNS[i..][1..] == PATTERNS[i + 1..];
    }
    RedactIsClean(input);
  }
}
