/** Idempotency keys (agent/serverapi/idempotency.go). The SHA-256 digest is taken to be
    injective on the strings it is given, so a key is represented by its preimage. */
module Keys {
  import opened Text

  /** `strings.Join(parts, "\x00")`. */
  function Join(parts: seq<string>): string {
    if parts == [] then ""
    else if |parts| == 1 then parts[0]
    else parts[0] + "\0" + Join(parts[1..])
  }

  const DIGITS: string := "0123456789"

  /** `fmt.Sprint` of a natural number. */
  function Decimal(n: nat): string {
    if n < 10 then [DIGITS[n]] else Decimal(n / 10) + [DIGITS[n % 10]]
  }

  function ClaimKey(nonce: string, token: string, attempt: nat): string {
    Join(["claim", nonce, token, Decimal(attempt)])
  }

  function OutcomeKey(token: string): string {
    Join(["outcome", token])
  }

  lemma {:induction false} DecimalNulFree(n: nat)
    ensures NulFree(Decimal(n)) && Decimal(n) != ""
  {
    if n >= 10 {
      DecimalNulFree(n / 10);
    }
  }

  lemma DecimalLast(n: nat)
    ensures Decimal(n) != "" && Decimal(n)[|Decimal(n)| - 1] == DIGITS[n % 10]
    ensures n >= 10 ==> |Decimal(n)| > 1 && Decimal(n)[..|Decimal(n)| - 1] == Decimal(n / 10)
    ensures n < 10 ==> |Decimal(n)| == 1
  {
    if n >= 10 {
      DecimalNulFree(n / 10);
    }
  }

  lemma DigitsDistinct(a: nat, b: nat)
    requires a < 10 && b < 10 && DIGITS[a] == DIGITS[b]
    ensures a == b
  {
  }

  lemma {:induction false} DecimalInjective(m: nat, n: nat)
    requires Decimal(m) == Decimal(n)
    ensures m == n
    decreases m
  {
    DecimalLast(m);
    DecimalLast(n);
    DigitsDistinct(m % 10, n % 10);
    if m >= 10 && n >= 10 {
      DecimalInjective(m / 10, n / 10);
    }
  }

  /** Reading the digits back, base ten. */
  function Value(s: string): int {
    if s == "" then 0 else 10 * Value(s[..|s| - 1]) + (s[|s| - 1] as int - 48)
  }

  lemma DigitCodes(d: nat)
    requires d < 10
    ensures DIGITS[d] as int == 48 + d
  {
  }

  lemma {:induction false} DecimalReadsBack(n: nat)
    ensures Value(Decimal(n)) == n
  {
    DecimalLast(n);
    DigitCodes(n % 10);
    var s := Decimal(n);
    if n >= 10 {
      DecimalReadsBack(n / 10);
      assert s[..|s| - 1] == Decimal(n / 10);
    } else {
      assert s[..|s| - 1] == "";
    }
  }

  /** A NUL after a NUL-free head splits a string in only one way. */
  lemma {:induction false} HeadSplit(a: string, x: string, b: string, y: string)
    requires NulFree(a) && NulFree(b)
    requires a + "\0" + x == b + "\0" + y
    ensures a == b && x == y
  {
    var s, t := a + "\0" + x, b + "\0" + y;
    assert s[|a|] == '\0' && t[|b|] == '\0';
    assert forall i | 0 <= i < |a| :: s[i] == a[i] && s[i] in a;
    assert forall i | 0 <= i < |b| :: t[i] == b[i] && t[i] in b;
    assert |a| == |b|;
    assert s[..|a|] == a && t[..|b|] == b;
    assert s[|a| + 1..] == x && t[|b| + 1..] == y;
  }

  /** So does a NUL before a NUL-free tail, whatever stands in front of it. */
  lemma {:induction false} TailSplit(x: string, a: string, y: string, b: string)
    requires NulFree(a) && NulFree(b)
    requires x + "\0" + a == y + "\0" + b
    ensures a == b && x == y
  {
    var s, t := x + "\0" + a, y + "\0" + b;
    assert s[|x|] == '\0' && t[|y|] == '\0';
    assert forall i | |x| < i < |s| :: s[i] == a[i - |x| - 1] && s[i] in a;
    assert forall i | |y| < i < |t| :: t[i] == b[i - |y| - 1] && t[i] in b;
    assert |x| == |y|;
    assert s[..|x|] == x && t[..|y|] == y;
    assert s[|x| + 1..] == a && t[|y| + 1..] == b;
  }

  lemma JoinCons(head: string, rest: seq<string>)
    requires rest != []
    ensures Join([head] + rest) == head + "\0" + Join(rest)
  {
    assert ([head] + rest)[1..] == rest;
  }

  lemma ClaimKeyShape(nonce: string, token: string, attempt: nat)
    ensures ClaimKey(nonce, token, attempt) == "claim" + "\0" + (nonce + "\0" + (token + "\0" + Decimal(attempt)))
  {
    var number := Decimal(attempt);
    JoinCons("claim", [nonce, token, number]);
    JoinCons(nonce, [token, number]);
    JoinCons(token, [number]);
    assert ["claim"] + [nonce, token, number] == ["claim", nonce, token, number];
    assert [nonce] + [token, number] == [nonce, token, number];
    assert [token] + [number] == [token, number];
    assert Join([number]) == number;
    var inner := token + "\0" + number;
    assert Join([nonce, token, number]) == nonce + "\0" + inner;
  }

  /** Claim keys of one process are equal only for the same token and the same attempt,
      although tokens come from the server and may contain NUL. */
  lemma ClaimKeyInjective(nonce: string, t1: string, n1: nat, t2: string, n2: nat)
    requires NulFree(nonce)
    ensures ClaimKey(nonce, t1, n1) == ClaimKey(nonce, t2, n2) <==> t1 == t2 && n1 == n2
  {
    if ClaimKey(nonce, t1, n1) == ClaimKey(nonce, t2, n2) {
      ClaimKeyShape(nonce, t1, n1);
      ClaimKeyShape(nonce, t2, n2);
      var x, y := t1 + "\0" + Decimal(n1), t2 + "\0" + Decimal(n2);
      assert ("claim" + "\0" + (nonce + "\0" + x))[6..] == nonce + "\0" + x;
      assert ("claim" + "\0" + (nonce + "\0" + y))[6..] == nonce + "\0" + y;
      HeadSplit(nonce, x, nonce, y);
      DecimalNulFree(n1);
      DecimalNulFree(n2);
      TailSplit(t1, Decimal(n1), t2, Decimal(n2));
      DecimalInjective(n1, n2);
    }
  }

  lemma OutcomeKeyShape(token: string)
    ensures OutcomeKey(token) == "outcome" + "\0" + token
  {
    JoinCons("outcome", [token]);
    assert ["outcome"] + [token] == ["outcome", token];
    assert Join([token]) == token;
  }

  /** Outcome keys identify their outcome token, and never collide with a claim key. */
  lemma OutcomeKeyInjective(t1: string, t2: string, nonce: string, t3: string, n: nat)
    ensures OutcomeKey(t1) == OutcomeKey(t2) <==> t1 == t2
    ensures OutcomeKey(t1) != ClaimKey(nonce, t3, n)
  {
    OutcomeKeyShape(t1);
    OutcomeKeyShape(t2);
    ClaimKeyShape(nonce, t3, n);
    assert OutcomeKey(t1)[8..] == t1 && OutcomeKey(t2)[8..] == t2;
    assert OutcomeKey(t1)[0] == 'o' && ClaimKey(nonce, t3, n)[0] == 'c';
  }
}
