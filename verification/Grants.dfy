/** What becomes of the calls the server grants (agent/serverapi/tool_worker.go:88-128), given a
    server that answers a repeated claim key with its stored reply. */
module Grants {
  import opened Prelude
  import opened Text
  import opened Protocol
  import opened ClaimLoop
  import opened Worker

  /** The worker received the stored reply and acted on it. */
  predicate Acted(reply: Option<ClaimReply>) {
    reply.Some? && !reply.value.Failed?
  }

  predicate Asked(claims: seq<ClaimRequest>, key: string) {
    exists i :: 0 <= i < |claims| && claims[i].key == key
  }

  /** Some reading of the stored reply is what the worker acted on. */
  ghost predicate ReadFrom(wire: ClaimWire, reply: ClaimReply) {
    match reply
    case Failed(_) => true
    case Nothing => exists now :: ReadClaim(wire, now) == Ok(NoneAvailable)
    case Dispatched(ack, _) => exists now :: ReadClaim(wire, now) == Ok(ack)
    case Declined(ack) => exists now :: ReadClaim(wire, now) == Ok(ack)
  }

  ghost predicate StoreInv(w: World) {
    && (forall key | key in w.store :: Asked(w.loop.claims, key))
    && (forall i | 0 <= i < |w.loop.claims| && Acted(w.loop.claims[i].reply) ::
          w.loop.claims[i].key in w.store
          && ReadFrom(w.store[w.loop.claims[i].key], w.loop.claims[i].reply.value))
  }

  lemma AskedStays(before: seq<ClaimRequest>, after: seq<ClaimRequest>, key: string)
    requires History(before, after) && Asked(before, key)
    ensures Asked(after, key)
  {
    var i :| 0 <= i < |before| && before[i].key == key;
    assert after[i].key == key;
  }

  lemma StoreLoopStep(c: Config, w: World, step: LoopStep)
    requires StoreInv(w) && KeyInv(c.nonce, w.loop) && Enabled(c, w, LoopMoves(step))
    ensures StoreInv(Next(c, w, LoopMoves(step)))
  {
    var l, l' := w.loop, LoopNext(c.nonce, c.poll, w.loop, w.now, w.cancelled, step);
    LoopHistory(c.nonce, c.poll, l, w.now, w.cancelled, step);
    forall key | key in w.store ensures Asked(l'.claims, key) {
      AskedStays(l.claims, l'.claims, key);
    }
    forall i | 0 <= i < |l'.claims| && Acted(l'.claims[i].reply)
      ensures l'.claims[i].key in w.store && ReadFrom(w.store[l'.claims[i].key], l'.claims[i].reply.value)
    {
      if i < |l.claims| && l.claims[i].reply.Some? {
        assert l'.claims[i].reply == l.claims[i].reply;
      } else {
        ActedOnAnswer(c, w, step, i);
      }
    }
  }

  lemma ActedOnAnswer(c: Config, w: World, step: LoopStep, i: nat)
    requires KeyInv(c.nonce, w.loop) && Enabled(c, w, LoopMoves(step))
    requires var l' := LoopNext(c.nonce, c.poll, w.loop, w.now, w.cancelled, step);
      i < |l'.claims| && Acted(l'.claims[i].reply) && (i < |w.loop.claims| ==> w.loop.claims[i].reply.None?)
    ensures var l' := LoopNext(c.nonce, c.poll, w.loop, w.now, w.cancelled, step);
      l'.claims[i].key in w.store && ReadFrom(w.store[l'.claims[i].key], l'.claims[i].reply.value)
  {
    NewReplies(c.nonce, c.poll, w.loop, w.now, w.cancelled, step, i);
    assert step.Answer?;
    assert ReadClaim(step.wire, w.now) == ReadClaim(w.store[Last(w.loop.claims).key], w.now);
  }

  lemma StoreStep(c: Config, w: World, step: Step)
    requires StoreInv(w) && KeyInv(c.nonce, w.loop) && Enabled(c, w, step)
    ensures StoreInv(Next(c, w, step))
  {
    match step
    case LoopMoves(s) => StoreLoopStep(c, w, s);
    case _ =>
  }

  // ---- the two halves of claim delivery -------------------------------------

  /** The stored reply under one key is acted on at most once. */
  lemma ActedOnce(nonce: string, l: Loop, i: nat, j: nat)
    requires NulFree(nonce) && KeyInv(nonce, l) && i < j < |l.claims|
    requires l.claims[i].key == l.claims[j].key
    ensures !Acted(l.claims[i].reply)
  {
    KeyLaw(nonce, l, i, j);
    assert Retried(l.claims, i);
  }

  lemma ActedOnDistinctKeys(nonce: string, l: Loop, i: nat, j: nat)
    requires NulFree(nonce) && KeyInv(nonce, l) && i < |l.claims| && j < |l.claims| && i != j
    requires Acted(l.claims[i].reply) && Acted(l.claims[j].reply)
    ensures l.claims[i].key != l.claims[j].key
  {
    if l.claims[i].key == l.claims[j].key {
      ActedOnce(nonce, l, if i < j then i else j, if i < j then j else i);
    }
  }

  /** Why no later request will ask for the reply under request `i`'s key again. */
  predicate GivenUp(claims: seq<ClaimRequest>, i: nat)
    requires i < |claims|
  {
    || (claims[i].reply.Some? && claims[i].reply.value.Failed? && !RetryableReply(claims[i].reply))
    || (i + 1 < |claims| && claims[i + 1].token != claims[i].token)
  }

  predicate LastWithKey(claims: seq<ClaimRequest>, i: nat) {
    i < |claims| && forall j | i < j < |claims| :: claims[j].key != claims[i].key
  }

  lemma {:induction false} FindLast(claims: seq<ClaimRequest>, key: string, n: nat) returns (i: nat)
    requires n <= |claims| && (exists k :: 0 <= k < n && claims[k].key == key)
    requires forall j | n <= j < |claims| :: claims[j].key != key
    ensures LastWithKey(claims, i) && claims[i].key == key
  {
    if claims[n - 1].key == key {
      i := n - 1;
    } else {
      i := FindLast(claims, key, n - 1);
    }
  }

  /** Every grant is acted on, or given up for a changed token or an error not worth retrying, or
      still within reach of the next request under the live key, unless the worker is shutting down. */
  lemma GrantFate(nonce: string, l: Loop, key: string) returns (i: nat)
    requires NulFree(nonce) && KeyInv(nonce, l) && Asked(l.claims, key)
    ensures LastWithKey(l.claims, i) && l.claims[i].key == key
    ensures || Acted(l.claims[i].reply)
            || GivenUp(l.claims, i)
            || (i == |l.claims| - 1 && (l.key == Some(key) || ClosingPc(l.pc)))
  {
    i := FindLast(l.claims, key, |l.claims|);
    if i + 1 < |l.claims| {
      KeyLaw(nonce, l, i, i + 1);
      assert !Retried(l.claims, i);
    }
  }

  /** Not acted on and not abandoned: the worker still owes this key a request. */
  predicate Outstanding(claims: seq<ClaimRequest>, key: string) {
    && Asked(claims, key)
    && forall i | 0 <= i < |claims| && claims[i].key == key :: !Acted(claims[i].reply) && !GivenUp(claims, i)
  }

  /** At most one key is outstanding at any time, and until shutdown it is the live one. */
  lemma OneOutstandingKey(nonce: string, l: Loop, key: string, other: string)
    requires NulFree(nonce) && KeyInv(nonce, l)
    requires Outstanding(l.claims, key) && Outstanding(l.claims, other)
    ensures key == other
    ensures l.key == Some(key) || ClosingPc(l.pc)
  {
    var i := GrantFate(nonce, l, key);
    var j := GrantFate(nonce, l, other);
  }
}
