// Which submissions share a workflow id, and which reply each submission of a sequence gets, in
// terms of the submissions alone.

module Replies {
  import opened Contracts
  import opened Basics
  import opened Submission
  import Utf8

  // ---- ids ---------------------------------------------------------------------------------------------

  /** The name chosen for a request: the client's key, or the first 32 digits of the payload's digest. */
  predicate Named(env: Environment, req: RunRequest, name: string) {
    if req.idempotencyKey.Some? && |req.idempotencyKey.value| > 0 then name == req.idempotencyKey.value
    else
      var digest := env.sha(PayloadBytes(req));
      if |digest| >= 32 then name == digest[..32] else name == digest
  }

  lemma IdIs(env: Environment, req: RunRequest, name: string)
    requires Named(env, req, name)
    ensures InputFor(env, req).runId == req.tenantId + ":" + name
  {
    assert req.idempotencyKey.Some? && |req.idempotencyKey.value| == 0 ==> req.idempotencyKey.value == "";
    assert |env.sha(PayloadBytes(req))| == 32 ==> env.sha(PayloadBytes(req))[..32] == env.sha(PayloadBytes(req));
  }

  lemma SameId(a: string, m: string, b: string, n: string)
    requires ':' !in a && ':' !in b
    ensures a + ":" + m == b + ":" + n <==> a == b && m == n
  {
    var s, t := a + ":" + m, b + ":" + n;
    if s == t {
      SplitTenant(a, m);
      SplitTenant(b, n);
      assert s[|a| + 1..] == m && t[|b| + 1..] == n;
    }
  }

  /** Two requests share a workflow id exactly when they are of one tenant and have the same name. */
  lemma IdsShareIff(env: Environment, a: RunRequest, b: RunRequest, m: string, n: string)
    requires Valid(a) && Valid(b) && Named(env, a, m) && Named(env, b, n)
    ensures InputFor(env, a).runId == InputFor(env, b).runId <==> a.tenantId == b.tenantId && m == n
  {
    assert !TenantChar(':');
    IdIs(env, a, m);
    IdIs(env, b, n);
    SameId(a.tenantId, m, b.tenantId, n);
  }

  // ---- which runs are held -------------------------------------------------------------------------------

  /** The call reaches the server and takes effect there. */
  predicate Takes(call: Call) {
    !call.oversized && (call.rpc.Answered? || call.rpc.applied)
  }

  /** An id is held exactly when an earlier call for it took effect. */
  lemma {:induction false} HeldIff(calls: seq<Call>, n: nat, id: string)
    requires n <= |calls|
    ensures id in RunsAfter(calls, n) <==> exists k :: 0 <= k < n && Takes(calls[k]) && calls[k].inp.runId == id
  {
    if n > 0 {
      HeldIff(calls, n - 1, id);
      assert id in RunsAfter(calls, n) <==>
          id in RunsAfter(calls, n - 1) || (Takes(calls[n - 1]) && calls[n - 1].inp.runId == id);
    }
  }

  /** The call that starts an id is the first one for it that takes effect. */
  lemma StartsIff(calls: seq<Call>, k: nat, id: string)
    requires k < |calls|
    ensures Starts(calls, k, id) <==>
        && Takes(calls[k]) && calls[k].inp.runId == id
        && forall j :: 0 <= j < k && Takes(calls[j]) ==> calls[j].inp.runId != id
  {
    HeldIff(calls, k, id);
  }

  // ---- which reply a submission gets ---------------------------------------------------------------------

  predicate TooLong(env: Environment, req: RunRequest) {
    |Utf8.Encode(req.task)| > env.maxTaskBytes
  }

  /** The submission's task is within the limit, and its call reaches the server. */
  predicate Effective(env: Environment, sub: Submitted) {
    !TooLong(env, sub.req) && (sub.rpc.Answered? || sub.rpc.applied)
  }

  /** The names chosen for a sequence of submissions. */
  predicate AllNamed(env: Environment, subs: seq<Submitted>, names: seq<string>) {
    |names| == |subs| && forall i :: 0 <= i < |subs| ==> Named(env, subs[i].req, names[i])
  }

  /** An earlier submission that took effect has the tenant and the name of submission i. */
  predicate Precedes(env: Environment, subs: seq<Submitted>, names: seq<string>, k: nat, i: nat)
    requires |names| == |subs| && i < |subs|
  {
    k < i && Effective(env, subs[k]) && subs[k].req.tenantId == subs[i].req.tenantId && names[k] == names[i]
  }

  predicate FirstToPrecede(env: Environment, subs: seq<Submitted>, names: seq<string>, k: nat, i: nat)
    requires |names| == |subs| && i < |subs|
  {
    Precedes(env, subs, names, k, i) && forall j :: 0 <= j < k ==> !Precedes(env, subs, names, j, i)
  }

  lemma CallIs(env: Environment, subs: seq<Submitted>, calls: seq<Call>, i: nat)
    requires Made(env, subs, calls) && i < |subs|
    ensures calls[i].inp == InputFor(env, subs[i].req) && calls[i].rpc == subs[i].rpc && Valid(subs[i].req)
    ensures (calls[i].oversized <==> TooLong(env, subs[i].req)) && (Takes(calls[i]) <==> Effective(env, subs[i]))
    ensures calls[i].inp.tenantId == subs[i].req.tenantId && calls[i].memoReadable == subs[i].memoReadable
  {
    assert MadeBy(env, subs[i], calls[i]);
  }

  lemma PrecedesIff(env: Environment, subs: seq<Submitted>, names: seq<string>, calls: seq<Call>, k: nat, i: nat)
    requires Made(env, subs, calls) && AllNamed(env, subs, names) && k < i < |subs|
    ensures Precedes(env, subs, names, k, i) <==> Takes(calls[k]) && calls[k].inp.runId == calls[i].inp.runId
  {
    CallIs(env, subs, calls, k);
    CallIs(env, subs, calls, i);
    IdsShareIff(env, subs[k].req, subs[i].req, names[k], names[i]);
  }

  lemma FreshIff(env: Environment, subs: seq<Submitted>, names: seq<string>, calls: seq<Call>, i: nat)
    requires Made(env, subs, calls) && AllNamed(env, subs, names) && i < |subs|
    ensures calls[i].inp.runId in RunsAfter(calls, i) <==> exists k :: Precedes(env, subs, names, k, i)
  {
    var id := calls[i].inp.runId;
    HeldIff(calls, i, id);
    if k :| 0 <= k < i && Takes(calls[k]) && calls[k].inp.runId == id {
      PrecedesIff(env, subs, names, calls, k, i);
    }
    if k :| Precedes(env, subs, names, k, i) {
      PrecedesIff(env, subs, names, calls, k, i);
    }
  }

  /**
   * Every reply that does not concern an earlier run: 413 exactly of a task too long, an error
   * exactly when the call was lost, and 201, with the tenant and the name in the run id, exactly
   * when the call was answered and no earlier submission that took effect had both.
   */
  lemma RepliesAre(env: Environment, subs: seq<Submitted>, names: seq<string>, calls: seq<Call>, i: nat)
    requires Made(env, subs, calls) && AllNamed(env, subs, names) && i < |subs|
    ensures var reply, long, rpc := ReplyAt(calls, i), TooLong(env, subs[i].req), subs[i].rpc;
            && (reply == TaskTooLarge <==> long)
            && (reply == UpstreamUnavailable <==> !long && rpc.Lost? && rpc.unavailable)
            && (reply == Unexpected <==> !long && rpc.Lost? && !rpc.unavailable)
            && (reply.Created? <==> !long && rpc.Answered? && !exists k :: Precedes(env, subs, names, k, i))
            && (reply.Created? ==> reply == Created(subs[i].req.tenantId + ":" + names[i], subs[i].req.tenantId))
  {
    CallIs(env, subs, calls, i);
    FreshIff(env, subs, names, calls, i);
    IdIs(env, subs[i].req, names[i]);
  }

  /** Of the submissions that precede another one, one is the first. */
  lemma {:induction false} FirstExists(env: Environment, subs: seq<Submitted>, names: seq<string>, m: nat, i: nat) returns (k: nat)
    requires |names| == |subs| && i < |subs| && Precedes(env, subs, names, m, i)
    ensures FirstToPrecede(env, subs, names, k, i)
  {
    if j :| 0 <= j < m && Precedes(env, subs, names, j, i) {
      k := FirstExists(env, subs, names, j, i);
    } else {
      k := m;
    }
  }

  lemma FirstStarts(env: Environment, subs: seq<Submitted>, names: seq<string>, calls: seq<Call>, k: nat, i: nat)
    requires Made(env, subs, calls) && AllNamed(env, subs, names) && i < |subs| && FirstToPrecede(env, subs, names, k, i)
    ensures Starts(calls, k, calls[i].inp.runId)
  {
    forall j | 0 <= j < k && Takes(calls[j]) ensures calls[j].inp.runId != calls[i].inp.runId {
      PrecedesIff(env, subs, names, calls, j, i);
    }
    PrecedesIff(env, subs, names, calls, k, i);
    StartsIff(calls, k, calls[i].inp.runId);
  }

  lemma StartedRun(calls: seq<Call>, k: nat, id: string)
    requires k < |calls| && Starts(calls, k, id)
    ensures id in RunsAfter(calls, k + 1) && RunsAfter(calls, k + 1)[id].inp == calls[k].inp
  {
  }

  lemma FirstIsHeld(calls: seq<Call>, k: nat, i: nat, id: string)
    requires k < i < |calls| && Starts(calls, k, id)
    ensures id in RunsAfter(calls, i + 1) && RunsAfter(calls, i + 1)[id].inp == calls[k].inp
  {
    StartedRun(calls, k, id);
    RunsPersist(calls, k + 1, i + 1, id);
  }

  lemma ReplyToLater(env: Environment, subs: seq<Submitted>, calls: seq<Call>, k: nat, i: nat)
    requires Made(env, subs, calls) && DigestSeparates(env, subs) && k < i < |subs|
    requires Starts(calls, k, calls[i].inp.runId) && !calls[i].oversized && calls[i].rpc.Answered?
    ensures ReplyAt(calls, i) ==
        if subs[i].memoReadable && !SamePayload(subs[k].req, subs[i].req) then IdempotencyConflict
        else Replayed(calls[i].inp.runId, calls[i].inp.tenantId)
  {
    ReplayOrConflict(calls, k, i);
    CallsCompare(env, subs, calls, i, k);
  }

  /**
   * A submission that comes after others of its tenant with its name is answered with the run of the
   * first of them, or with a conflict: exactly when the memo was read and the payloads differ.
   */
  lemma {:induction false} LaterReplyIs(env: Environment, subs: seq<Submitted>, names: seq<string>, calls: seq<Call>, k: nat, i: nat)
    requires Made(env, subs, calls) && AllNamed(env, subs, names) && DigestSeparates(env, subs) && i < |subs|
    requires FirstToPrecede(env, subs, names, k, i) && !TooLong(env, subs[i].req) && subs[i].rpc.Answered?
    ensures ReplyAt(calls, i) ==
        if subs[i].memoReadable && !(subs[k].req.task == subs[i].req.task && subs[k].req.params == subs[i].req.params)
        then IdempotencyConflict
        else Replayed(subs[i].req.tenantId + ":" + names[i], subs[i].req.tenantId)
    ensures calls[i].inp.runId in RunsAfter(calls, i + 1)
    ensures RunsAfter(calls, i + 1)[calls[i].inp.runId].inp == InputFor(env, subs[k].req)
  {
    FirstStarts(env, subs, names, calls, k, i);
    CallIs(env, subs, calls, i);
    ReplyToLater(env, subs, calls, k, i);
    IdIs(env, subs[i].req, names[i]);
    FirstIsHeld(calls, k, i, calls[i].inp.runId);
    CallIs(env, subs, calls, k);
  }
}
