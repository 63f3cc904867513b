/**
  async_transaction: a transaction handed to a body that may do anything with it, while the
  cancellation token may be cancelled at any moment.
 */
module AsyncScopeSpec {
  import opened Common
  import opened TransactionSpec
  import opened TransactionTheorems

  /** The token the caller passes: none, one not yet cancelled, or one cancelled before. */
  datatype Token = NoToken | Live | AlreadyCancelled

  /** Steps of the body of `async with async_transaction(...)`, with cancellations in between. The
      body makes any call on the transaction and lets its exception escape or catches it. */
  datatype BodyStep =
    | CancelToken
    | Do(call: Call, caught: bool)
    | RaiseNow

  /** `armed`: the transaction's callback is registered on the token and has not been called. */
  datatype Scope = Scope(tx: Transaction, provider: Provider, armed: bool)

  /** cancel_transaction, as the token calls it: its exceptions are swallowed there. */
  function Cancelled(s: Scope): Scope {
    if s.armed && s.tx.status == Started
    then Scope(Rollback(s.tx, s.provider).tx, Rollback(s.tx, s.provider).provider, false)
    else s.(armed := false)
  }

  /** One step; true when it raises into the body. */
  function BodyStepOf(s: Scope, step: BodyStep): (Scope, bool) {
    match step
    case CancelToken => (Cancelled(s), false)
    case RaiseNow => (s, true)
    case Do(call, caught) =>
      var o := Apply(s.tx, s.provider, call);
      (Scope(o.tx, o.provider, s.armed), o.raised.Some? && !caught)
  }

  function Body(s: Scope, steps: seq<BodyStep>): (Scope, bool)
    decreases |steps|
  {
    if steps == [] then (s, false)
    else
      var (next, raised) := BodyStepOf(s, steps[0]);
      if raised then (next, true) else Body(next, steps[1..])
  }

  datatype ScopeOutcome = ScopeOutcome(scope: Scope, raised: bool)

  /** The transaction is made and the callback registered; on a token cancelled before it is called
      at once. */
  function Enter(p: Provider, name: string, autoCommit: bool, token: Token): Scope {
    var made := Scope(Fresh(name, autoCommit), p, true);
    match token
    case NoToken => made.(armed := false)
    case Live => made
    case AlreadyCancelled => Cancelled(made)
  }

  function Finish(s: Scope, bodyRaised: bool): ScopeOutcome {
    var ended := Exit(s.tx, s.provider, bodyRaised);
    ScopeOutcome(Scope(ended.tx, ended.provider, s.armed), bodyRaised || ended.raised.Some?)
  }

  function AsyncScope(p: Provider, name: string, autoCommit: bool, token: Token, body: seq<BodyStep>): ScopeOutcome {
    var entered := Enter(p, name, autoCommit, token);
    var started := Start(entered.tx, entered.provider);
    var open := Scope(started.tx, started.provider, entered.armed);
    if started.raised.Some? then ScopeOutcome(open, true)
    else
      var (s, bodyRaised) := Body(open, body);
      Finish(s, bodyRaised)
  }

  /** The scope as the body finds it. */
  function Opened(p: Provider, name: string, autoCommit: bool, token: Token): Scope {
    var started := Start(Fresh(name, autoCommit), p);
    Scope(started.tx, started.provider, token.Live?)
  }

  lemma ScopeIs(p: Provider, name: string, autoCommit: bool, token: Token, body: seq<BodyStep>)
    ensures var open := Opened(p, name, autoCommit, token);
            AsyncScope(p, name, autoCommit, token, body) ==
              if open.tx.status != Started then ScopeOutcome(open, true) else OpenScope(open, body)
    ensures Opened(p, name, autoCommit, token).tx.operations == []
    ensures Opened(p, name, autoCommit, token).tx.autoCommit == autoCommit
    ensures Opened(p, name, autoCommit, token).tx.status in {Started, Failed}
  {
  }

  // ---------- the step that decides ----------

  /** While the transaction is open, a step that ends it or leaves the body. */
  predicate Decisive(armed: bool, step: BodyStep) {
    match step
    case CancelToken => armed
    case RaiseNow => true
    case Do(call, caught) => call.CallCommit? || call.CallRollback? || call.CallExit? || (call.CallStart? && !caught)
  }

  /** Position of the first decisive step, or the length. */
  function FirstDecisive(armed: bool, body: seq<BodyStep>): (k: nat)
    ensures k <= |body|
    ensures forall i | 0 <= i < k :: !Decisive(armed, body[i])
    ensures k < |body| ==> Decisive(armed, body[k])
    decreases |body|
  {
    if body == [] || Decisive(armed, body[0]) then 0 else 1 + FirstDecisive(armed, body[1..])
  }

  function Queued(body: seq<BodyStep>): seq<Hook> {
    if body == [] then []
    else (if body[0].Do? && body[0].call.AddOperation? then [body[0].call.hook] else []) + Queued(body[1..])
  }

  /** The transaction is committed where it ends: by the first decisive step, or by the exit. */
  predicate CommitPoint(armed: bool, autoCommit: bool, body: seq<BodyStep>) {
    var k := FirstDecisive(armed, body);
    if k == |body| then autoCommit
    else body[k].Do? && (body[k].call.CallCommit? || (body[k].call.CallExit? && !body[k].call.bodyRaised && autoCommit))
  }

  /** From `a` to `b` the transaction stayed open and gathered `queued`. */
  ghost predicate StayedOpen(a: Scope, b: Scope, queued: seq<Hook>) {
    && b.provider == a.provider && b.armed == a.armed
    && b.tx.status == Started && b.tx.handle == a.tx.handle && b.tx.autoCommit == a.tx.autoCommit
    && b.tx.operations == a.tx.operations + queued
  }

  lemma StayedOpenTrans(a: Scope, b: Scope, c: Scope, first: seq<Hook>, second: seq<Hook>)
    requires StayedOpen(a, b, first) && StayedOpen(b, c, second)
    ensures StayedOpen(a, c, first + second)
  {
    assert a.tx.operations + first + second == a.tx.operations + (first + second);
  }

  lemma OpenStep(s: Scope, step: BodyStep)
    requires s.tx.status == Started && !Decisive(s.armed, step)
    ensures StayedOpen(s, BodyStepOf(s, step).0, Queued([step])) && !BodyStepOf(s, step).1
  {
    assert [step][1..] == [] && s.tx.operations + [] == s.tx.operations;
  }

  lemma QueuedCons(body: seq<BodyStep>)
    requires body != []
    ensures Queued(body) == Queued([body[0]]) + Queued(body[1..])
  {
    assert [body[0]][1..] == [];
  }

  /** Up to the decisive step the transaction stays open. */
  lemma {:induction false} OpenBody(s: Scope, body: seq<BodyStep>)
    requires s.tx.status == Started && forall i | 0 <= i < |body| :: !Decisive(s.armed, body[i])
    ensures StayedOpen(s, Body(s, body).0, Queued(body)) && !Body(s, body).1
    decreases |body|
  {
    if body != [] {
      var next, rest := BodyStepOf(s, body[0]).0, body[1..];
      assert !Decisive(s.armed, body[0]);
      OpenStep(s, body[0]);
      assert Body(s, body) == Body(next, rest);
      forall i | 0 <= i < |rest| ensures !Decisive(next.armed, rest[i]) {
        assert !Decisive(s.armed, body[i + 1]);
      }
      OpenBody(next, rest);
      QueuedCons(body);
      StayedOpenTrans(s, next, Body(next, rest).0, Queued([body[0]]), Queued(rest));
    } else {
      assert s.tx.operations + [] == s.tx.operations;
    }
  }

  /** What a decisive step leaves of an open transaction: it is closed, or the step raised and left
      it open; and it is committed exactly if the step commits and nothing stands in the way. */
  ghost predicate Decided(s: Scope, step: BodyStep, at: Scope, raised: bool) {
    && (at.tx.status in {Committed, RolledBack, Failed} || (raised && at.tx.status == Started))
    && (at.tx.status == Committed <==>
          && step.Do?
          && (step.call.CallCommit? || (step.call.CallExit? && !step.call.bodyRaised && s.tx.autoCommit))
          && (forall h | h in s.tx.operations :: !h.raises)
          && ProviderFinish(s.provider, s.tx.handle).0 == Yes)
    && at.tx.autoCommit == s.tx.autoCommit
  }

  lemma DecisiveStep(s: Scope, step: BodyStep)
    requires s.tx.status == Started && Decisive(s.armed, step)
    ensures Decided(s, step, BodyStepOf(s, step).0, BodyStepOf(s, step).1)
  {
    RollbackGrows(s.tx, s.provider);
    CommitsIf(s.tx, s.provider);
  }

  lemma CommitsIf(tx: Transaction, p: Provider)
    requires tx.status == Started
    ensures var r := Commit(tx, p).tx;
            && r.status in {Committed, RolledBack, Failed} && r.autoCommit == tx.autoCommit
            && (r.status == Committed <==>
                  (forall h | h in tx.operations :: !h.raises) && ProviderFinish(p, tx.handle).0 == Yes)
            && (Commit(tx, p).raised.None? <==> r.status == Committed)
  {
    CommitGrows(tx, p);
    var k := FirstRaising(tx.operations);
    if k < |tx.operations| { assert tx.operations[k] in tx.operations; }
  }

  // ---------- once it has ended ----------

  /** What stays when calls meet a transaction that has ended. */
  ghost predicate StaysEnded(a: Transaction, p: Provider, b: Transaction, q: Provider) {
    && b.status in {Committed, RolledBack, Failed}
    && (b.status == Committed <==> a.status == Committed)
    && (a.status in {Committed, RolledBack} ==> b.status == a.status && q == p && b.trace == a.trace)
    && b.autoCommit == a.autoCommit
  }

  lemma EndedCall(tx: Transaction, p: Provider, call: Call)
    requires tx.status in {Committed, RolledBack, Failed}
    ensures var o := Apply(tx, p, call); StaysEnded(tx, p, o.tx, o.provider)
  {
    RollbackGrows(tx, p);
  }

  lemma {:induction false} EndedBody(s: Scope, body: seq<BodyStep>)
    requires s.tx.status in {Committed, RolledBack, Failed}
    ensures var r := Body(s, body).0; StaysEnded(s.tx, s.provider, r.tx, r.provider)
    decreases |body|
  {
    if body != [] {
      var (next, raised) := BodyStepOf(s, body[0]);
      if body[0].Do? { EndedCall(s.tx, s.provider, body[0].call); }
      if !raised { EndedBody(next, body[1..]); }
    }
  }

  lemma EndedFinish(s: Scope, bodyRaised: bool)
    requires s.tx.status in {Committed, RolledBack, Failed}
    ensures var r := Finish(s, bodyRaised);
            && StaysEnded(s.tx, s.provider, r.scope.tx, r.scope.provider)
            && (s.tx.status == Committed ==> (r.raised <==> bodyRaised || s.tx.autoCommit))
            && (s.tx.autoCommit ==> r.raised)
  {
    EndedCall(s.tx, s.provider, CallExit(bodyRaised));
  }

  lemma {:induction false} BodyConcat(s: Scope, a: seq<BodyStep>, b: seq<BodyStep>)
    ensures var (r, raised) := Body(s, a);
            Body(s, a + b) == if raised then (r, true) else Body(r, b)
    decreases |a|
  {
    if a == [] {
      assert a + b == b;
    } else {
      assert (a + b)[1..] == a[1..] + b;
      var (next, raised) := BodyStepOf(s, a[0]);
      if !raised { BodyConcat(next, a[1..], b); }
    }
  }

  /** A body cut after step `k`. */
  lemma BodyCut(s: Scope, body: seq<BodyStep>, k: nat)
    requires k < |body| && !Body(s, body[..k]).1
    ensures Body(s, body[..k + 1]) == BodyStepOf(Body(s, body[..k]).0, body[k])
    ensures var (at, raised) := Body(s, body[..k + 1]);
            Body(s, body) == if raised then (at, true) else Body(at, body[k + 1..])
  {
    BodyConcat(s, body[..k], [body[k]]);
    assert body[..k] + [body[k]] == body[..k + 1];
    OneStep(Body(s, body[..k]).0, body[k]);
    BodyConcat(s, body[..k + 1], body[k + 1..]);
    assert body[..k + 1] + body[k + 1..] == body;
  }

  /** What the first decisive step leaves. */
  lemma DecidedBody(s: Scope, body: seq<BodyStep>) returns (before: Scope, at: Scope, raised: bool)
    requires s.tx.status == Started && FirstDecisive(s.armed, body) < |body|
    ensures var k := FirstDecisive(s.armed, body);
            && (at, raised) == Body(s, body[..k + 1]) && Decided(before, body[k], at, raised)
            && Body(s, body) == (if raised then (at, true) else Body(at, body[k + 1..]))
            && before.provider == s.provider && before.tx.handle == s.tx.handle && before.tx.autoCommit == s.tx.autoCommit
            && before.tx.operations == s.tx.operations + Queued(body[..k])
  {
    var k := FirstDecisive(s.armed, body);
    OpenBody(s, body[..k]);
    before := Body(s, body[..k]).0;
    BodyCut(s, body, k);
    at, raised := Body(s, body[..k + 1]).0, Body(s, body[..k + 1]).1;
    DecisiveStep(before, body[k]);
  }

  lemma OneStep(s: Scope, step: BodyStep)
    ensures Body(s, [step]) == BodyStepOf(s, step)
  {
    assert [step][1..] == [];
  }

  /** The exit of an open transaction. */
  lemma FinishOpen(s: Scope, bodyRaised: bool)
    requires s.tx.status == Started
    ensures var r := Finish(s, bodyRaised);
            && r.scope.tx.status in {Committed, RolledBack, Failed}
            && (r.scope.tx.status == Committed <==>
                  && !bodyRaised && s.tx.autoCommit
                  && (forall h | h in s.tx.operations :: !h.raises)
                  && ProviderFinish(s.provider, s.tx.handle).0 == Yes)
            && (!bodyRaised && s.tx.autoCommit ==> (r.raised <==> r.scope.tx.status != Committed))
  {
    CommitsIf(s.tx, s.provider);
    RollbackGrows(s.tx, s.provider);
  }

  /** The rest of the scope after the decisive step. */
  function Rest(at: Scope, raised: bool, rest: seq<BodyStep>): (Scope, bool) {
    if raised then (at, true) else Body(at, rest)
  }

  /** Nothing after the decisive step makes or unmakes a commit, and an auto-committing scope
      cannot return any more. */
  lemma RestEnds(at: Scope, raised: bool, rest: seq<BodyStep>)
    requires at.tx.status in {Committed, RolledBack, Failed} || (raised && at.tx.status == Started)
    ensures var (s, bodyRaised) := Rest(at, raised, rest);
            var r := Finish(s, bodyRaised);
            && r.scope.tx.status in {Committed, RolledBack, Failed}
            && (r.scope.tx.status == Committed <==> at.tx.status == Committed)
            && (at.tx.status == Committed ==>
                  && r.scope.provider == at.provider && r.scope.tx.trace == at.tx.trace
                  && (r.raised <==> bodyRaised || at.tx.autoCommit))
            && (at.tx.autoCommit ==> r.raised)
  {
    if at.tx.status == Started {
      FinishOpen(at, true);
    } else {
      if !raised { EndedBody(at, rest); }
      var (s, bodyRaised) := Rest(at, raised, rest);
      EndedFinish(s, bodyRaised);
    }
  }

  // ---------- theorems ----------

  /** What the scope needs in order to commit, as far as the caller and the provider decide it. */
  ghost predicate MayCommit(open: Scope, body: seq<BodyStep>) {
    && CommitPoint(open.armed, open.tx.autoCommit, body)
    && (forall h | h in Queued(body[..FirstDecisive(open.armed, body)]) :: !h.raises)
    && ProviderFinish(open.provider, open.tx.handle).0 == Yes
  }

  /** The outcome of a scope whose transaction has started. */
  function OpenScope(open: Scope, body: seq<BodyStep>): ScopeOutcome {
    var (s, bodyRaised) := Body(open, body);
    Finish(s, bodyRaised)
  }

  lemma DecidedScope(open: Scope, body: seq<BodyStep>)
    requires open.tx.status == Started && open.tx.operations == []
    requires FirstDecisive(open.armed, body) < |body|
    ensures var r, at := OpenScope(open, body), Body(open, body[..FirstDecisive(open.armed, body) + 1]).0;
            && r.scope.tx.status in {Committed, RolledBack, Failed}
            && (r.scope.tx.status == Committed <==> at.tx.status == Committed)
            && (r.scope.tx.status == Committed <==> MayCommit(open, body))
            && (at.tx.status == Committed ==>
                  && r.scope.provider == at.provider && r.scope.tx.trace == at.tx.trace
                  && (r.raised <==> Body(open, body).1 || open.tx.autoCommit))
            && (open.tx.autoCommit ==> r.raised)
  {
    var k := FirstDecisive(open.armed, body);
    var before, at, raised := DecidedBody(open, body);
    assert [] + Queued(body[..k]) == Queued(body[..k]);
    RestEnds(at, raised, body[k + 1..]);
  }

  lemma UndecidedScope(open: Scope, body: seq<BodyStep>)
    requires open.tx.status == Started && open.tx.operations == []
    requires FirstDecisive(open.armed, body) == |body|
    ensures var r := OpenScope(open, body);
            && r.scope.tx.status in {Committed, RolledBack, Failed}
            && (r.scope.tx.status == Committed <==> MayCommit(open, body))
            && (open.tx.autoCommit ==> (r.raised <==> r.scope.tx.status != Committed))
  {
    OpenBody(open, body);
    var s := Body(open, body).0;
    assert OpenScope(open, body) == Finish(s, false);
    ExitDecides(open, s, body);
  }

  lemma ExitDecides(open: Scope, s: Scope, body: seq<BodyStep>)
    requires open.tx.operations == [] && StayedOpen(open, s, Queued(body)) && FirstDecisive(open.armed, body) == |body|
    ensures var r := Finish(s, false);
            && r.scope.tx.status in {Committed, RolledBack, Failed}
            && (r.scope.tx.status == Committed <==> MayCommit(open, body))
            && (open.tx.autoCommit ==> (r.raised <==> r.scope.tx.status != Committed))
  {
    FinishOpen(s, false);
    assert [] + Queued(body) == Queued(body);
    MayCommitAtExit(open, body);
  }

  lemma MayCommitAtExit(open: Scope, body: seq<BodyStep>)
    requires FirstDecisive(open.armed, body) == |body|
    ensures MayCommit(open, body) <==>
      open.tx.autoCommit && (forall h | h in Queued(body) :: !h.raises) && ProviderFinish(open.provider, open.tx.handle).0 == Yes
  {
    assert body[..|body|] == body;
  }

  /** The transaction ends COMMITTED exactly if it starts and is committed where it ends: by the
      body, before any cancel that reaches it, rollback or escaping exception, or by an
      auto-committing exit with none of these before it; no operation queued by then raises and
      the provider commits. */
  lemma AsyncCommitsIff(p: Provider, name: string, autoCommit: bool, token: Token, body: seq<BodyStep>)
    ensures var open := Opened(p, name, autoCommit, token);
            (AsyncScope(p, name, autoCommit, token, body).scope.tx.status == Committed)
            <==> (open.tx.status == Started && MayCommit(open, body))
  {
    var open := Opened(p, name, autoCommit, token);
    ScopeIs(p, name, autoCommit, token, body);
    if open.tx.status == Started {
      if FirstDecisive(open.armed, body) < |body| { DecidedScope(open, body); } else { UndecidedScope(open, body); }
    }
  }

  /** What a commit made by the body leaves for the rest of the scope. */
  ghost predicate FinalAfter(open: Scope, body: seq<BodyStep>, at: Scope, r: ScopeOutcome) {
    && at.tx.status == Committed && r.scope.tx.status == Committed
    && r.scope.provider == at.provider && r.scope.tx.trace == at.tx.trace
    && (r.raised <==> open.tx.autoCommit || Body(open, body).1)
  }

  /** A commit made by the body is final: nothing later, cancels included, changes status, provider
      or trace, and the scope raises exactly if the rest of the body does or the exit tries to
      commit again. */
  lemma BodyCommitIsFinal(open: Scope, body: seq<BodyStep>)
    requires open.tx.status == Started && open.tx.operations == []
    requires FirstDecisive(open.armed, body) < |body| && OpenScope(open, body).scope.tx.status == Committed
    ensures FinalAfter(open, body, Body(open, body[..FirstDecisive(open.armed, body) + 1]).0, OpenScope(open, body))
  {
    DecidedScope(open, body);
  }

  /** With auto_commit the scope returns exactly if no step of the body decides, no operation it
      queues raises and the provider commits: then its own exit commits. */
  lemma AutoCommitReturnsIff(p: Provider, name: string, token: Token, body: seq<BodyStep>)
    ensures var open := Opened(p, name, true, token);
            !AsyncScope(p, name, true, token, body).raised
            <==> (open.tx.status == Started && MayCommit(open, body) && FirstDecisive(open.armed, body) == |body|)
  {
    var open := Opened(p, name, true, token);
    ScopeIs(p, name, true, token, body);
    if open.tx.status == Started {
      if FirstDecisive(open.armed, body) < |body| { DecidedScope(open, body); } else { UndecidedScope(open, body); }
    }
  }

  /** A body that commits for itself makes the auto-committing scope raise although the transaction
      is COMMITTED. */
  lemma OwnCommitRaises(p: Provider, name: string, token: Token)
    requires p.kind.Document?
    ensures var r := AsyncScope(p, name, true, token, [Do(CallCommit, false)]);
            r.raised && r.scope.tx.status == Committed
  {
    var open, body := Opened(p, name, true, token), [Do(CallCommit, false)];
    var k := FirstDecisive(open.armed, body);
    assert k == 0 by { assert Decisive(open.armed, body[0]); }
    assert Queued(body[..0]) == [];
    assert open.provider.stack[|p.stack|] == open.tx.handle.text;
    AsyncCommitsIff(p, name, true, token, body);
    AutoCommitReturnsIff(p, name, token, body);
  }

  lemma {:induction false} DecisiveAt(armed: bool, before: seq<BodyStep>, step: BodyStep, after: seq<BodyStep>)
    requires FirstDecisive(armed, before) == |before| && Decisive(armed, step)
    ensures FirstDecisive(armed, before + [step] + after) == |before|
    decreases |before|
  {
    var body := before + [step] + after;
    if before != [] {
      assert body[0] == before[0] && body[1..] == before[1..] + [step] + after;
      DecisiveAt(armed, before[1..], step, after);
    } else {
      assert body[0] == step;
    }
  }

  /** A cancel that reaches the open transaction ends it uncommitted whatever the body does next,
      and an auto-committing exit then raises. */
  lemma CancelForcesRollback(p: Provider, name: string, autoCommit: bool, before: seq<BodyStep>, after: seq<BodyStep>)
    requires Opened(p, name, autoCommit, Live).tx.status == Started
    requires FirstDecisive(true, before) == |before|
    ensures var r := AsyncScope(p, name, autoCommit, Live, before + [CancelToken] + after);
            && r.scope.tx.status in {RolledBack, Failed}
            && (autoCommit ==> r.raised)
  {
    var body := before + [CancelToken] + after;
    DecisiveAt(true, before, CancelToken, after);
    assert body[|before|] == CancelToken;
    ScopeIs(p, name, autoCommit, Live, body);
    DecidedScope(Opened(p, name, autoCommit, Live), body);
  }

  /** Scopes that differ in their callback alone run alike once the transaction has ended. */
  lemma {:induction false} EndedIgnoresCallback(s: Scope, body: seq<BodyStep>)
    requires s.tx.status in {Committed, RolledBack, Failed}
    ensures var (a, raisedA) := Body(s, body);
            var (b, raisedB) := Body(s.(armed := false), body);
            a.tx == b.tx && a.provider == b.provider && raisedA == raisedB
    decreases |body|
  {
    if body != [] {
      var (next, raised) := BodyStepOf(s, body[0]);
      var (other, _) := BodyStepOf(s.(armed := false), body[0]);
      if body[0].Do? { EndedCall(s.tx, s.provider, body[0].call); }
      if !raised {
        EndedIgnoresCallback(next, body[1..]);
        assert other == next.(armed := false);
      }
    }
  }

  /** A cancel after the transaction has been decided, in the body or after the scope, changes
      nothing: with it and without it the scope ends alike. */
  lemma LateCancelsAreIdle(p: Provider, name: string, autoCommit: bool, token: Token, a: seq<BodyStep>, b: seq<BodyStep>)
    requires FirstDecisive(token.Live?, a) < |a|
    ensures var with, without := AsyncScope(p, name, autoCommit, token, a + [CancelToken] + b),
                                 AsyncScope(p, name, autoCommit, token, a + b);
            && with.scope.tx == without.scope.tx && with.scope.provider == without.scope.provider
            && with.raised == without.raised
            && Cancelled(with.scope).tx == with.scope.tx && Cancelled(with.scope).provider == with.scope.provider
  {
    ScopeIs(p, name, autoCommit, token, a + [CancelToken] + b);
    ScopeIs(p, name, autoCommit, token, a + b);
    var open := Opened(p, name, autoCommit, token);
    if open.tx.status == Started {
      LateCancel(open, a, b);
      ScopeEnds(open, a + [CancelToken] + b);
    }
  }

  lemma ScopeEnds(open: Scope, body: seq<BodyStep>)
    requires open.tx.status == Started && open.tx.operations == []
    ensures OpenScope(open, body).scope.tx.status in {Committed, RolledBack, Failed}
  {
    if FirstDecisive(open.armed, body) < |body| { DecidedScope(open, body); } else { UndecidedScope(open, body); }
  }

  lemma LateCancel(open: Scope, a: seq<BodyStep>, b: seq<BodyStep>)
    requires open.tx.status == Started && FirstDecisive(open.armed, a) < |a|
    ensures var (s, raised) := Body(open, a + [CancelToken] + b);
            var (t, raisedToo) := Body(open, a + b);
            s.tx == t.tx && s.provider == t.provider && raised == raisedToo
  {
    var k := FirstDecisive(open.armed, a);
    var _, at, raised := DecidedBody(open, a);
    var (s, raisedInA) := Body(open, a);
    BodyConcat(open, a, [CancelToken] + b);
    BodyConcat(open, a, b);
    assert a + ([CancelToken] + b) == a + [CancelToken] + b;
    if !raised {
      EndedBody(at, a[k + 1..]);
      if !raisedInA {
        assert ([CancelToken] + b)[1..] == b;
        EndedIgnoresCallback(s, b);
      }
    }
  }

  ghost function WithoutCancels(body: seq<BodyStep>): seq<BodyStep> {
    if body == [] then []
    else (if body[0].CancelToken? then [] else [body[0]]) + WithoutCancels(body[1..])
  }

  lemma {:induction false} UnarmedBody(s: Scope, body: seq<BodyStep>)
    requires !s.armed
    ensures Body(s, body) == Body(s, WithoutCancels(body))
    decreases |body|
  {
    if body != [] {
      var (next, raised) := BodyStepOf(s, body[0]);
      if body[0].CancelToken? {
        assert next == s;
        UnarmedBody(s, body[1..]);
        assert [] + WithoutCancels(body[1..]) == WithoutCancels(body[1..]);
      } else {
        if !raised { UnarmedBody(next, body[1..]); }
        assert WithoutCancels(body)[1..] == WithoutCancels(body[1..]);
      }
    }
  }

  /** On a token cancelled before, the callback runs when it is registered, finds a transaction that
      has not started, and leaves the scope as if it had no token. */
  lemma EarlyCancelsAreIdle(p: Provider, name: string, autoCommit: bool, body: seq<BodyStep>)
    ensures AsyncScope(p, name, autoCommit, AlreadyCancelled, body) == AsyncScope(p, name, autoCommit, NoToken, WithoutCancels(body))
  {
    ScopeIs(p, name, autoCommit, AlreadyCancelled, body);
    ScopeIs(p, name, autoCommit, NoToken, WithoutCancels(body));
    UnarmedBody(Opened(p, name, autoCommit, NoToken), body);
  }
}
