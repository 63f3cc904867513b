/** Whole-run properties of one transaction against an arbitrary provider. */
module TransactionTheorems {
  import opened Common
  import opened TransactionSpec

  // ---------- reading a trace ----------

  /** Ids of the hooks of one kind that ran, in order. */
  ghost function Only(trace: seq<Event>, kind: HookKind): seq<nat> {
    if trace == [] then []
    else (if trace[0].Ran? && trace[0].kind == kind then [trace[0].id] else []) + Only(trace[1..], kind)
  }

  ghost function Times(trace: seq<Event>, e: Event): nat { multiset(trace)[e] }

  ghost function Ids(hooks: seq<Hook>): seq<nat> {
    if hooks == [] then [] else [hooks[0].id] + Ids(hooks[1..])
  }

  lemma {:induction false} OnlyConcat(a: seq<Event>, b: seq<Event>, kind: HookKind)
    ensures Only(a + b, kind) == Only(a, kind) + Only(b, kind)
  {
    if a == [] {
      assert a + b == b;
    } else {
      assert (a + b)[1..] == a[1..] + b && (a + b)[0] == a[0];
      OnlyConcat(a[1..], b, kind);
      var head := if a[0].Ran? && a[0].kind == kind then [a[0].id] else [];
      assert head + (Only(a[1..], kind) + Only(b, kind)) == (head + Only(a[1..], kind)) + Only(b, kind);
    }
  }

  lemma {:induction false} OnlyRuns(kind: HookKind, hooks: seq<Hook>, of: HookKind)
    ensures Only(Runs(kind, hooks), of) == if kind == of then Ids(hooks) else []
    ensures forall e | e in Runs(kind, hooks) :: e.Ran? && e.kind == kind
  {
    if hooks != [] {
      assert Runs(kind, hooks)[1..] == Runs(kind, hooks[1..]);
      OnlyRuns(kind, hooks[1..], of);
    }
  }

  lemma {:induction false} IdsPrefix(hooks: seq<Hook>, k: nat)
    requires k <= |hooks|
    ensures |Ids(hooks)| == |hooks| && Ids(hooks[..k]) == Ids(hooks)[..k]
  {
    if k > 0 {
      assert hooks[..k][1..] == hooks[1..][..k - 1];
      IdsPrefix(hooks[1..], k - 1);
    } else if hooks != [] {
      IdsPrefix(hooks[1..], 0);
    }
  }

  lemma {:induction false} IdsSnoc(hooks: seq<Hook>, h: Hook)
    ensures Ids(hooks + [h]) == Ids(hooks) + [h.id]
  {
    if hooks == [] {
      assert Ids([h][1..]) == [];
    } else {
      assert (hooks + [h])[1..] == hooks[1..] + [h];
      IdsSnoc(hooks[1..], h);
    }
  }

  /** What the events of one call add up to. */
  ghost predicate Segment(s: seq<Event>, ops: seq<nat>, commits: seq<nat>, rollbacks: seq<nat>) {
    Only(s, Operation) == ops && Only(s, CommitHandler) == commits && Only(s, RollbackHandler) == rollbacks
  }

  lemma {:induction false} Plain(s: seq<Event>)
    requires forall e | e in s :: !e.Ran?
    ensures Segment(s, [], [], [])
  {
    if s != [] { Plain(s[1..]); }
  }

  lemma SegmentConcat(a: seq<Event>, b: seq<Event>,
                      o1: seq<nat>, c1: seq<nat>, r1: seq<nat>, o2: seq<nat>, c2: seq<nat>, r2: seq<nat>)
    requires Segment(a, o1, c1, r1) && Segment(b, o2, c2, r2)
    ensures Segment(a + b, o1 + o2, c1 + c2, r1 + r2)
  {
    OnlyConcat(a, b, Operation);
    OnlyConcat(a, b, CommitHandler);
    OnlyConcat(a, b, RollbackHandler);
  }

  lemma RunsSegment(kind: HookKind, hooks: seq<Hook>)
    ensures Segment(Runs(kind, hooks),
                    if kind == Operation then Ids(hooks) else [],
                    if kind == CommitHandler then Ids(hooks) else [],
                    if kind == RollbackHandler then Ids(hooks) else [])
  {
    OnlyRuns(kind, hooks, Operation);
    OnlyRuns(kind, hooks, CommitHandler);
    OnlyRuns(kind, hooks, RollbackHandler);
  }

  // ---------- what one call adds ----------

  ghost predicate Grew(tx: Transaction, r: Transaction, ops: seq<nat>, commits: seq<nat>, rollbacks: seq<nat>) {
    && Only(r.trace, Operation) == Only(tx.trace, Operation) + ops
    && Only(r.trace, CommitHandler) == Only(tx.trace, CommitHandler) + commits
    && Only(r.trace, RollbackHandler) == Only(tx.trace, RollbackHandler) + rollbacks
    && r == tx.(status := r.status, handle := r.handle, trace := r.trace)
  }

  lemma GrewBy(tx: Transaction, r: Transaction, s: seq<Event>, ops: seq<nat>, commits: seq<nat>, rollbacks: seq<nat>)
    requires r == tx.(status := r.status, handle := r.handle, trace := tx.trace + s)
    requires Segment(s, ops, commits, rollbacks)
    ensures Grew(tx, r, ops, commits, rollbacks)
  {
    OnlyConcat(tx.trace, s, Operation);
    OnlyConcat(tx.trace, s, CommitHandler);
    OnlyConcat(tx.trace, s, RollbackHandler);
  }

  lemma EndSegment(first: seq<Event>, kind: HookKind, hooks: seq<Hook>)
    requires forall e | e in first :: !e.Ran?
    ensures Segment(first + Runs(kind, hooks),
                    if kind == Operation then Ids(hooks) else [],
                    if kind == CommitHandler then Ids(hooks) else [],
                    if kind == RollbackHandler then Ids(hooks) else [])
  {
    Plain(first);
    RunsSegment(kind, hooks);
    SegmentConcat(first, Runs(kind, hooks), [], [], [],
                  if kind == Operation then Ids(hooks) else [],
                  if kind == CommitHandler then Ids(hooks) else [],
                  if kind == RollbackHandler then Ids(hooks) else []);
  }

  lemma RollbackGrows(tx: Transaction, p: Provider)
    ensures var r := Rollback(tx, p);
            && Grew(tx, r.tx, [], [],
                    if r.tx.status == RolledBack && tx.status != RolledBack then Ids(tx.rollbackHandlers) else [])
            && r.tx.handle == tx.handle
            && (tx.status in {Started, Failed} ==> r.tx.status in {RolledBack, Failed})
            && (tx.status !in {Started, Failed} ==> r.tx == tx && r.raised == None)
            && (tx.status in {Started, Failed} ==> (r.raised.Some? <==> r.tx.status == Failed))
  {
    var r := Rollback(tx, p).tx;
    if tx.status in {Started, Failed} {
      var asked := if Truthy(tx.handle) then [Asked(RollbackOp)] else [];
      if r.status == RolledBack {
        var first := asked + [Became(RolledBack)];
        RolledBackTrace(tx.trace, asked, Runs(RollbackHandler, tx.rollbackHandlers));
        EndSegment(first, RollbackHandler, tx.rollbackHandlers);
        GrewBy(tx, r, first + Runs(RollbackHandler, tx.rollbackHandlers), [], [], Ids(tx.rollbackHandlers));
      } else {
        var s := [Asked(RollbackOp), Became(Failed)];
        assert r.trace == tx.trace + s;
        Plain(s);
        GrewBy(tx, r, s, [], [], []);
      }
    }
  }

  lemma RolledBackTrace(trace: seq<Event>, asked: seq<Event>, handlers: seq<Event>)
    ensures (trace + asked) + [Became(RolledBack)] + handlers == trace + (asked + [Became(RolledBack)] + handlers)
    ensures asked == [] ==> trace + [Became(RolledBack)] + handlers == trace + (asked + [Became(RolledBack)] + handlers)
  {
  }

  /** Operations run by commit: up to and including the first that raises. */
  function Tried(operations: seq<Hook>): seq<Hook> {
    var k := FirstRaising(operations);
    if k < |operations| then operations[..k + 1] else operations
  }

  /** Running the operations and, if none raised, asking the provider. */
  ghost function TryEvents(tx: Transaction): seq<Event> {
    Runs(Operation, Tried(tx.operations)) + if FirstRaising(tx.operations) < |tx.operations| then [] else [Asked(CommitOp)]
  }

  ghost function AfterTrying(tx: Transaction): Transaction { tx.(trace := tx.trace + TryEvents(tx)) }

  lemma AfterTryingGrows(tx: Transaction)
    ensures Grew(tx, AfterTrying(tx), Ids(Tried(tx.operations)), [], [])
  {
    var asked := if FirstRaising(tx.operations) < |tx.operations| then [] else [Asked(CommitOp)];
    RunsSegment(Operation, Tried(tx.operations));
    Plain(asked);
    SegmentConcat(Runs(Operation, Tried(tx.operations)), asked, Ids(Tried(tx.operations)), [], [], [], [], []);
    GrewBy(tx, AfterTrying(tx), TryEvents(tx), Ids(Tried(tx.operations)), [], []);
  }

  lemma GrewThen(a: Transaction, b: Transaction, c: Transaction, ops: seq<nat>, commits: seq<nat>, rollbacks: seq<nat>)
    requires Grew(a, b, ops, [], []) && Grew(b, c, [], commits, rollbacks)
    ensures Grew(a, c, ops, commits, rollbacks)
  {
  }

  lemma CommitShape(tx: Transaction, p: Provider)
    requires tx.status == Started
    ensures var r := Commit(tx, p);
            var reply := ProviderFinish(p, tx.handle);
            if FirstRaising(tx.operations) < |tx.operations| then
              r.tx == Rollback(AfterTrying(tx), p).tx && r.raised.Some?
            else if reply.0 == Yes then
              r.tx.status == Committed && r.raised.None? && r.tx == AfterTrying(tx).(status := Committed,
                trace := AfterTrying(tx).trace + ([Became(Committed)] + Runs(CommitHandler, tx.commitHandlers)))
            else
              r.tx == Rollback(AfterTrying(tx), reply.1).tx && r.raised.Some?
  {
    var k := FirstRaising(tx.operations);
    if k < |tx.operations| {
      assert TryEvents(tx) == Runs(Operation, tx.operations[..k + 1]);
    } else {
      assert AfterTrying(tx).trace == tx.trace + Runs(Operation, tx.operations) + [Asked(CommitOp)];
      if ProviderFinish(p, tx.handle).0 == Yes {
        assert Commit(tx, p).tx.trace
            == AfterTrying(tx).trace + ([Became(Committed)] + Runs(CommitHandler, tx.commitHandlers));
      }
    }
  }

  /** The whole of commit, in terms of what ran: the operations up to the failing one, all commit
      handlers iff it ends COMMITTED, all rollback handlers iff it ends ROLLED_BACK. */
  lemma CommitGrows(tx: Transaction, p: Provider)
    requires tx.status == Started
    ensures var r := Commit(tx, p);
            && Grew(tx, r.tx, Ids(Tried(tx.operations)),
                    if r.tx.status == Committed then Ids(tx.commitHandlers) else [],
                    if r.tx.status == RolledBack then Ids(tx.rollbackHandlers) else [])
            && r.tx.status in {Committed, RolledBack, Failed}
            && r.tx.handle == tx.handle
            && (r.raised.None? <==> r.tx.status == Committed)
            && (r.tx.status == Committed <==>
                  FirstRaising(tx.operations) == |tx.operations| && ProviderFinish(p, tx.handle).0 == Yes)
  {
    CommitShape(tx, p);
    AfterTryingGrows(tx);
    var r, tried := Commit(tx, p), AfterTrying(tx);
    if r.tx.status == Committed {
      CommittedGrows(tx, r.tx);
      GrewThen(tx, tried, r.tx, Ids(Tried(tx.operations)), Ids(tx.commitHandlers), []);
    } else {
      RollbackGrows(tried, if FirstRaising(tx.operations) < |tx.operations| then p else ProviderFinish(p, tx.handle).1);
      GrewThen(tx, tried, r.tx, Ids(Tried(tx.operations)), [],
               if r.tx.status == RolledBack then Ids(tx.rollbackHandlers) else []);
    }
  }

  lemma CommittedGrows(tx: Transaction, r: Transaction)
    requires r == AfterTrying(tx).(status := Committed,
                    trace := AfterTrying(tx).trace + ([Became(Committed)] + Runs(CommitHandler, tx.commitHandlers)))
    ensures Grew(AfterTrying(tx), r, [], Ids(tx.commitHandlers), [])
  {
    EndSegment([Became(Committed)], CommitHandler, tx.commitHandlers);
    GrewBy(AfterTrying(tx), r, [Became(Committed)] + Runs(CommitHandler, tx.commitHandlers), [], Ids(tx.commitHandlers), []);
  }

  // ---------- runs ----------

  /** Each call meets the provider in whatever state others left it. */
  function Run(tx: Transaction, steps: seq<(Call, Provider)>): Transaction
    decreases |steps|
  {
    if steps == [] then tx else Run(Apply(tx, steps[0].1, steps[0].0).tx, steps[1..])
  }

  /** Which statuses may follow which: the two final ones are absorbing. */
  predicate MayBecome(a: Status, b: Status) {
    match a
    case NotStarted => true
    case Started => b != NotStarted
    case Failed => b == Failed || b == RolledBack
    case Committed => b == Committed
    case RolledBack => b == RolledBack
  }

  /** Operations and handlers ran in order and each at most once: what ran is a prefix of what was
      registered. Commit handlers ran only if the transaction is committed, rollback handlers only if
      it is rolled back, operations not before it ended, and all of them if it is committed. Which
      handlers ran, `HandlersRanOnce` says. */
  ghost predicate Consistent(tx: Transaction) {
    && Only(tx.trace, Operation) <= Ids(tx.operations)
    && Only(tx.trace, CommitHandler) <= Ids(tx.commitHandlers)
    && Only(tx.trace, RollbackHandler) <= Ids(tx.rollbackHandlers)
    && (tx.status in {NotStarted, Started} ==> Only(tx.trace, Operation) == [])
    && (tx.status == Committed ==> Only(tx.trace, Operation) == Ids(tx.operations))
    && (tx.status != Committed ==> Only(tx.trace, CommitHandler) == [])
    && (tx.status != RolledBack ==> Only(tx.trace, RollbackHandler) == [])
  }

  lemma StartGrows(tx: Transaction, p: Provider)
    requires tx.status == NotStarted
    ensures Grew(tx, Start(tx, p).tx, [], [], [])
    ensures Start(tx, p).tx.status in {Started, Failed}
  {
    var r := Start(tx, p).tx;
    var s := [Asked(StartOp), Became(r.status)];
    Plain(s);
    GrewBy(tx, r, s, [], [], []);
  }

  lemma CommitConsistent(tx: Transaction, p: Provider)
    requires Consistent(tx)
    ensures var r := Commit(tx, p).tx; Consistent(r) && MayBecome(tx.status, r.status)
  {
    if tx.status == Started {
      CommitGrows(tx, p);
      CommittedConsistent(tx, Commit(tx, p).tx);
    }
  }

  lemma CommittedConsistent(tx: Transaction, r: Transaction)
    requires Consistent(tx) && tx.status == Started && r.status in {Committed, RolledBack, Failed}
    requires r.status == Committed ==> FirstRaising(tx.operations) == |tx.operations|
    requires Grew(tx, r, Ids(Tried(tx.operations)),
                  if r.status == Committed then Ids(tx.commitHandlers) else [],
                  if r.status == RolledBack then Ids(tx.rollbackHandlers) else [])
    ensures Consistent(r)
  {
    TriedPrefix(tx.operations);
    assert Only(r.trace, Operation) == Ids(Tried(tx.operations));
    assert Only(r.trace, CommitHandler) == if r.status == Committed then Ids(tx.commitHandlers) else [];
    assert Only(r.trace, RollbackHandler) == if r.status == RolledBack then Ids(tx.rollbackHandlers) else [];
  }

  lemma TriedPrefix(operations: seq<Hook>)
    ensures Ids(Tried(operations)) <= Ids(operations)
    ensures FirstRaising(operations) == |operations| ==> Ids(Tried(operations)) == Ids(operations)
  {
    var k := FirstRaising(operations);
    if k < |operations| { IdsPrefix(operations, k + 1); }
  }

  lemma RollbackConsistent(tx: Transaction, p: Provider)
    requires Consistent(tx)
    ensures var r := Rollback(tx, p).tx; Consistent(r) && MayBecome(tx.status, r.status)
  {
    RollbackGrows(tx, p);
    var r := Rollback(tx, p).tx;
  }

  lemma ApplyConsistent(tx: Transaction, p: Provider, call: Call)
    requires Consistent(tx)
    ensures var r := Apply(tx, p, call).tx; Consistent(r) && MayBecome(tx.status, r.status)
  {
    match call
    case CallStart =>
      if tx.status == NotStarted {
        StartGrows(tx, p);
      }
    case CallCommit => CommitConsistent(tx, p);
    case CallRollback => RollbackConsistent(tx, p);
    case CallExit(bodyRaised) =>
      CommitConsistent(tx, p);
      RollbackConsistent(tx, p);
    case AddOperation(hook) => IdsSnoc(tx.operations, hook);
    case AddCommitHandler(hook) => IdsSnoc(tx.commitHandlers, hook);
    case AddRollbackHandler(hook) => IdsSnoc(tx.rollbackHandlers, hook);
  }

  /** Every run, with any provider and any failing code, keeps the transaction consistent and
      moves its status only forwards. */
  lemma {:induction false} RunConsistent(tx: Transaction, steps: seq<(Call, Provider)>)
    requires Consistent(tx)
    ensures Consistent(Run(tx, steps)) && MayBecome(tx.status, Run(tx, steps).status)
    decreases |steps|
  {
    if steps != [] {
      var r := Apply(tx, steps[0].1, steps[0].0).tx;
      ApplyConsistent(tx, steps[0].1, steps[0].0);
      RunConsistent(r, steps[1..]);
    }
  }

  /** Reaching a final status is the one moment at which its handlers run, all of them; no other
      call runs any handler. */
  lemma HandlersRunOnReaching(tx: Transaction, p: Provider, call: Call)
    requires Consistent(tx)
    ensures var r := Apply(tx, p, call).tx;
            && Only(r.trace, CommitHandler) ==
                 (if r.status == Committed && tx.status != Committed then Ids(tx.commitHandlers)
                  else Only(tx.trace, CommitHandler))
            && Only(r.trace, RollbackHandler) ==
                 (if r.status == RolledBack && tx.status != RolledBack then Ids(tx.rollbackHandlers)
                  else Only(tx.trace, RollbackHandler))
  {
    var r := Apply(tx, p, call).tx;
    if call.CallStart? && tx.status == NotStarted {
      StartGrows(tx, p);
    }
    if (call.CallCommit? || (call.CallExit? && !call.bodyRaised && tx.autoCommit)) && tx.status == Started {
      CommitGrows(tx, p);
    } else if call.CallRollback? || (call.CallExit? && !(!call.bodyRaised && tx.autoCommit)) {
      RollbackGrows(tx, p);
    }
  }

  // ---------- handlers over whole runs ----------

  function HandlersOf(tx: Transaction, kind: HookKind): seq<Hook> {
    match kind
    case Operation => tx.operations
    case CommitHandler => tx.commitHandlers
    case RollbackHandler => tx.rollbackHandlers
  }

  /** The handlers that run for a final status. */
  function KindFor(status: Status): HookKind { if status == Committed then CommitHandler else RollbackHandler }

  /** The handlers of a kind that a run registers, in order. */
  function Registered(kind: HookKind, steps: seq<(Call, Provider)>): seq<Hook> {
    if steps == [] then []
    else
      (match steps[0].0
       case AddCommitHandler(hook) => if kind == CommitHandler then [hook] else []
       case AddRollbackHandler(hook) => if kind == RollbackHandler then [hook] else []
       case _ => [])
      + Registered(kind, steps[1..])
  }

  lemma OneMoreRegistered(tx: Transaction, step: (Call, Provider), kind: HookKind)
    requires kind != Operation
    ensures HandlersOf(Apply(tx, step.1, step.0).tx, kind) == HandlersOf(tx, kind) + Registered(kind, [step])
  {
    assert Registered(kind, [step][1..]) == [];
  }

  lemma ReachedFrom(tx: Transaction, p: Provider, call: Call)
    ensures var status := Apply(tx, p, call).tx.status;
            && (status == Committed && tx.status != Committed ==> tx.status == Started)
            && (status == RolledBack && tx.status != RolledBack ==> tx.status in {Started, Failed})
  {
  }

  /** The step from `before` to `at` reached the final status of `r`, and exactly the handlers of
      that status ran that were registered by then. */
  ghost predicate Reached(before: Transaction, at: Transaction, r: Transaction) {
    && at.status == r.status
    && (r.status == Committed ==> before.status == Started)
    && (r.status == RolledBack ==> before.status in {Started, Failed})
    && Only(r.trace, KindFor(r.status)) == Ids(HandlersOf(before, KindFor(r.status)))
    && Only(r.trace, if r.status == Committed then RollbackHandler else CommitHandler) == []
  }

  predicate IsFinal(status: Status) { status.Committed? || status.RolledBack? }

  /** What one call may do to a final status and its handlers: reach it and run them, or nothing. */
  ghost predicate Linked(a: Transaction, b: Transaction) {
    if IsFinal(a.status) then
      && b.status == a.status
      && Only(b.trace, CommitHandler) == Only(a.trace, CommitHandler)
      && Only(b.trace, RollbackHandler) == Only(a.trace, RollbackHandler)
    else IsFinal(b.status) ==> Reached(a, b, b)
  }

  lemma CallLinks(tx: Transaction, p: Provider, call: Call)
    requires Consistent(tx)
    ensures Consistent(Apply(tx, p, call).tx) && Linked(tx, Apply(tx, p, call).tx)
  {
    ApplyConsistent(tx, p, call);
    HandlersRunOnReaching(tx, p, call);
    ReachedFrom(tx, p, call);
    LinkedWhen(tx, Apply(tx, p, call).tx);
  }

  lemma LinkedWhen(a: Transaction, b: Transaction)
    requires Consistent(a) && Consistent(b) && MayBecome(a.status, b.status)
    requires b.status == Committed && a.status != Committed ==> a.status == Started
    requires b.status == RolledBack && a.status != RolledBack ==> a.status in {Started, Failed}
    requires Only(b.trace, CommitHandler) ==
      (if b.status == Committed && a.status != Committed then Ids(a.commitHandlers) else Only(a.trace, CommitHandler))
    requires Only(b.trace, RollbackHandler) ==
      (if b.status == RolledBack && a.status != RolledBack then Ids(a.rollbackHandlers) else Only(a.trace, RollbackHandler))
    ensures Linked(a, b)
  {
  }

  /** The transaction before and after every step of a run. */
  ghost function States(tx: Transaction, steps: seq<(Call, Provider)>): seq<Transaction>
    decreases |steps|
  {
    if steps == [] then [tx] else [tx] + States(Apply(tx, steps[0].1, steps[0].0).tx, steps[1..])
  }

  ghost predicate Chain(s: seq<Transaction>) { forall i | 0 <= i < |s| - 1 :: Linked(s[i], s[i + 1]) }

  lemma {:induction false} StatesAre(tx: Transaction, steps: seq<(Call, Provider)>)
    requires Consistent(tx)
    ensures var s := States(tx, steps);
            |s| == |steps| + 1 && Chain(s) && forall i | 0 <= i <= |steps| :: s[i] == Run(tx, steps[..i])
    decreases |steps|
  {
    if steps == [] {
      assert steps[..0] == steps;
    } else {
      var next, rest := Apply(tx, steps[0].1, steps[0].0).tx, steps[1..];
      CallLinks(tx, steps[0].1, steps[0].0);
      StatesAre(next, rest);
      StatesCons(tx, States(next, rest));
      var s := States(tx, steps);
      forall i | 0 <= i <= |steps| ensures s[i] == Run(tx, steps[..i]) {
        if i > 0 {
          assert steps[..i][1..] == rest[..i - 1];
          assert s[i] == States(next, rest)[i - 1];
        }
      }
    }
  }

  lemma StatesCons(tx: Transaction, s: seq<Transaction>)
    requires s != [] && Linked(tx, s[0]) && Chain(s)
    ensures Chain([tx] + s)
  {
    var t := [tx] + s;
    forall i | 0 <= i < |t| - 1 ensures Linked(t[i], t[i + 1]) {
      if i > 0 { assert Linked(s[i - 1], s[i]); }
    }
  }

  lemma StillReached(before: Transaction, at: Transaction, a: Transaction, b: Transaction)
    requires Reached(before, at, a) && Linked(a, b) && IsFinal(a.status)
    ensures Reached(before, at, b)
  {
  }

  /** A chain that ends in a final status reaches it once. */
  lemma {:induction false} ChainReachesOnce(s: seq<Transaction>) returns (k: nat)
    requires |s| >= 1 && Chain(s) && IsFinal(s[|s| - 1].status) && !IsFinal(s[0].status)
    ensures k + 1 < |s| && Reached(s[k], s[k + 1], s[|s| - 1])
    decreases |s|
  {
    var n := |s| - 2;
    assert Linked(s[n], s[n + 1]);
    if IsFinal(s[n].status) {
      var front := s[..n + 1];
      assert Chain(front) by { forall i | 0 <= i < n ensures Linked(front[i], front[i + 1]) { assert Linked(s[i], s[i + 1]); } }
      k := ChainReachesOnce(front);
      StillReached(s[k], s[k + 1], s[n], s[n + 1]);
    } else {
      k := n;
    }
  }

  lemma {:induction false} RegisteredSoFar(tx: Transaction, steps: seq<(Call, Provider)>, kind: HookKind)
    requires kind != Operation
    ensures HandlersOf(Run(tx, steps), kind) == HandlersOf(tx, kind) + Registered(kind, steps)
    decreases |steps|
  {
    if steps != [] {
      var next := Apply(tx, steps[0].1, steps[0].0).tx;
      OneMoreRegistered(tx, steps[0], kind);
      RegisteredSoFar(next, steps[1..], kind);
      RegisteredCons(kind, steps);
    }
  }

  /** Every run that ends COMMITTED or ROLLED_BACK reaches that status at one step, `k`, and over
      the whole run exactly the handlers of that status ran that were registered before that step,
      in order and once each; the other handlers never ran. */
  lemma HandlersRanOnce(tx: Transaction, steps: seq<(Call, Provider)>) returns (k: nat)
    requires Consistent(tx) && !IsFinal(tx.status) && IsFinal(Run(tx, steps).status)
    ensures var r := Run(tx, steps);
            && k < |steps| && Run(tx, steps[..k + 1]).status == r.status
            && (r.status == Committed ==> Run(tx, steps[..k]).status == Started)
            && (r.status == RolledBack ==> Run(tx, steps[..k]).status in {Started, Failed})
    ensures var r := Run(tx, steps);
            var kind := KindFor(r.status);
            && Only(r.trace, kind) == Ids(HandlersOf(tx, kind) + Registered(kind, steps[..k]))
            && Only(r.trace, if r.status == Committed then RollbackHandler else CommitHandler) == []
  {
    StatesAre(tx, steps);
    var s := States(tx, steps);
    assert steps[..|steps|] == steps && steps[..0] == [];
    assert s[0] == tx && s[|s| - 1] == Run(tx, steps);
    k := ChainReachesOnce(s);
    RegisteredSoFar(tx, steps[..k], KindFor(Run(tx, steps).status));
  }

  lemma RegisteredCons(kind: HookKind, steps: seq<(Call, Provider)>)
    requires steps != []
    ensures Registered(kind, steps) == Registered(kind, [steps[0]]) + Registered(kind, steps[1..])
  {
    assert Registered(kind, [steps[0]][1..]) == [];
  }

  // ---------- how often the provider is asked ----------

  lemma RunsAskNothing(kind: HookKind, hooks: seq<Hook>, op: ProviderOp)
    ensures Times(Runs(kind, hooks), Asked(op)) == 0
  {
    OnlyRuns(kind, hooks, kind);
  }

  lemma EndAsksNothing(trace: seq<Event>, status: Status, kind: HookKind, hooks: seq<Hook>, op: ProviderOp)
    ensures Times(trace + [Became(status)] + Runs(kind, hooks), Asked(op)) == Times(trace, Asked(op))
  {
    RunsAskNothing(kind, hooks, op);
    assert multiset(trace + [Became(status)] + Runs(kind, hooks))
        == multiset(trace) + multiset{Became(status)} + multiset(Runs(kind, hooks));
  }

  lemma EndingAsksNothing(tx: Transaction, op: ProviderOp)
    ensures Times(EndRolledBack(tx).trace, Asked(op)) == Times(tx.trace, Asked(op))
  {
    EndAsksNothing(tx.trace, RolledBack, RollbackHandler, tx.rollbackHandlers, op);
  }

  lemma AskAsks(tx: Transaction, asked: ProviderOp, op: ProviderOp)
    ensures Times(tx.trace + [Asked(asked)], Asked(op)) == Times(tx.trace, Asked(op)) + if asked == op then 1 else 0
    ensures Times(tx.trace + [Asked(asked)] + [Became(Failed)], Asked(op)) == Times(tx.trace + [Asked(asked)], Asked(op))
  {
  }

  lemma RollbackAsks(tx: Transaction, p: Provider)
    ensures var r := Rollback(tx, p).tx;
            && Times(r.trace, Asked(RollbackOp)) == Times(tx.trace, Asked(RollbackOp))
                 + (if tx.status in {Started, Failed} && Truthy(tx.handle) then 1 else 0)
            && Times(r.trace, Asked(CommitOp)) == Times(tx.trace, Asked(CommitOp))
  {
    RollbackAsksFor(tx, p, RollbackOp);
    RollbackAsksFor(tx, p, CommitOp);
  }

  lemma RollbackAsksFor(tx: Transaction, p: Provider, op: ProviderOp)
    ensures Times(Rollback(tx, p).tx.trace, Asked(op)) == Times(tx.trace, Asked(op))
              + (if tx.status in {Started, Failed} && Truthy(tx.handle) && op == RollbackOp then 1 else 0)
  {
    var asked := tx.(trace := tx.trace + [Asked(RollbackOp)]);
    AskAsks(tx, RollbackOp, op);
    EndingAsksNothing(tx, op);
    EndingAsksNothing(asked, op);
  }

  /** A failing commit asks the provider to roll back exactly once although two handlers could do
      it, and asks it to commit only if every operation returned. Without a handle (a provider may
      start a transaction and hand back a false value) there is nothing to roll back. */
  lemma FailedCommitRollsBackOnce(tx: Transaction, p: Provider)
    requires tx.status == Started && Commit(tx, p).raised.Some?
    ensures var r := Commit(tx, p).tx;
            && Times(r.trace, Asked(RollbackOp)) == Times(tx.trace, Asked(RollbackOp)) + (if Truthy(tx.handle) then 1 else 0)
            && Times(r.trace, Asked(CommitOp)) == Times(tx.trace, Asked(CommitOp))
                 + (if FirstRaising(tx.operations) < |tx.operations| then 0 else 1)
  {
    CommitShape(tx, p);
    RunsAskNothing(Operation, Tried(tx.operations), RollbackOp);
    RunsAskNothing(Operation, Tried(tx.operations), CommitOp);
    var q := if FirstRaising(tx.operations) < |tx.operations| then p else ProviderFinish(p, tx.handle).1;
    RollbackAsks(AfterTrying(tx), q);
  }

  /** A successful commit asks once to commit and never to roll back. */
  lemma SuccessfulCommitAsksOnce(tx: Transaction, p: Provider)
    requires Commit(tx, p).raised.None?
    ensures var r := Commit(tx, p).tx;
            && tx.status == Started && r.status == Committed
            && Times(r.trace, Asked(RollbackOp)) == Times(tx.trace, Asked(RollbackOp))
            && Times(r.trace, Asked(CommitOp)) == Times(tx.trace, Asked(CommitOp)) + 1
            && forall i | 0 <= i < |tx.operations| :: !tx.operations[i].raises
  {
    RunsAskNothing(Operation, tx.operations, RollbackOp);
    RunsAskNothing(Operation, tx.operations, CommitOp);
    var asked := tx.trace + Runs(Operation, tx.operations) + [Asked(CommitOp)];
    EndAsksNothing(asked, Committed, CommitHandler, tx.commitHandlers, RollbackOp);
    EndAsksNothing(asked, Committed, CommitHandler, tx.commitHandlers, CommitOp);
  }
}
