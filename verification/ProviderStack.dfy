/**
  Any number of transactions on one document provider, started, committed and rolled back in any
  interleaving. Handles are strings built from the stack's length, so two open transactions may
  hold equal handles, and handles are removed by value.
 */
module ProviderStack {
  import opened Common
  import opened Decimals
  import opened TransactionSpec
  import opened TransactionTheorems

  datatype System = System(provider: Provider, txs: seq<Transaction>)

  datatype Step =
    | Create(name: string, autoCommit: bool)
    | On(index: nat, call: Call)

  const EMPTY := System(Provider(Document, [], 0), [])

  function Advance(s: System, step: Step): System {
    match step
    case Create(name, autoCommit) => s.(txs := s.txs + [Fresh(name, autoCommit)])
    case On(i, call) =>
      if i >= |s.txs| then s
      else
        var o := TransactionSpec.Apply(s.txs[i], s.provider, call);
        System(o.provider, s.txs[i := o.tx])
  }

  function RunAll(s: System, steps: seq<Step>): System
    decreases |steps|
  {
    if steps == [] then s else RunAll(Advance(s, steps[0]), steps[1..])
  }

  /** The handle an open transaction holds. */
  ghost function Held(tx: Transaction): multiset<string> {
    if tx.status == Started && tx.handle.Handle? then multiset{tx.handle.text} else multiset{}
  }

  ghost function AllHeld(txs: seq<Transaction>): multiset<string> {
    if txs == [] then multiset{} else Held(txs[0]) + AllHeld(txs[1..])
  }

  ghost predicate Inv(s: System) {
    && s.provider.kind.Document?
    && multiset(s.provider.stack) == AllHeld(s.txs)
    && (forall i | 0 <= i < |s.txs| :: s.txs[i].status != Failed)
    && (forall i | 0 <= i < |s.txs| && s.txs[i].status == Started :: Truthy(s.txs[i].handle))
  }

  lemma {:induction false} HeldUpdate(txs: seq<Transaction>, i: nat, tx: Transaction)
    requires i < |txs|
    ensures forall h :: AllHeld(txs[i := tx])[h] + Held(txs[i])[h] == AllHeld(txs)[h] + Held(tx)[h]
  {
    if i == 0 {
      assert txs[i := tx][1..] == txs[1..];
    } else {
      assert txs[i := tx][1..] == txs[1..][i - 1 := tx];
      HeldUpdate(txs[1..], i - 1, tx);
    }
  }

  lemma {:induction false} HeldAppend(txs: seq<Transaction>, tx: Transaction)
    requires Held(tx) == multiset{}
    ensures AllHeld(txs + [tx]) == AllHeld(txs)
  {
    if txs == [] {
      assert AllHeld([tx][1..]) == multiset{};
    } else {
      assert (txs + [tx])[1..] == txs[1..] + [tx];
      HeldAppend(txs[1..], tx);
    }
  }

  lemma OpenHandleOnStack(s: System, i: nat)
    requires Inv(s) && i < |s.txs| && s.txs[i].status == Started
    ensures s.txs[i].handle.text in s.provider.stack
  {
    HeldUpdate(s.txs, i, Fresh("", false));
    assert Held(s.txs[i])[s.txs[i].handle.text] == 1;
    assert s.txs[i].handle.text in multiset(s.provider.stack);
  }

  /** How one call on an open or new transaction moves its handle on or off the stack. */
  ghost predicate Moves(tx: Transaction, p: Provider, o: Outcome) {
    && o.provider.kind == p.kind
    && o.tx.status != Failed
    && (o.tx.status == Started ==> Truthy(o.tx.handle))
    && forall h :: multiset(o.provider.stack)[h] + Held(tx)[h] == multiset(p.stack)[h] + Held(o.tx)[h]
  }

  lemma RollbackMoves(tx: Transaction, p: Provider)
    requires p.kind.Document? && tx.status != Failed
    requires tx.status == Started ==> Truthy(tx.handle) && tx.handle.text in p.stack
    ensures Moves(tx, p, Rollback(tx, p)) && Rollback(tx, p).raised.None?
  {
  }

  lemma CommitMoves(tx: Transaction, p: Provider)
    requires p.kind.Document? && tx.status != Failed
    requires tx.status == Started ==> Truthy(tx.handle) && tx.handle.text in p.stack
    ensures Moves(tx, p, Commit(tx, p))
  {
    if tx.status == Started {
      CommitShape(tx, p);
      if FirstRaising(tx.operations) < |tx.operations| {
        RollbackMoves(AfterTrying(tx), p);
        assert Commit(tx, p).provider == Rollback(AfterTrying(tx), p).provider;
      }
    }
  }

  lemma CallMoves(tx: Transaction, p: Provider, call: Call)
    requires p.kind.Document? && tx.status != Failed
    requires tx.status == Started ==> Truthy(tx.handle) && tx.handle.text in p.stack
    ensures Moves(tx, p, TransactionSpec.Apply(tx, p, call))
  {
    RollbackMoves(tx, p);
    CommitMoves(tx, p);
    if call.CallStart? && tx.status == NotStarted {
      var text := DocumentHandle(tx.name, |p.stack|);
      assert text[0] == 'T';
      assert multiset(p.stack + [text]) == multiset(p.stack) + multiset{text};
    }
  }

  lemma MovedKeeps(s: System, i: nat, o: Outcome)
    requires Inv(s) && i < |s.txs| && Moves(s.txs[i], s.provider, o)
    ensures Inv(System(o.provider, s.txs[i := o.tx]))
  {
    HeldMoves(s.txs, s.provider, i, o);
    var txs := s.txs[i := o.tx];
    forall j | 0 <= j < |txs| ensures txs[j].status != Failed && (txs[j].status == Started ==> Truthy(txs[j].handle)) {
      if j != i { assert txs[j] == s.txs[j]; }
    }
  }

  lemma HeldMoves(txs: seq<Transaction>, p: Provider, i: nat, o: Outcome)
    requires i < |txs| && Moves(txs[i], p, o) && multiset(p.stack) == AllHeld(txs)
    ensures multiset(o.provider.stack) == AllHeld(txs[i := o.tx])
  {
    HeldUpdate(txs, i, o.tx);
    forall h ensures multiset(o.provider.stack)[h] == AllHeld(txs[i := o.tx])[h] {
      assert multiset(o.provider.stack)[h] + Held(txs[i])[h] == multiset(p.stack)[h] + Held(o.tx)[h];
    }
  }

  lemma OnMoves(s: System, i: nat, call: Call)
    requires Inv(s) && i < |s.txs|
    ensures Moves(s.txs[i], s.provider, TransactionSpec.Apply(s.txs[i], s.provider, call))
  {
    if s.txs[i].status == Started { OpenHandleOnStack(s, i); }
    CallMoves(s.txs[i], s.provider, call);
  }

  lemma AdvanceKeeps(s: System, step: Step)
    requires Inv(s)
    ensures Inv(Advance(s, step))
  {
    match step
    case Create(name, autoCommit) => CreateKeeps(s, Fresh(name, autoCommit));
    case On(i, call) => if i < |s.txs| { OnKeeps(s, i, call, TransactionSpec.Apply(s.txs[i], s.provider, call)); }
  }

  lemma CreateKeeps(s: System, tx: Transaction)
    requires Inv(s) && tx.status == NotStarted
    ensures Inv(s.(txs := s.txs + [tx]))
  {
    var txs := s.txs + [tx];
    HeldAppend(s.txs, tx);
    forall i | 0 <= i < |txs| ensures txs[i].status != Failed && (txs[i].status == Started ==> Truthy(txs[i].handle)) {
      if i < |s.txs| { assert txs[i] == s.txs[i]; }
    }
  }

  lemma OnKeeps(s: System, i: nat, call: Call, o: Outcome)
    requires Inv(s) && i < |s.txs| && o == TransactionSpec.Apply(s.txs[i], s.provider, call)
    ensures Inv(System(o.provider, s.txs[i := o.tx]))
  {
    OnMoves(s, i, call);
    MovedKeeps(s, i, o);
  }

  lemma {:induction false} RunAllKeeps(s: System, steps: seq<Step>)
    requires Inv(s)
    ensures Inv(RunAll(s, steps))
    decreases |steps|
  {
    if steps != [] {
      AdvanceKeeps(s, steps[0]);
      RunAllKeeps(Advance(s, steps[0]), steps[1..]);
    }
  }

  /** After every interleaving the stack holds exactly the handles of the open transactions,
      each as often as it is held. */
  lemma StackIsOpenHandles(steps: seq<Step>)
    ensures var s := RunAll(EMPTY, steps); multiset(s.provider.stack) == AllHeld(s.txs)
  {
    RunAllKeeps(EMPTY, steps);
  }

  lemma {:induction false} SomeoneHolds(txs: seq<Transaction>)
    requires AllHeld(txs) != multiset{}
    ensures exists i :: 0 <= i < |txs| && txs[i].status == Started
  {
    if txs[0].status != Started {
      SomeoneHolds(txs[1..]);
      var i :| 0 <= i < |txs[1..]| && txs[1..][i].status == Started;
      assert txs[i + 1].status == Started;
    }
  }

  /** is_in_transaction answers correctly. */
  lemma InTransactionIffOneIsOpen(steps: seq<Step>)
    ensures var s := RunAll(EMPTY, steps);
            |s.provider.stack| > 0 <==> exists i :: 0 <= i < |s.txs| && s.txs[i].status == Started
  {
    RunAllKeeps(EMPTY, steps);
    var s := RunAll(EMPTY, steps);
    if |s.provider.stack| > 0 {
      assert s.provider.stack[0] in multiset(s.provider.stack);
      SomeoneHolds(s.txs);
    }
    if i :| 0 <= i < |s.txs| && s.txs[i].status == Started {
      OpenHandleOnStack(s, i);
    }
  }

  /** The document provider never refuses an open transaction, so its commit can fail only by an
      operation of its own, and its rollback cannot fail. */
  lemma OpenTransactionsAreNeverRefused(steps: seq<Step>, i: nat)
    requires i < |RunAll(EMPTY, steps).txs| && RunAll(EMPTY, steps).txs[i].status == Started
    ensures var s := RunAll(EMPTY, steps);
            && (Commit(s.txs[i], s.provider).raised.None? <==>
                  forall k | 0 <= k < |s.txs[i].operations| :: !s.txs[i].operations[k].raises)
            && Commit(s.txs[i], s.provider).tx.status in {Committed, RolledBack}
            && Rollback(s.txs[i], s.provider).raised.None?
            && Rollback(s.txs[i], s.provider).tx.status == RolledBack
  {
    RunAllKeeps(EMPTY, steps);
    var s := RunAll(EMPTY, steps);
    OpenHandleOnStack(s, i);
    CommitGrows(s.txs[i], s.provider);
    CommitMoves(s.txs[i], s.provider);
    RollbackMoves(s.txs[i], s.provider);
    RollbackGrows(s.txs[i], s.provider);
  }

  lemma {:induction false} RunAllSnoc(s: System, steps: seq<Step>, step: Step)
    ensures RunAll(s, steps + [step]) == Advance(RunAll(s, steps), step)
    decreases |steps|
  {
    if steps == [] {
      assert RunAll(Advance(s, step), [step][1..]) == Advance(s, step);
    } else {
      assert (steps + [step])[1..] == steps[1..] + [step];
      RunAllSnoc(Advance(s, steps[0]), steps[1..], step);
    }
  }

  lemma AdvanceStart(s: System, i: nat)
    requires s.provider.kind.Document? && i < |s.txs| && s.txs[i].status == NotStarted
    ensures var r, h := Advance(s, On(i, CallStart)), DocumentHandle(s.txs[i].name, |s.provider.stack|);
            && r.provider.kind.Document? && r.provider.stack == s.provider.stack + [h]
            && |r.txs| == |s.txs| && (forall j | 0 <= j < |s.txs| && j != i :: r.txs[j] == s.txs[j])
            && r.txs[i].status == Started && r.txs[i].handle == Handle(h) && r.txs[i].operations == s.txs[i].operations
  {
  }

  lemma AdvanceRollback(s: System, i: nat)
    requires s.provider.kind.Document? && i < |s.txs| && s.txs[i].status == Started
    requires Truthy(s.txs[i].handle) && s.provider.stack != [] && s.provider.stack[0] == s.txs[i].handle.text
    ensures var r := Advance(s, On(i, CallRollback));
            && r.provider.kind.Document? && r.provider.stack == s.provider.stack[1..]
            && |r.txs| == |s.txs| && (forall j | 0 <= j < |s.txs| && j != i :: r.txs[j] == s.txs[j])
  {
  }

  // ---------- when handles collide ----------

  lemma HandleIsInjective(name: string, depth: nat, other: string, otherDepth: nat)
    requires DocumentHandle(name, depth) == DocumentHandle(other, otherDepth)
    ensures name == other && depth == otherDepth
  {
    var d, e := Decimal(depth), Decimal(otherDepth);
    BarBeforeDigits("Transaction_" + name, d, "Transaction_" + other, e);
    assert ("Transaction_" + name)[12..] == name && ("Transaction_" + other)[12..] == other;
    ValueOfDecimal(depth);
    ValueOfDecimal(otherDepth);
  }

  /** An open transaction was started under its own name, at some depth of the stack. */
  ghost predicate StartedAt(tx: Transaction, depth: nat) { tx.handle == Handle(DocumentHandle(tx.name, depth)) }

  ghost predicate Named(s: System) {
    s.provider.kind.Document?
    && forall i | 0 <= i < |s.txs| && s.txs[i].status == Started :: exists depth: nat :: StartedAt(s.txs[i], depth)
  }

  lemma CallKeepsName(tx: Transaction, p: Provider, call: Call)
    requires p.kind.Document?
    ensures var o := TransactionSpec.Apply(tx, p, call);
            && o.provider.kind.Document? && o.tx.name == tx.name
            && (o.tx.status == Started ==>
                  if tx.status == Started then o.tx.handle == tx.handle else StartedAt(o.tx, |p.stack|))
  {
    if tx.status == Started { CommitShape(tx, p); }
  }

  lemma {:induction false} RunAllNamed(s: System, steps: seq<Step>)
    requires Named(s)
    ensures Named(RunAll(s, steps))
    decreases |steps|
  {
    if steps != [] {
      var r := Advance(s, steps[0]);
      match steps[0] {
        case Create(_, _) =>
        case On(i, call) => if i < |s.txs| { NamedAfter(s, i, TransactionSpec.Apply(s.txs[i], s.provider, call), call); }
      }
      RunAllNamed(r, steps[1..]);
    }
  }

  lemma NamedAfter(s: System, i: nat, o: Outcome, call: Call)
    requires Named(s) && i < |s.txs| && o == TransactionSpec.Apply(s.txs[i], s.provider, call)
    ensures Named(System(o.provider, s.txs[i := o.tx]))
  {
    CallKeepsName(s.txs[i], s.provider, call);
    var r := System(o.provider, s.txs[i := o.tx]);
    forall j | 0 <= j < |r.txs| && r.txs[j].status == Started ensures exists depth: nat :: StartedAt(r.txs[j], depth) {
      if s.txs[j].status == Started {
        var depth: nat :| StartedAt(s.txs[j], depth);
        assert StartedAt(r.txs[j], depth);
      } else {
        assert StartedAt(r.txs[j], |s.provider.stack|);
      }
    }
  }

  lemma {:induction false} Holder(txs: seq<Transaction>, h: string) returns (i: nat)
    requires AllHeld(txs)[h] > 0
    ensures i < |txs| && txs[i].status == Started && txs[i].handle == Handle(h)
  {
    if Held(txs[0])[h] > 0 {
      i := 0;
    } else {
      i := Holder(txs[1..], h);
      i := i + 1;
    }
  }

  ghost predicate Collides(s: System, i: nat) {
    i < |s.txs| && exists j :: 0 <= j < |s.txs| && j != i && s.txs[j].status == Started && s.txs[j].handle == s.txs[i].handle
  }

  /** Starting a transaction makes its handle collide exactly if the handle it will be given is on
      the stack already: exactly if an open transaction of the same name was started at the depth
      the stack has now. */
  lemma StartCollidesIff(steps: seq<Step>, i: nat)
    requires i < |RunAll(EMPTY, steps).txs| && RunAll(EMPTY, steps).txs[i].status == NotStarted
    ensures var s, r := RunAll(EMPTY, steps), RunAll(EMPTY, steps + [On(i, CallStart)]);
            Collides(r, i) <==> DocumentHandle(s.txs[i].name, |s.provider.stack|) in s.provider.stack
    ensures var s, r := RunAll(EMPTY, steps), RunAll(EMPTY, steps + [On(i, CallStart)]);
            Collides(r, i) <==>
              exists j :: 0 <= j < |s.txs| && s.txs[j].status == Started
                          && s.txs[j].name == s.txs[i].name && StartedAt(s.txs[j], |s.provider.stack|)
  {
    var s := RunAll(EMPTY, steps);
    RunAllKeeps(EMPTY, steps);
    RunAllSnoc(EMPTY, steps, On(i, CallStart));
    CollidesIffNamed(steps, s, i);
    OnStackIffNamed(steps, s, i, DocumentHandle(s.txs[i].name, |s.provider.stack|));
  }

  lemma OnStackIffNamed(steps: seq<Step>, s: System, i: nat, h: string)
    requires s == RunAll(EMPTY, steps) && Inv(s) && i < |s.txs|
    requires h == DocumentHandle(s.txs[i].name, |s.provider.stack|)
    ensures h in s.provider.stack <==>
              exists j :: 0 <= j < |s.txs| && s.txs[j].status == Started
                          && s.txs[j].name == s.txs[i].name && StartedAt(s.txs[j], |s.provider.stack|)
  {
    if h in s.provider.stack {
      assert AllHeld(s.txs)[h] == multiset(s.provider.stack)[h] > 0;
      var j := Holder(s.txs, h);
      SameNameAs(steps, s, i, j);
    }
    if j :| 0 <= j < |s.txs| && s.txs[j].status == Started && s.txs[j].name == s.txs[i].name && StartedAt(s.txs[j], |s.provider.stack|) {
      OpenHandleOnStack(s, j);
    }
  }

  lemma CollidesIffNamed(steps: seq<Step>, s: System, i: nat)
    requires s == RunAll(EMPTY, steps) && Inv(s) && i < |s.txs| && s.txs[i].status == NotStarted
    ensures Collides(Advance(s, On(i, CallStart)), i) <==>
              exists j :: 0 <= j < |s.txs| && s.txs[j].status == Started
                          && s.txs[j].name == s.txs[i].name && StartedAt(s.txs[j], |s.provider.stack|)
  {
    AdvanceStart(s, i);
    var r := Advance(s, On(i, CallStart));
    if Collides(r, i) {
      var j :| 0 <= j < |r.txs| && j != i && r.txs[j].status == Started && r.txs[j].handle == r.txs[i].handle;
      SameNameAs(steps, s, i, j);
    }
    if j :| 0 <= j < |s.txs| && s.txs[j].status == Started && s.txs[j].name == s.txs[i].name && StartedAt(s.txs[j], |s.provider.stack|) {
      assert r.txs[j].handle == r.txs[i].handle;
    }
  }

  lemma SameNameAs(steps: seq<Step>, s: System, i: nat, j: nat)
    requires s == RunAll(EMPTY, steps) && i < |s.txs| && j < |s.txs| && s.txs[j].status == Started
    requires s.txs[j].handle == Handle(DocumentHandle(s.txs[i].name, |s.provider.stack|))
    ensures s.txs[j].name == s.txs[i].name && StartedAt(s.txs[j], |s.provider.stack|)
  {
    RunAllNamed(EMPTY, steps);
    var depth: nat :| StartedAt(s.txs[j], depth);
    HandleIsInjective(s.txs[j].name, depth, s.txs[i].name, |s.provider.stack|);
  }

  /** Equal handles do occur: three transactions of one name, the first ended before the third
      starts. */
  lemma HandlesCanCollide(name: string) returns (steps: seq<Step>)
    ensures var s := RunAll(EMPTY, steps);
            && |s.txs| == 3 && s.txs[1].status == Started && s.txs[2].status == Started
            && s.txs[1].handle == s.txs[2].handle
  {
    steps := [];
    var s := EMPTY;
    for i := 0 to 3
      invariant s == RunAll(EMPTY, steps) && s.provider == EMPTY.provider
      invariant |s.txs| == i && forall j | 0 <= j < i :: s.txs[j] == Fresh(name, true)
    {
      RunAllSnoc(EMPTY, steps, Create(name, true));
      steps, s := steps + [Create(name, true)], Advance(s, Create(name, true));
    }
    var h0, h1 := DocumentHandle(name, 0), DocumentHandle(name, 1);
    assert h0[|h0| - 1] == '0' && h1[|h1| - 1] == '1';
    RunAllSnoc(EMPTY, steps, On(0, CallStart));
    AdvanceStart(s, 0);
    steps, s := steps + [On(0, CallStart)], Advance(s, On(0, CallStart));
    RunAllSnoc(EMPTY, steps, On(1, CallStart));
    AdvanceStart(s, 1);
    steps, s := steps + [On(1, CallStart)], Advance(s, On(1, CallStart));
    RunAllSnoc(EMPTY, steps, On(0, CallRollback));
    assert h0 != "";
    AdvanceRollback(s, 0);
    steps, s := steps + [On(0, CallRollback)], Advance(s, On(0, CallRollback));
    RunAllSnoc(EMPTY, steps, On(2, CallStart));
    AdvanceStart(s, 2);
    steps, s := steps + [On(2, CallStart)], Advance(s, On(2, CallStart));
  }
}
