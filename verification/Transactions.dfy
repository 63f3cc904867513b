/**
  The mutable transaction and its provider. The nested exception handlers of `commit` and
  `rollback` are written out over error values and proved to have the flat effect that
  TransactionSpec gives.
 */
module Transactions {
  import opened Common
  import Spec = TransactionSpec
  import opened TransactionSpec

  class TransactionProvider {
    const kind: Kind
    var stack: seq<string>
    var calls: nat

    constructor (kind: Kind)
      ensures this.kind == kind && View() == Spec.Provider.Provider(kind, [], 0)
    {
      this.kind, stack, calls := kind, [], 0;
    }

    function View(): Spec.Provider
      reads this
    {
      Spec.Provider.Provider(kind, stack, calls)
    }

    method StartTransaction(name: string) returns (reply: StartReply)
      modifies this
      ensures (reply, View()) == ProviderStart(old(View()), name)
    {
      match kind {
        case Document =>
          var transaction := DocumentHandle(name, |stack|);
          stack := stack + [transaction];
          reply := Gives(Spec.Handle.Handle(transaction));
        case Foreign(starts, _) =>
          reply := starts(calls);
      }
      calls := calls + 1;
    }

    method CommitTransaction(transaction: Handle) returns (reply: Reply)
      modifies this
      ensures (reply, View()) == ProviderFinish(old(View()), transaction)
    {
      reply := TakeOff(transaction);
    }

    method RollbackTransaction(transaction: Handle) returns (reply: Reply)
      modifies this
      ensures (reply, View()) == ProviderFinish(old(View()), transaction)
    {
      reply := TakeOff(transaction);
    }

    method TakeOff(transaction: Handle) returns (reply: Reply)
      modifies this
      ensures (reply, View()) == ProviderFinish(old(View()), transaction)
    {
      match kind {
        case Document =>
          if transaction.Null? || transaction.text !in stack {
            reply := No;
          } else {
            stack := RemoveFirst(stack, transaction.text);
            reply := Yes;
          }
        case Foreign(_, replies) =>
          reply := replies(calls);
      }
      calls := calls + 1;
    }

    predicate IsInTransaction()
      reads this
    {
      |stack| > 0
    }
  }

  class Transaction {
    const provider: TransactionProvider
    const name: string
    const autoCommit: bool
    var status: Status
    var handle: Handle
    var operations: seq<Hook>
    var rollbackHandlers: seq<Hook>
    var commitHandlers: seq<Hook>
    var trace: seq<Event>

    constructor (provider: TransactionProvider, name: string, autoCommit: bool)
      ensures this.provider == provider && View() == Spec.Fresh(name, autoCommit)
    {
      this.provider, this.name, this.autoCommit := provider, name, autoCommit;
      status, handle := NotStarted, Null;
      operations, rollbackHandlers, commitHandlers, trace := [], [], [], [];
    }

    function View(): Spec.Transaction
      reads this
    {
      Spec.Transaction.Transaction(name, autoCommit, status, handle, operations, rollbackHandlers, commitHandlers, trace)
    }

    /** The call did what `o` says. */
    ghost predicate Did(o: Outcome, raised: Option<TransactionError>)
      reads this, provider
    {
      View() == o.tx && provider.View() == o.provider && raised == o.raised
    }

    method AddOperation(hook: Hook) returns (raised: Option<TransactionError>)
      modifies this
      ensures Did(Spec.Apply(old(View()), old(provider.View()), Spec.Call.AddOperation(hook)), raised)
    {
      if status != Started { return Some(Inactive); }
      operations := operations + [hook];
      raised := None;
    }

    method AddCommitHandler(hook: Hook)
      modifies this
      ensures Did(Spec.Apply(old(View()), old(provider.View()), Spec.Call.AddCommitHandler(hook)), None)
    {
      commitHandlers := commitHandlers + [hook];
    }

    method AddRollbackHandler(hook: Hook)
      modifies this
      ensures Did(Spec.Apply(old(View()), old(provider.View()), Spec.Call.AddRollbackHandler(hook)), None)
    {
      rollbackHandlers := rollbackHandlers + [hook];
    }

    method Start() returns (raised: Option<TransactionError>)
      modifies this, provider
      ensures Did(Spec.Start(old(View()), old(provider.View())), raised)
    {
      if status != NotStarted { return Some(WrongStatus(status)); }
      trace := trace + [Asked(StartOp)];
      var reply := provider.StartTransaction(name);
      match reply
      case Gives(h) =>
        handle, status := h, Started;
        trace := trace + [Became(Started)];
        assert trace == old(trace) + [Asked(StartOp), Became(Started)];
        raised := None;
      case StartRaises =>
        status := Failed;
        trace := trace + [Became(Failed)];
        assert trace == old(trace) + [Asked(StartOp), Became(Failed)];
        raised := Some(StartFailed);
    }

    /** Runs hooks whose exceptions are logged and swallowed. */
    method RunHandlers(kind: HookKind, hooks: seq<Hook>)
      modifies this`trace
      ensures trace == old(trace) + Runs(kind, hooks)
    {
      var i := 0;
      while i < |hooks|
        invariant 0 <= i <= |hooks|
        invariant trace + Runs(kind, hooks[i..]) == old(trace) + Runs(kind, hooks)
      {
        assert hooks[i..][1..] == hooks[i + 1..];
        ghost var before := trace;
        trace := trace + [Ran(kind, hooks[i].id)];
        assert trace + Runs(kind, hooks[i + 1..]) == before + Runs(kind, hooks[i..]);
        i := i + 1;
      }
      assert hooks[i..] == [];
    }

    method Rollback() returns (raised: Option<TransactionError>)
      modifies this, provider
      ensures Did(Spec.Rollback(old(View()), old(provider.View())), raised)
    {
      if status !in {Started, Failed} { return None; }
      if Truthy(handle) {
        trace := trace + [Asked(RollbackOp)];
        var success := provider.RollbackTransaction(handle);
        if success == Raise {
          status := Failed;
          trace := trace + [Became(Failed)];
          return Some(RollbackFailed);
        }
        // A refusal is only logged.
      }
      status := RolledBack;
      trace := trace + [Became(RolledBack)];
      RunHandlers(RollbackHandler, rollbackHandlers);
      raised := None;
    }

    method Commit() returns (raised: Option<TransactionError>)
      modifies this, provider
      ensures Did(Spec.Commit(old(View()), old(provider.View())), raised)
    {
      if status != Started { return Some(WrongStatus(status)); }
      raised := TryCommit();
      // except Exception: roll back if nobody has, then re-raise
      if raised.Some? && status == Started {
        var again := Rollback();
        if again.Some? { raised := again; }
      }
    }

    /** The try block of commit: an operation's own handler rolls back before raising. */
    method TryCommit() returns (raised: Option<TransactionError>)
      requires status == Started
      modifies this, provider
      ensures var tx, p := old(View()), old(provider.View());
              var k := FirstRaising(tx.operations);
              if k < |tx.operations| then
                var ran := tx.(trace := tx.trace + Runs(Operation, tx.operations[..k + 1]));
                Did(RollbackThenRaise(ran, p, OperationFailed(tx.operations[k].id)), raised)
              else
                var (reply, p') := ProviderFinish(p, tx.handle);
                if reply == Yes then Did(Spec.Commit(tx, p), raised)
                else Did(Outcome(tx.(trace := tx.trace + Runs(Operation, tx.operations) + [Asked(CommitOp)]), p',
                                 Some(if reply == No then CommitRefused else CommitRaised)), raised)
    {
      raised := RunOperations();
      if raised.Some? { return; }
      assert FirstRaising(operations) == |operations|;
      trace := trace + [Asked(CommitOp)];
      var success := provider.CommitTransaction(handle);
      match success {
        case Raise => return Some(CommitRaised);
        case No => return Some(CommitRefused);
        case Yes =>
      }
      status := Committed;
      trace := trace + [Became(Committed)];
      RunHandlers(CommitHandler, commitHandlers);
      raised := None;
    }

    /** The handler around one operation: what its rollback raises replaces `e`. */
    method RollbackAndRaise(e: TransactionError) returns (raised: Option<TransactionError>)
      modifies this, provider
      ensures Did(RollbackThenRaise(old(View()), old(provider.View()), e), raised)
    {
      var nested := Rollback();
      raised := Some(if nested.Some? then nested.value else e);
    }

    /** The loop over the queued operations. */
    method RunOperations() returns (raised: Option<TransactionError>)
      requires status == Started
      modifies this, provider
      ensures var tx, p := old(View()), old(provider.View());
              var k := FirstRaising(tx.operations);
              if k < |tx.operations| then
                var ran := tx.(trace := tx.trace + Runs(Operation, tx.operations[..k + 1]));
                Did(RollbackThenRaise(ran, p, OperationFailed(tx.operations[k].id)), raised)
              else
                Did(Outcome(tx.(trace := tx.trace + Runs(Operation, tx.operations)), p, None), raised)
    {
      var i := 0;
      while i < |operations|
        invariant 0 <= i <= |operations|
        invariant forall j | 0 <= j < i :: !operations[j].raises
        invariant View() == old(View()).(trace := trace) && provider.View() == old(provider.View())
        invariant trace == old(trace) + Runs(Operation, operations[..i])
      {
        RunsSnoc(Operation, operations, i);
        trace := trace + [Ran(Operation, operations[i].id)];
        assert trace == old(trace) + Runs(Operation, operations[..i + 1]);
        if operations[i].raises {
          raised := RollbackAndRaise(OperationFailed(operations[i].id));
          return;
        }
        i := i + 1;
      }
      assert operations[..i] == operations;
      raised := None;
    }

    /** __exit__: what it raises replaces the body's exception. */
    method Exit(bodyRaised: bool) returns (raised: Option<TransactionError>)
      modifies this, provider
      ensures Did(Spec.Exit(old(View()), old(provider.View()), bodyRaised), raised)
    {
      if !bodyRaised && autoCommit {
        raised := Commit();
      } else {
        raised := Rollback();
      }
    }

    /** Any call, as client code makes it. */
    method Perform(call: Call) returns (raised: Option<TransactionError>)
      modifies this, provider
      ensures Did(Spec.Apply(old(View()), old(provider.View()), call), raised)
    {
      raised := None;
      match call
      case CallStart => raised := Start();
      case CallCommit => raised := Commit();
      case CallRollback => raised := Rollback();
      case CallExit(bodyRaised) => raised := Exit(bodyRaised);
      case AddOperation(hook) => raised := AddOperation(hook);
      case AddCommitHandler(hook) => AddCommitHandler(hook);
      case AddRollbackHandler(hook) => AddRollbackHandler(hook);
    }
  }

  lemma {:induction false} RunsSnoc(kind: HookKind, hooks: seq<Hook>, i: nat)
    requires i < |hooks|
    ensures Runs(kind, hooks[..i + 1]) == Runs(kind, hooks[..i]) + [Ran(kind, hooks[i].id)]
  {
    if i == 0 {
      assert Runs(kind, hooks[..1][1..]) == [];
    } else {
      assert hooks[..i + 1][1..] == hooks[1..][..i] && hooks[..i][1..] == hooks[1..][..i - 1];
      RunsSnoc(kind, hooks[1..], i - 1);
    }
  }
}
