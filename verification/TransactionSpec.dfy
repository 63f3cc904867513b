/**
  Transactions as values: what one call on a transaction does, stated flat (no nested handlers).

  Queued operations and handlers are opaque pieces of code that either return or raise.
 */
module TransactionSpec {
  import opened Common
  import opened Decimals

  // ---------- providers ----------

  datatype Handle = Null | Handle(text: string)

  /** Python truth value of what start_transaction returned. */
  predicate Truthy(h: Handle) { h.Handle? && h.text != "" }

  datatype Reply = Yes | No | Raise

  datatype StartReply = Gives(handle: Handle) | StartRaises

  /** RevitDocumentProvider, or any other implementation of the provider interface: one that
      answers its n-th call as `starts(n)` or `replies(n)` say. */
  datatype Kind = Document | Foreign(starts: nat -> StartReply, replies: nat -> Reply)

  datatype Provider = Provider(kind: Kind, stack: seq<string>, calls: nat)

  function DocumentHandle(name: string, depth: nat): string {
    "Transaction_" + name + "_" + Decimal(depth)
  }

  function ProviderStart(p: Provider, name: string): (StartReply, Provider) {
    match p.kind
    case Document =>
      var text := DocumentHandle(name, |p.stack|);
      (Gives(Handle(text)), p.(stack := p.stack + [text], calls := p.calls + 1))
    case Foreign(starts, _) => (starts(p.calls), p.(calls := p.calls + 1))
  }

  /** list.remove: the first equal entry goes. */
  function RemoveFirst(s: seq<string>, x: string): (r: seq<string>)
    requires x in s
    ensures multiset(r) == multiset(s) - multiset{x}
  {
    assert s == [s[0]] + s[1..];
    if s[0] == x then s[1..] else [s[0]] + RemoveFirst(s[1..], x)
  }

  /** commit_transaction and rollback_transaction: both take the handle off the stack. */
  function ProviderFinish(p: Provider, h: Handle): (Reply, Provider) {
    match p.kind
    case Document =>
      if h.Handle? && h.text in p.stack
      then (Yes, p.(stack := RemoveFirst(p.stack, h.text), calls := p.calls + 1))
      else (No, p.(calls := p.calls + 1))
    case Foreign(_, replies) => (replies(p.calls), p.(calls := p.calls + 1))
  }

  // ---------- transactions ----------

  datatype Status = NotStarted | Started | Committed | RolledBack | Failed

  datatype Hook = Hook(id: nat, raises: bool)

  datatype HookKind = Operation | CommitHandler | RollbackHandler

  datatype ProviderOp = StartOp | CommitOp | RollbackOp

  /** What a transaction does, as seen from outside. */
  datatype Event =
    | Ran(kind: HookKind, id: nat)
    | Asked(op: ProviderOp)
    | Became(status: Status)

  datatype Transaction = Transaction(
    name: string,
    autoCommit: bool,
    status: Status,
    handle: Handle,
    operations: seq<Hook>,
    rollbackHandlers: seq<Hook>,
    commitHandlers: seq<Hook>,
    trace: seq<Event>)

  function Fresh(name: string, autoCommit: bool): Transaction {
    Transaction(name, autoCommit, NotStarted, Null, [], [], [], [])
  }

  datatype TransactionError =
    | WrongStatus(status: Status)
    | Inactive
    | StartFailed
    | OperationFailed(id: nat)
    | CommitRefused
    | CommitRaised
    | RollbackFailed

  datatype Outcome = Outcome(tx: Transaction, provider: Provider, raised: Option<TransactionError>)

  function Runs(kind: HookKind, hooks: seq<Hook>): seq<Event> {
    if hooks == [] then [] else [Ran(kind, hooks[0].id)] + Runs(kind, hooks[1..])
  }

  /** Position of the first hook that raises, or the length. */
  function FirstRaising(hooks: seq<Hook>): (k: nat)
    ensures k <= |hooks|
    ensures forall i | 0 <= i < k :: !hooks[i].raises
    ensures k < |hooks| ==> hooks[k].raises
  {
    if hooks == [] || hooks[0].raises then 0 else 1 + FirstRaising(hooks[1..])
  }

  function Start(tx: Transaction, p: Provider): Outcome {
    if tx.status != NotStarted then Outcome(tx, p, Some(WrongStatus(tx.status)))
    else
      var (reply, p') := ProviderStart(p, tx.name);
      match reply
      case StartRaises =>
        Outcome(tx.(status := Failed, trace := tx.trace + [Asked(StartOp), Became(Failed)]), p', Some(StartFailed))
      case Gives(h) =>
        Outcome(tx.(status := Started, handle := h, trace := tx.trace + [Asked(StartOp), Became(Started)]), p', None)
  }

  function EndRolledBack(tx: Transaction): Transaction {
    tx.(status := RolledBack,
        trace := tx.trace + [Became(RolledBack)] + Runs(RollbackHandler, tx.rollbackHandlers))
  }

  function Rollback(tx: Transaction, p: Provider): Outcome {
    if tx.status != Started && tx.status != Failed then Outcome(tx, p, None)
    else if !Truthy(tx.handle) then Outcome(EndRolledBack(tx), p, None)
    else
      var (reply, p') := ProviderFinish(p, tx.handle);
      var asked := tx.(trace := tx.trace + [Asked(RollbackOp)]);
      if reply == Raise
      then Outcome(asked.(status := Failed, trace := asked.trace + [Became(Failed)]), p', Some(RollbackFailed))
      else Outcome(EndRolledBack(asked), p', None)
  }

  /** Rolls back and then raises `e`, unless the rollback raises its own error. */
  function RollbackThenRaise(tx: Transaction, p: Provider, e: TransactionError): Outcome {
    var r := Rollback(tx, p);
    r.(raised := Some(if r.raised.Some? then r.raised.value else e))
  }

  function Commit(tx: Transaction, p: Provider): Outcome {
    if tx.status != Started then Outcome(tx, p, Some(WrongStatus(tx.status)))
    else
      var k := FirstRaising(tx.operations);
      if k < |tx.operations| then
        var ran := tx.(trace := tx.trace + Runs(Operation, tx.operations[..k + 1]));
        RollbackThenRaise(ran, p, OperationFailed(tx.operations[k].id))
      else
        var (reply, p') := ProviderFinish(p, tx.handle);
        var asked := tx.(trace := tx.trace + Runs(Operation, tx.operations) + [Asked(CommitOp)]);
        match reply
        case Yes =>
          Outcome(asked.(status := Committed,
                         trace := asked.trace + [Became(Committed)] + Runs(CommitHandler, tx.commitHandlers)),
                  p', None)
        case No => RollbackThenRaise(asked, p', CommitRefused)
        case Raise => RollbackThenRaise(asked, p', CommitRaised)
  }

  /** __exit__ and __aexit__ */
  function Exit(tx: Transaction, p: Provider, bodyRaised: bool): Outcome {
    if !bodyRaised && tx.autoCommit then Commit(tx, p) else Rollback(tx, p)
  }

  datatype Call =
    | CallStart
    | CallCommit
    | CallRollback
    | CallExit(bodyRaised: bool)
    | AddOperation(hook: Hook)
    | AddCommitHandler(hook: Hook)
    | AddRollbackHandler(hook: Hook)

  function Apply(tx: Transaction, p: Provider, call: Call): Outcome {
    match call
    case CallStart => Start(tx, p)
    case CallCommit => Commit(tx, p)
    case CallRollback => Rollback(tx, p)
    case CallExit(bodyRaised) => Exit(tx, p, bodyRaised)
    case AddOperation(hook) =>
      if tx.status != Started then Outcome(tx, p, Some(Inactive))
      else Outcome(tx.(operations := tx.operations + [hook]), p, None)
    case AddCommitHandler(hook) => Outcome(tx.(commitHandlers := tx.commitHandlers + [hook]), p, None)
    case AddRollbackHandler(hook) => Outcome(tx.(rollbackHandlers := tx.rollbackHandlers + [hook]), p, None)
  }
}
