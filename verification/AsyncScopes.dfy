/** The asynchronous scope: a transaction, a body and a cancellation token. */
module AsyncScopes {
  import opened Common
  import Spec = TransactionSpec
  import opened TransactionSpec
  import opened AsyncScopeSpec
  import opened Transactions

  /** The callback that async_transaction registers; what it raises is swallowed by the token. */
  method CancelTransaction(transaction: Transactions.Transaction)
    modifies transaction, transaction.provider
    ensures var before := Scope(old(transaction.View()), old(transaction.provider.View()), true);
            Scope(transaction.View(), transaction.provider.View(), false) == Cancelled(before)
  {
    if transaction.status == Started {
      var _ := transaction.Rollback();
    }
  }

  /** The part of a cancellation token that a transaction scope sees. */
  class ScopeToken {
    var cancelled: bool
    var callback: Option<Transactions.Transaction>

    constructor ()
      ensures !cancelled && callback == None
    {
      cancelled, callback := false, None;
    }

    /** _cancel with cancel_transaction as the only callback; what it raises is swallowed. */
    method Cancel(transaction: Transactions.Transaction)
      requires callback.Some? ==> callback.value == transaction
      requires cancelled ==> callback == None
      modifies this, transaction, transaction.provider
      ensures cancelled && callback == None
      ensures var before := Scope(old(transaction.View()), old(transaction.provider.View()), old(callback).Some?);
              Scope(transaction.View(), transaction.provider.View(), false) == Cancelled(before)
    {
      if cancelled { return; }
      cancelled := true;
      if callback.Some? { CancelTransaction(transaction); }
      callback := None;
    }
  }

  predicate Armed(token: ScopeToken?)
    reads token
  {
    token != null && token.callback.Some?
  }

  predicate Watching(token: ScopeToken?, transaction: Transactions.Transaction)
    reads token
  {
    token != null ==> (token.callback.Some? ==> !token.cancelled && token.callback.value == transaction)
  }

  /** One step of the body; true when it raises. */
  method RunStep(transaction: Transactions.Transaction, token: ScopeToken?, step: BodyStep) returns (raised: bool)
    requires Watching(token, transaction)
    modifies transaction, transaction.provider, token
    ensures Watching(token, transaction)
    ensures var before := Scope(old(transaction.View()), old(transaction.provider.View()), old(Armed(token)));
            (Scope(transaction.View(), transaction.provider.View(), Armed(token)), raised) == BodyStepOf(before, step)
  {
    raised := false;
    match step
    case CancelToken => if token != null { token.Cancel(transaction); }
    case Do(call, caught) =>
      var failed := transaction.Perform(call);
      raised := failed.Some? && !caught;
    case RaiseNow => raised := true;
  }

  /** async_transaction: the body's steps run between entry and exit, the token may be cancelled
      at any of them and calls cancel_transaction at most once. */
  method AsyncTransaction(provider: TransactionProvider, name: string, autoCommit: bool,
                          token: ScopeToken?, body: seq<BodyStep>)
    returns (transaction: Transactions.Transaction, raised: bool)
    requires token != null ==> token.callback == None
    modifies provider, token
    ensures fresh(transaction) && transaction.provider == provider
    ensures var given := if token == null then NoToken else if old(token.cancelled) then AlreadyCancelled else Live;
            var o := AsyncScope(old(provider.View()), name, autoCommit, given, body);
            transaction.View() == o.scope.tx && provider.View() == o.scope.provider && raised == o.raised
  {
    transaction := new Transactions.Transaction(provider, name, autoCommit);
    if token != null {
      if token.cancelled {
        CancelTransaction(transaction);
      } else {
        token.callback := Some(transaction);
      }
    }
    var failed := transaction.Start();
    if failed.Some? { return transaction, true; }
    ghost var start := Scope(transaction.View(), provider.View(), Armed(token));
    var bodyRaised := false;
    var i := 0;
    while i < |body| && !bodyRaised
      invariant 0 <= i <= |body| && Watching(token, transaction)
      invariant var s := Scope(transaction.View(), provider.View(), Armed(token));
                (if bodyRaised then (s, true) else Body(s, body[i..])) == Body(start, body)
    {
      assert body[i..][1..] == body[i + 1..];
      bodyRaised := RunStep(transaction, token, body[i]);
      i := i + 1;
    }
    failed := transaction.Exit(bodyRaised);
    raised := bodyRaised || failed.Some?;
  }
}
