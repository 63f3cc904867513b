/** The imperative drivers of transactions: groups and the retry loop. */
module TransactionScopes {
  import opened Common
  import Spec = TransactionSpec
  import opened TransactionSpec
  import opened TransactionGroupSpec
  import opened TransactionScopeSpec
  import opened Transactions

  class TransactionGroup {
    const provider: TransactionProvider
    var transactions: seq<Transactions.Transaction>
    var status: Status

    constructor (provider: TransactionProvider)
      ensures Valid() && this.provider == provider && View() == Group(NotStarted, [])
    {
      this.provider, transactions, status := provider, [], NotStarted;
    }

    ghost predicate Valid()
      reads this
    {
      && (forall t | t in transactions :: t.provider == provider)
      && forall i, j | 0 <= i < j < |transactions| :: transactions[i] != transactions[j]
    }

    ghost function Members(): (ms: seq<Spec.Transaction>)
      reads this, transactions
      ensures |ms| == |transactions|
      ensures forall i | 0 <= i < |transactions| :: ms[i] == transactions[i].View()
    {
      seq(|transactions|, i requires 0 <= i < |transactions| reads this, transactions => transactions[i].View())
    }

    ghost function View(): Group
      reads this, transactions
    {
      Group(status, Members())
    }

    method AddTransaction(name: string, autoCommit: bool) returns (t: Option<Transactions.Transaction>)
      requires Valid()
      modifies this
      ensures Valid() && (t.None? <==> old(status) != NotStarted)
      ensures t.None? ==> View() == old(View())
      ensures t.Some? ==> fresh(t.value) && t.value.View() == Fresh(name, autoCommit)
                          && View() == Group(NotStarted, old(Members()) + [Fresh(name, autoCommit)])
    {
      if status != NotStarted { return None; }
      var transaction := new Transactions.Transaction(provider, name, autoCommit);
      ghost var before := Members();
      transactions := transactions + [transaction];
      assert Members() == before + [Fresh(name, autoCommit)];
      t := Some(transaction);
    }

    method CallMember(i: nat, call: Call) returns (raised: Option<TransactionError>)
      requires Valid() && i < |transactions| && call in {CallStart, CallCommit, CallRollback}
      modifies transactions, provider
      ensures Valid()
      ensures var o := Spec.Apply(old(Members())[i], old(provider.View()), call);
              Members() == old(Members())[i := o.tx] && provider.View() == o.provider && raised == o.raised
    {
      var t := transactions[i];
      match call {
        case CallStart => raised := t.Start();
        case CallCommit => raised := t.Commit();
        case CallRollback => raised := t.Rollback();
      }
      assert Members() == old(Members())[i := t.View()];
    }

    /** `for transaction in self._transactions: transaction.start()`, and likewise for commit():
        the first exception leaves the loop. */
    method Sweep(call: Call) returns (failedAt: nat)
      requires Valid() && call in {CallStart, CallCommit}
      modifies transactions, provider
      ensures Valid()
      ensures SweepFrom(old(Members()), old(provider.View()), call, 0)
           == TransactionGroupSpec.Sweep.Sweep(Members(), provider.View(), failedAt)
    {
      ghost var ms, p := Members(), provider.View();
      failedAt := 0;
      while failedAt < |transactions|
        invariant Valid() && 0 <= failedAt <= |transactions|
        invariant Members() == ms && provider.View() == p && |ms| == |transactions|
        invariant SweepFrom(ms, p, call, failedAt) == SweepFrom(old(Members()), old(provider.View()), call, 0)
      {
        ghost var o := Spec.Apply(ms[failedAt], p, call);
        SweepStep(ms, p, call, failedAt, o);
        var raised := CallMember(failedAt, call);
        ms, p := ms[failedAt := o.tx], o.provider;
        if raised.Some? { return; }
        failedAt := failedAt + 1;
      }
    }

    /** Rolls back the members before `limit`; exceptions are logged and swallowed. */
    method RollbackMembers(limit: nat)
      requires Valid() && limit <= |transactions|
      modifies transactions, provider
      ensures Valid()
      ensures (Members(), provider.View()) == RollbackFrom(old(Members()), old(provider.View()), 0, limit)
    {
      ghost var ms, p := Members(), provider.View();
      var i := 0;
      while i < limit
        invariant Valid() && 0 <= i <= limit
        invariant Members() == ms && provider.View() == p && |ms| == |transactions|
        invariant RollbackFrom(ms, p, i, limit) == RollbackFrom(old(Members()), old(provider.View()), 0, limit)
      {
        ghost var o := Rollback(ms[i], p);
        var _ := CallMember(i, CallRollback);
        ms, p := ms[i := o.tx], o.provider;
        i := i + 1;
      }
    }

    method StartAll() returns (raised: bool)
      requires Valid()
      modifies this`status, transactions, provider
      ensures Valid()
      ensures GroupOutcome(View(), provider.View(), raised)
           == TransactionGroupSpec.StartAll(old(View()), old(provider.View()))
    {
      if status != NotStarted { return true; }
      status := Started;
      assert Members() == old(Members());
      var failedAt := Sweep(CallStart);
      raised := failedAt < |transactions|;
      if raised { RollbackAll(); }
    }

    method CommitAll() returns (raised: bool)
      requires Valid()
      modifies this`status, transactions, provider
      ensures Valid()
      ensures GroupOutcome(View(), provider.View(), raised)
           == TransactionGroupSpec.CommitAll(old(View()), old(provider.View()))
    {
      if status != Started { return true; }
      ghost var ms, p := Members(), provider.View();
      var failedAt := Sweep(CallCommit);
      raised := failedAt < |transactions|;
      assert old(View()) == Group(Started, ms);
      if raised {
        RollbackMembers(failedAt);
        status := Failed;
      } else {
        status := Committed;
      }
      CommitAllIs(ms, p, SweepFrom(ms, p, CallCommit, 0));
    }

    method RollbackAll()
      requires Valid()
      modifies this`status, transactions, provider
      ensures Valid()
      ensures GroupOutcome(View(), provider.View(), false)
           == TransactionGroupSpec.RollbackAll(old(View()), old(provider.View()))
    {
      if status !in {Started, Failed} {
        assert View() == old(View());
        return;
      }
      RollbackMembers(|transactions|);
      status := RolledBack;
    }
  }

  /** retry_transaction: None stands for re-raising the last exception. An attempt without a given
      name draws its own. */
  method RetryTransaction(provider: TransactionProvider, operation: Script, maxRetries: int, names: Naming)
    returns (result: Option<int>, attempts: nat)
    modifies provider
    ensures Retried(provider.View(), result, attempts) == Retry(old(provider.View()), names, operation, maxRetries)
  {
    ghost var attempting := Attempting(names, operation);
    attempts := 0;
    while attempts < maxRetries + 1
      invariant attempts <= Limit(maxRetries)
      invariant RetryFrom(provider.View(), attempting, operation, attempts, Limit(maxRetries))
             == Retry(old(provider.View()), names, operation, maxRetries)
    {
      ghost var before := provider.View();
      var transaction := new Transactions.Transaction(provider, NameAt(names, attempts), true);
      var raised := transaction.Start();
      if raised.None? {
        var value := operation(attempts);
        raised := transaction.Exit(value.None?);
        if value.Some? && raised.None? {
          assert attempting(before, attempts).returned;
          return value, attempts + 1;
        }
      }
      assert attempting(before, attempts).provider == provider.View();
      assert !attempting(before, attempts).returned;
      attempts := attempts + 1;
    }
    result := None;
  }
}
