/** retry_transaction: the attempts it makes, and the provider stack it leaves. */
module TransactionScopeSpec {
  import opened Common
  import opened TransactionSpec
  import opened TransactionTheorems
  import opened ProviderStack

  // ---------- retry_transaction ----------

  /** One pass through `with transaction_scope(provider, name): return operation()`. */
  datatype Attempt = Attempt(tx: Transaction, provider: Provider, returned: bool)

  function TryOnce(p: Provider, name: string, raises: bool): Attempt {
    var started := Start(Fresh(name, true), p);
    if started.raised.Some? then Attempt(started.tx, started.provider, false)
    else
      var ended := Exit(started.tx, started.provider, raises);
      Attempt(ended.tx, ended.provider, !raises && ended.raised.None?)
  }

  /** What attempt k of the operation does: return a value or raise. */
  type Script = nat -> Option<int>

  datatype Retried = Retried(provider: Provider, result: Option<int>, attempts: nat)

  /** The loop, for any way of making attempt k on a provider. */
  function RetryFrom(p: Provider, attempt: (Provider, nat) -> Attempt, operation: Script, k: nat, limit: nat): Retried
    requires k <= limit
    decreases limit - k
  {
    if k == limit then Retried(p, None, k)
    else
      var a := attempt(p, k);
      if a.returned then Retried(a.provider, operation(k), k + 1)
      else RetryFrom(a.provider, attempt, operation, k + 1, limit)
  }

  /** The name of attempt k: the caller's, or one with the hexadecimal digits drawn for it. */
  datatype Naming = Naming(given: Option<string>, drawn: nat -> string)

  function NameAt(names: Naming, k: nat): string {
    if names.given.Some? then names.given.value else "Transaction_" + names.drawn(k)
  }

  function Attempting(names: Naming, operation: Script): (Provider, nat) -> Attempt {
    (p: Provider, k: nat) => TryOnce(p, NameAt(names, k), operation(k).None?)
  }

  /** The loop runs range(max_retries + 1); a negative max_retries makes no attempt at all. */
  function Limit(maxRetries: int): nat { if maxRetries + 1 < 0 then 0 else maxRetries + 1 }

  function Retry(p: Provider, names: Naming, operation: Script, maxRetries: int): Retried {
    RetryFrom(p, Attempting(names, operation), operation, 0, Limit(maxRetries))
  }

  /** The provider as attempt k would find it, were all earlier attempts made. */
  ghost function Before(p: Provider, attempt: (Provider, nat) -> Attempt, k: nat): Provider {
    if k == 0 then p else attempt(Before(p, attempt, k - 1), k - 1).provider
  }

  ghost function AttemptAt(p: Provider, attempt: (Provider, nat) -> Attempt, k: nat): Attempt {
    attempt(Before(p, attempt, k), k)
  }

  /** An attempt returns exactly if its transaction ends committed, and then its operation returned. */
  lemma ReturnedIffCommitted(p: Provider, name: string, raises: bool)
    ensures var a := TryOnce(p, name, raises);
            && (a.returned <==> a.tx.status == Committed)
            && (a.returned ==> !raises)
            && a.tx.status in {Committed, RolledBack, Failed}
  {
    var started := Start(Fresh(name, true), p);
    if started.raised.None? {
      CommitGrows(started.tx, started.provider);
      RollbackGrows(started.tx, started.provider);
    }
  }

  lemma {:induction false} RetryFromIs(p: Provider, attempt: (Provider, nat) -> Attempt, operation: Script, k: nat, limit: nat)
    requires k <= limit
    requires forall j: nat | j < k :: !AttemptAt(p, attempt, j).returned
    requires forall q, j: nat {:trigger attempt(q, j)} | attempt(q, j).returned :: operation(j).Some?
    ensures var r := RetryFrom(Before(p, attempt, k), attempt, operation, k, limit);
            && k <= r.attempts <= limit
            && r.provider == Before(p, attempt, r.attempts)
            && (r.result.Some? ==> r.attempts > k && AttemptAt(p, attempt, r.attempts - 1).returned
                                   && r.result == operation(r.attempts - 1))
            && (r.result.None? ==> r.attempts == limit)
            && forall j: nat | j < (if r.result.Some? then r.attempts - 1 else r.attempts) ::
                 !AttemptAt(p, attempt, j).returned
    decreases limit - k
  {
    if k < limit {
      var a := AttemptAt(p, attempt, k);
      assert a.provider == Before(p, attempt, k + 1);
      if !a.returned { RetryFromIs(p, attempt, operation, k + 1, limit); }
    }
  }

  ghost predicate StopsAtFirstSuccess(p: Provider, attempt: (Provider, nat) -> Attempt, operation: Script, limit: nat, r: Retried) {
    && r.attempts <= limit
    && (r.result.Some? <==> exists k: nat :: k < limit && AttemptAt(p, attempt, k).returned)
    && (r.result.Some? ==>
          && r.attempts > 0 && r.result == operation(r.attempts - 1)
          && AttemptAt(p, attempt, r.attempts - 1).tx.status == Committed)
    && (r.result.None? ==> r.attempts == limit)
    && (forall j: nat | j < (if r.result.Some? then r.attempts - 1 else r.attempts) ::
          AttemptAt(p, attempt, j).tx.status in {RolledBack, Failed})
  }

  lemma RetryFromStops(p: Provider, attempt: (Provider, nat) -> Attempt, operation: Script, limit: nat)
    requires forall q, j: nat {:trigger attempt(q, j)} ::
               && (attempt(q, j).returned ==> operation(j).Some?)
               && (attempt(q, j).returned <==> attempt(q, j).tx.status == Committed)
               && attempt(q, j).tx.status in {Committed, RolledBack, Failed}
    ensures StopsAtFirstSuccess(p, attempt, operation, limit, RetryFrom(p, attempt, operation, 0, limit))
  {
    RetryFromIs(p, attempt, operation, 0, limit);
  }

  /** retry_transaction makes at most max_retries + 1 attempts, returns iff one of them has both
      the operation and the commit succeed, stops at the first such attempt with its value, and
      that attempt's commit is the only one: every earlier attempt ended uncommitted. */
  lemma RetryStopsAtFirstSuccess(p: Provider, names: Naming, operation: Script, maxRetries: int)
    ensures StopsAtFirstSuccess(p, Attempting(names, operation), operation, Limit(maxRetries),
                                Retry(p, names, operation, maxRetries))
  {
    var attempt := Attempting(names, operation);
    forall q, j: nat
      ensures attempt(q, j).returned ==> operation(j).Some?
      ensures attempt(q, j).returned <==> attempt(q, j).tx.status == Committed
      ensures attempt(q, j).tx.status in {Committed, RolledBack, Failed}
    {
      ReturnedIffCommitted(q, NameAt(names, j), operation(j).None?);
    }
    RetryFromStops(p, attempt, operation, Limit(maxRetries));
  }

  /** On the document provider an attempt puts one handle on the stack and takes an equal one off. */
  lemma AttemptLeavesStack(p: Provider, name: string, raises: bool)
    requires p.kind.Document?
    ensures var a := TryOnce(p, name, raises);
            && a.provider.kind.Document?
            && multiset(a.provider.stack) == multiset(p.stack)
            && (a.returned <==> !raises)
  {
    var text := DocumentHandle(name, |p.stack|);
    assert text[0] == 'T';
    assert multiset(p.stack + [text]) == multiset(p.stack) + multiset{text};
    var started := Start(Fresh(name, true), p);
    assert text in started.provider.stack by { assert text in multiset(p.stack + [text]); }
    CommitGrows(started.tx, started.provider);
    RollbackGrows(started.tx, started.provider);
  }

  lemma {:induction false} RetryFromLeavesStack(p: Provider, attempt: (Provider, nat) -> Attempt, operation: Script, k: nat, limit: nat)
    requires p.kind.Document? && k <= limit
    requires forall q: Provider, j: nat {:trigger attempt(q, j)} | q.kind.Document? ::
               && attempt(q, j).provider.kind.Document?
               && multiset(attempt(q, j).provider.stack) == multiset(q.stack)
               && (attempt(q, j).returned <==> operation(j).Some?)
    ensures var r := RetryFrom(p, attempt, operation, k, limit);
            && r.provider.kind.Document? && multiset(r.provider.stack) == multiset(p.stack)
            && (r.result.Some? <==> exists j: nat :: k <= j < limit && operation(j).Some?)
    decreases limit - k
  {
    if k < limit {
      var a := attempt(p, k);
      if !a.returned { RetryFromLeavesStack(a.provider, attempt, operation, k + 1, limit); }
    }
  }

  /** With the document provider a retry leaves the stack with the handles it found, and it
      returns iff the operation itself returns in one of the allowed attempts. */
  lemma RetryLeavesStack(p: Provider, names: Naming, operation: Script, maxRetries: int)
    requires p.kind.Document?
    ensures var r := Retry(p, names, operation, maxRetries);
            && multiset(r.provider.stack) == multiset(p.stack)
            && (r.result.Some? <==> exists j: nat :: j < Limit(maxRetries) && operation(j).Some?)
  {
    var attempt := Attempting(names, operation);
    forall q: Provider, j: nat | q.kind.Document?
      ensures attempt(q, j).provider.kind.Document?
      ensures multiset(attempt(q, j).provider.stack) == multiset(q.stack)
      ensures attempt(q, j).returned <==> operation(j).Some?
    {
      AttemptLeavesStack(q, NameAt(names, j), operation(j).None?);
    }
    RetryFromLeavesStack(p, attempt, operation, 0, Limit(maxRetries));
  }

  // ---------- the order of the stack ----------

  /** Every `t` in the list is followed by nothing but `t`. */
  ghost predicate OnlyAtEnd(s: seq<string>, t: string) {
    forall i, j | 0 <= i < j < |s| && s[i] == t :: s[j] == t
  }

  function Others(s: seq<string>, t: string): nat {
    if s == [] then 0 else (if s[0] == t then 0 else 1) + Others(s[1..], t)
  }

  /** How often a `t` stands somewhere before another entry. */
  function Ahead(s: seq<string>, t: string): nat {
    if s == [] then 0 else (if s[0] == t then Others(s[1..], t) else 0) + Ahead(s[1..], t)
  }

  lemma {:induction false} AheadAppend(s: seq<string>, t: string)
    ensures Ahead(s + [t], t) == Ahead(s, t) && Others(s + [t], t) == Others(s, t)
  {
    if s == [] {
      assert [t][1..] == [] && s + [t] == [t];
    } else {
      assert (s + [t])[1..] == s[1..] + [t];
      AheadAppend(s[1..], t);
    }
  }

  lemma {:induction false} NoOthersIff(s: seq<string>, t: string)
    ensures Others(s, t) == 0 <==> forall i | 0 <= i < |s| :: s[i] == t
  {
    if s != [] { NoOthersIff(s[1..], t); }
  }

  lemma RemoveAppended(s: seq<string>, t: string)
    ensures t in s + [t]
    ensures RemoveFirst(s + [t], t) ==
              if s == [] then [] else if s[0] == t then s[1..] + [t]
              else assert t in s[1..] + [t] by { InAppended(s[1..], t); } [s[0]] + RemoveFirst(s[1..] + [t], t)
  {
    InAppended(s, t);
    if s == [] {
      assert [t][1..] == [] && s + [t] == [t];
    } else {
      InAppended(s[1..], t);
      assert (s + [t])[1..] == s[1..] + [t];
    }
  }

  lemma InAppended(s: seq<string>, t: string)
    ensures t in s + [t]
  {
    assert (s + [t])[|s|] == t;
  }

  /** Appending `t` and removing the first one moves a `t` to the end. */
  lemma {:induction false} MoveToEnd(s: seq<string>, t: string)
    ensures t in s + [t]
    ensures var r := RemoveFirst(s + [t], t);
            && |r| == |s| && Ahead(r, t) <= Ahead(s, t)
            && (r == s <==> Ahead(r, t) == Ahead(s, t))
            && (r == s <==> OnlyAtEnd(s, t))
  {
    RemoveAppended(s, t);
    if s != [] {
      if s[0] == t {
        MoveHead(s, t);
      } else {
        MoveToEnd(s[1..], t);
        MoveTail(s, RemoveFirst(s[1..] + [t], t), t);
      }
    }
  }

  lemma MoveHead(s: seq<string>, t: string)
    requires s != [] && s[0] == t
    ensures var r := s[1..] + [t];
            && Ahead(r, t) <= Ahead(s, t)
            && (r == s <==> Ahead(r, t) == Ahead(s, t))
            && (r == s <==> OnlyAtEnd(s, t))
  {
    var r := s[1..] + [t];
    AheadAppend(s[1..], t);
    NoOthersIff(s[1..], t);
    if Others(s[1..], t) == 0 {
      forall i | 0 <= i < |s| ensures s[i] == r[i] {
        if i > 0 { assert s[i] == s[1..][i - 1]; }
      }
      assert r == s && OnlyAtEnd(s, t);
    } else {
      var i :| 0 <= i < |s[1..]| && s[1..][i] != t;
      assert s[i + 1] != t && s[0] == t;
    }
  }

  lemma MoveTail(s: seq<string>, moved: seq<string>, t: string)
    requires s != [] && s[0] != t && |moved| == |s| - 1
    requires Ahead(moved, t) <= Ahead(s[1..], t)
    requires moved == s[1..] <==> Ahead(moved, t) == Ahead(s[1..], t)
    requires moved == s[1..] <==> OnlyAtEnd(s[1..], t)
    ensures var r := [s[0]] + moved;
            && Ahead(r, t) <= Ahead(s, t)
            && (r == s <==> Ahead(r, t) == Ahead(s, t))
            && (r == s <==> OnlyAtEnd(s, t))
  {
    var r := [s[0]] + moved;
    assert r[1..] == moved;
    assert s == [s[0]] + s[1..];
    TailOnlyAtEnd(s, t);
  }

  lemma TailOnlyAtEnd(s: seq<string>, t: string)
    requires s != [] && s[0] != t
    ensures OnlyAtEnd(s, t) <==> OnlyAtEnd(s[1..], t)
  {
    if OnlyAtEnd(s[1..], t) {
      forall i, j | 0 <= i < j < |s| && s[i] == t ensures s[j] == t {
        assert s[1..][i - 1] == t && s[1..][j - 1] == s[j];
      }
    }
  }

  /** One attempt leaves the stack as it was exactly if its own handle, should it be there already,
      is there only at the end. */
  lemma AttemptKeepsOrderIff(p: Provider, name: string, raises: bool)
    requires p.kind.Document?
    ensures var t, a := DocumentHandle(name, |p.stack|), TryOnce(p, name, raises).provider;
            && a.kind.Document? && |a.stack| == |p.stack| && Ahead(a.stack, t) <= Ahead(p.stack, t)
            && (a.stack == p.stack <==> OnlyAtEnd(p.stack, t))
            && (a.stack == p.stack <==> Ahead(a.stack, t) == Ahead(p.stack, t))
  {
    var t := DocumentHandle(name, |p.stack|);
    MoveToEnd(p.stack, t);
    AttemptStack(p, name, raises);
  }

  lemma AttemptStack(p: Provider, name: string, raises: bool)
    requires p.kind.Document?
    requires DocumentHandle(name, |p.stack|) in p.stack + [DocumentHandle(name, |p.stack|)]
    ensures var t, a := DocumentHandle(name, |p.stack|), TryOnce(p, name, raises).provider;
            a.kind.Document? && a.stack == RemoveFirst(p.stack + [t], t)
  {
    assert DocumentHandle(name, |p.stack|)[0] == 'T';
  }

  /** What an attempt whose handle is `t` does to a stack of `n` handles. */
  ghost predicate Turned(q: Provider, a: Provider, t: string, n: nat) {
    && a.kind.Document? && |a.stack| == n && Ahead(a.stack, t) <= Ahead(q.stack, t)
    && (a.stack == q.stack <==> OnlyAtEnd(q.stack, t))
    && (a.stack == q.stack <==> Ahead(a.stack, t) == Ahead(q.stack, t))
  }

  ghost predicate Turns(attempt: (Provider, nat) -> Attempt, handle: nat -> string, n: nat) {
    forall q: Provider, j: nat {:trigger attempt(q, j)} | q.kind.Document? && |q.stack| == n ::
      Turned(q, attempt(q, j).provider, handle(j), n)
  }

  /** The handle attempt k uses on a document provider that had `n` handles when the retry began. */
  function HandleAt(names: Naming, n: nat): nat -> string { (k: nat) => DocumentHandle(NameAt(names, k), n) }

  lemma AttemptingTurns(names: Naming, operation: Script, n: nat)
    ensures Turns(Attempting(names, operation), HandleAt(names, n), n)
  {
    var attempt := Attempting(names, operation);
    forall q: Provider, j: nat | q.kind.Document? && |q.stack| == n
      ensures Turned(q, attempt(q, j).provider, HandleAt(names, n)(j), n)
    {
      AttemptKeepsOrderIff(q, NameAt(names, j), operation(j).None?);
    }
  }

  lemma {:induction false} RetryFromAhead(p: Provider, attempt: (Provider, nat) -> Attempt, operation: Script,
                                          k: nat, limit: nat, t: string, n: nat)
    requires p.kind.Document? && |p.stack| == n && k <= limit && Turns(attempt, _ => t, n)
    ensures var r := RetryFrom(p, attempt, operation, k, limit).provider;
            Ahead(r.stack, t) <= Ahead(p.stack, t) && (OnlyAtEnd(p.stack, t) ==> r.stack == p.stack)
    decreases limit - k
  {
    if k < limit {
      var a := attempt(p, k);
      assert Turned(p, a.provider, t, n);
      if !a.returned { RetryFromAhead(a.provider, attempt, operation, k + 1, limit, t, n); }
    }
  }

  /** Attempts that all use one handle keep the order exactly if the first does. */
  lemma RetryFromKeepsOrderIff(p: Provider, attempt: (Provider, nat) -> Attempt, operation: Script, limit: nat, t: string, n: nat)
    requires p.kind.Document? && |p.stack| == n && limit > 0 && Turns(attempt, _ => t, n)
    ensures RetryFrom(p, attempt, operation, 0, limit).provider.stack == p.stack <==> OnlyAtEnd(p.stack, t)
  {
    var a := attempt(p, 0);
    assert Turned(p, a.provider, t, n);
    if !a.returned { RetryFromAhead(a.provider, attempt, operation, 1, limit, t, n); }
  }

  /** Under one given name retry_transaction leaves the document provider's stack as it found it,
      order included, exactly if it makes no attempt or the handle it is about to use, should an open
      transaction hold the same one, is not followed by another handle. */
  lemma RetryKeepsOrderIff(p: Provider, names: Naming, operation: Script, maxRetries: int)
    requires p.kind.Document? && names.given.Some?
    ensures Retry(p, names, operation, maxRetries).provider.stack == p.stack
       <==> Limit(maxRetries) == 0 || OnlyAtEnd(p.stack, DocumentHandle(names.given.value, |p.stack|))
  {
    var attempt, t, n := Attempting(names, operation), DocumentHandle(names.given.value, |p.stack|), |p.stack|;
    AttemptingTurns(names, operation, n);
    forall q: Provider, j: nat | q.kind.Document? && |q.stack| == n ensures Turned(q, attempt(q, j).provider, t, n) {
      assert HandleAt(names, n)(j) == t;
    }
    assert Turns(attempt, _ => t, n);
    if Limit(maxRetries) > 0 { RetryFromKeepsOrderIff(p, attempt, operation, Limit(maxRetries), t, n); }
  }

  /** The first `k` attempts leave the stack alone, each of them. */
  ghost predicate KeptThrough(p: Provider, attempt: (Provider, nat) -> Attempt, k: nat) {
    forall j: nat | j <= k :: Before(p, attempt, j).stack == p.stack
  }

  ghost predicate FirstHarmless(stack: seq<string>, handle: nat -> string, k: nat) {
    forall j: nat | j < k :: OnlyAtEnd(stack, handle(j))
  }

  lemma {:induction false} AttemptsKeepOrderIff(p: Provider, attempt: (Provider, nat) -> Attempt, handle: nat -> string, k: nat)
    requires p.kind.Document? && Turns(attempt, handle, |p.stack|)
    ensures KeptThrough(p, attempt, k) <==> FirstHarmless(p.stack, handle, k)
    ensures var q := Before(p, attempt, k); q.kind.Document? && |q.stack| == |p.stack|
  {
    if k > 0 {
      AttemptsKeepOrderIff(p, attempt, handle, k - 1);
      var q := Before(p, attempt, k - 1);
      assert Turned(q, attempt(q, k - 1).provider, handle(k - 1), |p.stack|);
      assert FirstHarmless(p.stack, handle, k) <==>
             (FirstHarmless(p.stack, handle, k - 1) && OnlyAtEnd(p.stack, handle(k - 1)));
      if KeptThrough(p, attempt, k - 1) && Before(p, attempt, k).stack == p.stack {
        forall j: nat | j <= k ensures Before(p, attempt, j).stack == p.stack {}
      }
    } else {
      forall j: nat | j <= k ensures Before(p, attempt, j).stack == p.stack {}
    }
  }

  /** However the attempts are named, a retry leaves the stack alone at each attempt it makes exactly
      if the handle of each, should an open transaction hold the same one, is not followed by another
      handle. Handles that no open transaction holds, as names drawn anew give, are harmless. */
  lemma RetryKeepsOrderThroughoutIff(p: Provider, names: Naming, operation: Script, maxRetries: int)
    requires p.kind.Document?
    ensures var r, handle := Retry(p, names, operation, maxRetries), HandleAt(names, |p.stack|);
            && r.provider == Before(p, Attempting(names, operation), r.attempts)
            && (KeptThrough(p, Attempting(names, operation), r.attempts) <==> FirstHarmless(p.stack, handle, r.attempts))
            && ((forall j: nat | j < r.attempts :: handle(j) !in p.stack) ==> FirstHarmless(p.stack, handle, r.attempts))
  {
    var attempt, limit := Attempting(names, operation), Limit(maxRetries);
    forall q, j: nat | attempt(q, j).returned ensures operation(j).Some? {
      ReturnedIffCommitted(q, NameAt(names, j), operation(j).None?);
    }
    RetryFromIs(p, attempt, operation, 0, limit);
    AttemptingTurns(names, operation, |p.stack|);
    AttemptsKeepOrderIff(p, attempt, HandleAt(names, |p.stack|), Retry(p, names, operation, maxRetries).attempts);
  }

  /** A run after which a retry under the name `a` turns the stack round. */
  lemma RetryCanReorder(a: string, b: string, operation: Script, maxRetries: nat) returns (steps: seq<Step>)
    ensures var p := RunAll(EMPTY, steps).provider;
            && p.kind.Document? && p.stack == [DocumentHandle(a, 2), DocumentHandle(b, 1)]
            && forall names: Naming | names.given == Some(a) :: Retry(p, names, operation, maxRetries).provider.stack != p.stack
  {
    var s;
    var h2, h3 := DocumentHandle(a, 2), DocumentHandle(b, 1);
    assert h2[|h2| - 1] == '2' && h3[|h3| - 1] == '1';
    steps, s := ThirdAlone(a, b);
    steps, s := StartNext(steps, s, 3, h3);
    assert s.provider.stack == [h2, h3];
    forall names: Naming | names.given == Some(a)
      ensures Retry(s.provider, names, operation, maxRetries).provider.stack != s.provider.stack
    {
      TwoHandlesTurn(s.provider, names, operation, maxRetries, h2, h3);
    }
  }

  lemma TwoHandlesTurn(p: Provider, names: Naming, operation: Script, maxRetries: nat, h: string, other: string)
    requires p.kind.Document? && p.stack == [h, other] && h != other
    requires names.given.Some? && h == DocumentHandle(names.given.value, 2)
    ensures Retry(p, names, operation, maxRetries).provider.stack != p.stack
  {
    RetryKeepsOrderIff(p, names, operation, maxRetries);
    assert p.stack[0] == h && p.stack[1] != h;
  }

  /** Three transactions of one name are started and the first two rolled back. */
  lemma ThirdAlone(a: string, b: string) returns (steps: seq<Step>, s: System)
    ensures s == RunAll(EMPTY, steps) && s.provider.kind.Document? && s.provider.stack == [DocumentHandle(a, 2)]
    ensures |s.txs| == 4 && s.txs[3] == Fresh(b, true)
  {
    steps, s := Created([a, a, a, b]);
    var h0, h1, h2 := DocumentHandle(a, 0), DocumentHandle(a, 1), DocumentHandle(a, 2);
    assert h0[0] == h1[0] == 'T';
    steps, s := StartNext(steps, s, 0, h0);
    steps, s := StartNext(steps, s, 1, h1);
    steps, s := StartNext(steps, s, 2, h2);
    assert s.provider.stack == [h0, h1, h2];
    steps, s := RollBackFirst(steps, s, 0);
    assert s.provider.stack == [h1, h2];
    steps, s := RollBackFirst(steps, s, 1);
    assert s.provider.stack == [h2];
  }

  lemma Created(names: seq<string>) returns (steps: seq<Step>, s: System)
    ensures s == RunAll(EMPTY, steps) && s.provider == EMPTY.provider
    ensures |s.txs| == |names| && forall j | 0 <= j < |names| :: s.txs[j] == Fresh(names[j], true)
  {
    steps, s := [], EMPTY;
    for i := 0 to |names|
      invariant s == RunAll(EMPTY, steps) && s.provider == EMPTY.provider
      invariant |s.txs| == i && forall j | 0 <= j < i :: s.txs[j] == Fresh(names[j], true)
    {
      RunAllSnoc(EMPTY, steps, Create(names[i], true));
      steps, s := steps + [Create(names[i], true)], Advance(s, Create(names[i], true));
    }
  }

  lemma StartNext(steps: seq<Step>, s: System, i: nat, h: string) returns (more: seq<Step>, r: System)
    requires s == RunAll(EMPTY, steps) && s.provider.kind.Document?
    requires i < |s.txs| && s.txs[i].status == NotStarted && h == DocumentHandle(s.txs[i].name, |s.provider.stack|)
    ensures r == RunAll(EMPTY, more) && r.provider.kind.Document? && r.provider.stack == s.provider.stack + [h]
    ensures |r.txs| == |s.txs| && (forall j | 0 <= j < |s.txs| && j != i :: r.txs[j] == s.txs[j])
    ensures r.txs[i].status == Started && r.txs[i].handle == Handle(h)
  {
    RunAllSnoc(EMPTY, steps, On(i, CallStart));
    AdvanceStart(s, i);
    more, r := steps + [On(i, CallStart)], Advance(s, On(i, CallStart));
  }

  lemma RollBackFirst(steps: seq<Step>, s: System, i: nat) returns (more: seq<Step>, r: System)
    requires s == RunAll(EMPTY, steps) && s.provider.kind.Document?
    requires i < |s.txs| && s.txs[i].status == Started && Truthy(s.txs[i].handle)
    requires s.provider.stack != [] && s.provider.stack[0] == s.txs[i].handle.text
    ensures r == RunAll(EMPTY, more) && r.provider.kind.Document? && r.provider.stack == s.provider.stack[1..]
    ensures |r.txs| == |s.txs| && (forall j | 0 <= j < |s.txs| && j != i :: r.txs[j] == s.txs[j])
  {
    RunAllSnoc(EMPTY, steps, On(i, CallRollback));
    AdvanceRollback(s, i);
    more, r := steps + [On(i, CallRollback)], Advance(s, On(i, CallRollback));
  }
}
