/** Groups of transactions on one provider: start all, commit all, roll back all. */
module TransactionGroupSpec {
  import opened Common
  import opened TransactionSpec
  import opened TransactionTheorems
  import opened ProviderStack

  /** Members and provider after calling each member in order until one raises. */
  datatype Sweep = Sweep(members: seq<Transaction>, provider: Provider, failedAt: nat)

  function SweepFrom(ms: seq<Transaction>, p: Provider, call: Call, i: nat): (s: Sweep)
    requires i <= |ms|
    ensures |s.members| == |ms| && i <= s.failedAt <= |ms|
    decreases |ms| - i
  {
    if i == |ms| then Sweep(ms, p, i)
    else
      var o := TransactionSpec.Apply(ms[i], p, call);
      if o.raised.Some? then Sweep(ms[i := o.tx], o.provider, i)
      else SweepFrom(ms[i := o.tx], o.provider, call, i + 1)
  }

  /** Rolls back members i up to `limit`, whatever each rollback raises. */
  function RollbackFrom(ms: seq<Transaction>, p: Provider, i: nat, limit: nat): (r: (seq<Transaction>, Provider))
    requires i <= limit <= |ms|
    ensures |r.0| == |ms|
    decreases limit - i
  {
    if i == limit then (ms, p)
    else
      var o := Rollback(ms[i], p);
      RollbackFrom(ms[i := o.tx], o.provider, i + 1, limit)
  }

  datatype Group = Group(status: Status, members: seq<Transaction>)

  datatype GroupOutcome = GroupOutcome(group: Group, provider: Provider, raised: bool)

  function RollbackAll(g: Group, p: Provider): GroupOutcome {
    if g.status != Started && g.status != Failed then GroupOutcome(g, p, false)
    else
      var (ms, q) := RollbackFrom(g.members, p, 0, |g.members|);
      GroupOutcome(Group(RolledBack, ms), q, false)
  }

  function StartAll(g: Group, p: Provider): GroupOutcome {
    if g.status != NotStarted then GroupOutcome(g, p, true)
    else
      var s := SweepFrom(g.members, p, CallStart, 0);
      if s.failedAt == |g.members| then GroupOutcome(Group(Started, s.members), s.provider, false)
      else RollbackAll(Group(Started, s.members), s.provider).(raised := true)
  }

  function CommitAll(g: Group, p: Provider): GroupOutcome {
    if g.status != Started then GroupOutcome(g, p, true)
    else
      var s := SweepFrom(g.members, p, CallCommit, 0);
      if s.failedAt == |g.members| then GroupOutcome(Group(Committed, s.members), s.provider, false)
      else
        var (ms, q) := RollbackFrom(s.members, s.provider, 0, s.failedAt);
        GroupOutcome(Group(Failed, ms), q, true)
  }

  lemma CommitAllIs(ms: seq<Transaction>, p: Provider, s: Sweep)
    requires s == SweepFrom(ms, p, CallCommit, 0)
    ensures CommitAll(Group(Started, ms), p) ==
              if s.failedAt == |ms| then GroupOutcome(Group(Committed, s.members), s.provider, false)
              else GroupOutcome(Group(Failed, RollbackFrom(s.members, s.provider, 0, s.failedAt).0),
                                RollbackFrom(s.members, s.provider, 0, s.failedAt).1, true)
  {
  }

  // ---------- one member at a time ----------

  predicate Answers(before: Transaction, p: Provider, call: Call, after: Transaction, raised: bool) {
    TransactionSpec.Apply(before, p, call).tx == after && TransactionSpec.Apply(before, p, call).raised.Some? == raised
  }

  ghost predicate AfterCall(before: Transaction, after: Transaction, call: Call, raised: bool) {
    exists p :: Answers(before, p, call, after, raised)
  }

  /** Members before `i` are untouched, those up to the failing one called, and the rest untouched;
      `called` relates a member before and after its call, given whether that raised. */
  ghost predicate Shaped(ms: seq<Transaction>, called: (Transaction, Transaction, bool) -> bool, i: nat, s: Sweep) {
    && |s.members| == |ms| && i <= s.failedAt <= |ms|
    && (forall j | 0 <= j < i :: s.members[j] == ms[j])
    && (forall j | i <= j < s.failedAt :: called(ms[j], s.members[j], false))
    && (s.failedAt < |ms| ==> called(ms[s.failedAt], s.members[s.failedAt], true))
    && (forall j | s.failedAt < j < |ms| :: s.members[j] == ms[j])
  }

  lemma ShapedCons(ms: seq<Transaction>, called: (Transaction, Transaction, bool) -> bool, i: nat, tx: Transaction, s: Sweep)
    requires i < |ms| && called(ms[i], tx, false) && Shaped(ms[i := tx], called, i + 1, s)
    ensures Shaped(ms, called, i, s)
  {
    var next := ms[i := tx];
    assert s.members[i] == next[i] == tx;
    assert forall j | 0 <= j < |ms| && j != i :: next[j] == ms[j];
  }

  lemma {:induction false} SweepFromShape(ms: seq<Transaction>, p: Provider, call: Call, i: nat,
                                          called: (Transaction, Transaction, bool) -> bool)
    requires i <= |ms|
    requires forall tx, q {:trigger TransactionSpec.Apply(tx, q, call)} ::
               called(tx, TransactionSpec.Apply(tx, q, call).tx, TransactionSpec.Apply(tx, q, call).raised.Some?)
    ensures Shaped(ms, called, i, SweepFrom(ms, p, call, i))
    decreases |ms| - i
  {
    if i < |ms| {
      var o := TransactionSpec.Apply(ms[i], p, call);
      SweepStep(ms, p, call, i, o);
      if o.raised.None? {
        SweepFromShape(ms[i := o.tx], o.provider, call, i + 1, called);
        ShapedCons(ms, called, i, o.tx, SweepFrom(ms, p, call, i));
      }
    }
  }

  lemma SweepShape(ms: seq<Transaction>, p: Provider, call: Call)
    ensures Shaped(ms, (before, after, raised) => AfterCall(before, after, call, raised), 0, SweepFrom(ms, p, call, 0))
  {
    var called := (before, after, raised) => AfterCall(before, after, call, raised);
    forall tx, q
      ensures called(tx, TransactionSpec.Apply(tx, q, call).tx, TransactionSpec.Apply(tx, q, call).raised.Some?)
    {
      var o := TransactionSpec.Apply(tx, q, call);
      assert Answers(tx, q, call, o.tx, o.raised.Some?);
    }
    SweepFromShape(ms, p, call, 0, called);
  }

  lemma SweepStep(ms: seq<Transaction>, p: Provider, call: Call, i: nat, o: Outcome)
    requires i < |ms| && o == TransactionSpec.Apply(ms[i], p, call)
    ensures SweepFrom(ms, p, call, i) ==
              if o.raised.Some? then Sweep(ms[i := o.tx], o.provider, i) else SweepFrom(ms[i := o.tx], o.provider, call, i + 1)
  {
  }

  lemma {:induction false} RollbackShape(ms: seq<Transaction>, p: Provider, i: nat, limit: nat)
    requires i <= limit <= |ms|
    ensures var r := RollbackFrom(ms, p, i, limit).0;
            && (forall j | 0 <= j < |ms| && !(i <= j < limit) :: r[j] == ms[j])
            && (forall j | i <= j < limit :: Closed(ms[j], r[j]))
    decreases limit - i
  {
    if i < limit {
      var o := Rollback(ms[i], p);
      RollbackGrows(ms[i], p);
      RollbackShape(ms[i := o.tx], o.provider, i + 1, limit);
    }
  }

  /** What a rollback, successful or not, leaves of a member. */
  ghost predicate Closed(before: Transaction, after: Transaction) {
    if before.status in {Started, Failed} then after.status in {RolledBack, Failed} else after == before
  }

  lemma CommittedMember(before: Transaction, after: Transaction)
    requires AfterCall(before, after, CallCommit, false)
    ensures before.status == Started && after.status == Committed
  {
    var p :| Answers(before, p, CallCommit, after, false);
    if before.status == Started { CommitGrows(before, p); }
  }

  lemma RefusedMember(before: Transaction, after: Transaction)
    requires AfterCall(before, after, CallCommit, true)
    ensures if before.status == Started then after.status in {RolledBack, Failed} else after == before
  {
    var p :| Answers(before, p, CallCommit, after, true);
    if before.status == Started { CommitGrows(before, p); }
  }

  // ---------- theorems ----------

  /** rollback_all in an open or failed group leaves no member open, whatever the provider does. */
  lemma RollbackAllEndsEveryMember(g: Group, p: Provider)
    requires g.status in {Started, Failed}
    ensures var r := RollbackAll(g, p).group;
            && r.status == RolledBack && |r.members| == |g.members|
            && forall j | 0 <= j < |g.members| :: Closed(g.members[j], r.members[j]) && r.members[j].status != Started
  {
    RollbackShape(g.members, p, 0, |g.members|);
  }

  /** start_all either opens every member or leaves none open. */
  lemma StartAllOpensAllOrNone(g: Group, p: Provider)
    requires g.status == NotStarted
    ensures var r := StartAll(g, p);
            && |r.group.members| == |g.members|
            && (r.raised <==> r.group.status == RolledBack)
            && (!r.raised ==> r.group.status == Started && forall t | t in r.group.members :: t.status == Started)
            && (r.raised ==> forall t | t in r.group.members :: t.status != Started)
  {
    var s := SweepFrom(g.members, p, CallStart, 0);
    SweepShape(g.members, p, CallStart);
    if s.failedAt == |g.members| {
      forall j | 0 <= j < |g.members| ensures s.members[j].status == Started {
        assert AfterCall(g.members[j], s.members[j], CallStart, false);
      }
    } else {
      RollbackAllEndsEveryMember(Group(Started, s.members), s.provider);
    }
  }

  /** The loop that rolls back already committed members after a failure changes nothing. */
  lemma {:induction false} CompensationIsIdle(ms: seq<Transaction>, p: Provider, i: nat, limit: nat)
    requires i <= limit <= |ms|
    requires forall j | i <= j < limit :: ms[j].status == Committed
    ensures RollbackFrom(ms, p, i, limit) == (ms, p)
    decreases limit - i
  {
    if i < limit {
      assert ms[i := ms[i]] == ms;
      CompensationIsIdle(ms, p, i + 1, limit);
    }
  }

  /** If commit_all fails at member k of an open group, exactly the members before k are
      committed, k is not, and those after k are still open. */
  lemma FailedCommitAll(g: Group, p: Provider)
    requires g.status == Started && forall t | t in g.members :: t.status == Started
    requires CommitAll(g, p).raised
    ensures var r := CommitAll(g, p);
            var k := SweepFrom(g.members, p, CallCommit, 0).failedAt;
            && k < |g.members| && r.group.status == Failed && |r.group.members| == |g.members|
            && (forall j | 0 <= j < k :: r.group.members[j].status == Committed)
            && r.group.members[k].status in {RolledBack, Failed}
            && (forall j | k < j < |g.members| :: r.group.members[j] == g.members[j])
  {
    var s := SweepFrom(g.members, p, CallCommit, 0);
    SweepShape(g.members, p, CallCommit);
    forall j | 0 <= j < s.failedAt ensures s.members[j].status == Committed {
      CommittedMember(g.members[j], s.members[j]);
    }
    RefusedMember(g.members[s.failedAt], s.members[s.failedAt]);
    CompensationIsIdle(s.members, s.provider, 0, s.failedAt);
  }

  /** A rollback_all after the failed commit_all ends the rest and keeps what was committed. */
  lemma RollbackAllAfterFailedCommitAll(g: Group, p: Provider, q: Provider)
    requires g.status == Started && forall t | t in g.members :: t.status == Started
    requires CommitAll(g, p).raised
    ensures var k := SweepFrom(g.members, p, CallCommit, 0).failedAt;
            var r := RollbackAll(CommitAll(g, p).group, q).group;
            && r.status == RolledBack && |r.members| == |g.members|
            && (forall j | 0 <= j < k :: r.members[j].status == Committed)
            && (forall j | k <= j < |g.members| :: r.members[j].status in {RolledBack, Failed})
  {
    FailedCommitAll(g, p);
    var c := CommitAll(g, p).group;
    var k := SweepFrom(g.members, p, CallCommit, 0).failedAt;
    RollbackAllEndsEveryMember(c, q);
    RollbackShape(c.members, q, 0, |c.members|);
    forall j | k <= j < |g.members| ensures RollbackAll(c, q).group.members[j].status in {RolledBack, Failed} {
      assert c.members[j].status != NotStarted;
      if j > k { assert c.members[j] == g.members[j] && g.members[j] in g.members; }
      RolledBackStays(c.members[j], RollbackAll(c, q).group.members[j]);
    }
  }

  lemma RolledBackStays(before: Transaction, after: Transaction)
    requires Closed(before, after) && before.status in {Started, RolledBack, Failed}
    ensures after.status in {RolledBack, Failed}
  {
  }

  // ---------- when commit_all is all or nothing ----------

  predicate Faulty(tx: Transaction) { FirstRaising(tx.operations) < |tx.operations| }

  /** The first member with an operation that raises, or the length. */
  function FirstFaulty(ms: seq<Transaction>): (k: nat)
    ensures k <= |ms|
    ensures forall i | 0 <= i < k :: !Faulty(ms[i])
    ensures k < |ms| ==> Faulty(ms[k])
  {
    if ms == [] || Faulty(ms[0]) then 0 else 1 + FirstFaulty(ms[1..])
  }

  ghost predicate AllOrNone(ms: seq<Transaction>) {
    (forall t | t in ms :: t.status == Committed) || (forall t | t in ms :: t.status != Committed)
  }

  /** Open members of a document provider: their handles are on its stack. */
  ghost predicate OpenOn(ms: seq<Transaction>, p: Provider, i: nat)
    requires i <= |ms|
  {
    && p.kind.Document?
    && (forall j | i <= j < |ms| :: ms[j].status == Started && Truthy(ms[j].handle))
    && AllHeld(ms[i..]) <= multiset(p.stack)
  }

  lemma HeldByRest(ms: seq<Transaction>, p: Provider, i: nat)
    requires i < |ms| && OpenOn(ms, p, i)
    ensures ms[i].handle.text in p.stack && AllHeld(ms[i + 1..]) <= multiset(p.stack) - multiset{ms[i].handle.text}
  {
    assert AllHeld(ms[i..]) == Held(ms[i]) + AllHeld(ms[i..][1..]) && ms[i..][1..] == ms[i + 1..];
    assert ms[i].handle.text in AllHeld(ms[i..]);
    assert ms[i].handle.text in multiset(p.stack);
  }

  lemma CommitTakesHandle(tx: Transaction, p: Provider)
    requires p.kind.Document? && tx.status == Started && Truthy(tx.handle) && tx.handle.text in p.stack
    ensures var o := Commit(tx, p);
            && (o.raised.Some? <==> Faulty(tx))
            && (!Faulty(tx) ==> o.provider.kind.Document? && o.provider.stack == RemoveFirst(p.stack, tx.handle.text))
  {
    CommitGrows(tx, p);
  }

  /** Committing an open member without a faulty operation takes its handle off the stack and leaves
      the others open. */
  lemma OpenOnNext(ms: seq<Transaction>, p: Provider, i: nat, o: Outcome)
    requires i < |ms| && OpenOn(ms, p, i) && o == Commit(ms[i], p)
    ensures o.raised.Some? <==> Faulty(ms[i])
    ensures !Faulty(ms[i]) ==> OpenOn(ms[i := o.tx], o.provider, i + 1) && ms[i := o.tx][i + 1..] == ms[i..][1..]
  {
    HeldByRest(ms, p, i);
    CommitTakesHandle(ms[i], p);
    assert ms[i := o.tx][i + 1..] == ms[i + 1..] == ms[i..][1..];
  }

  lemma {:induction false} CommitSweepStopsAtFaulty(ms: seq<Transaction>, p: Provider, i: nat)
    requires i <= |ms| && OpenOn(ms, p, i)
    ensures SweepFrom(ms, p, CallCommit, i).failedAt == i + FirstFaulty(ms[i..])
    decreases |ms| - i
  {
    if i < |ms| {
      var o := Commit(ms[i], p);
      OpenOnNext(ms, p, i, o);
      SweepStep(ms, p, CallCommit, i, o);
      assert ms[i..][0] == ms[i];
      if !Faulty(ms[i]) { CommitSweepStopsAtFaulty(ms[i := o.tx], o.provider, i + 1); }
    }
  }

  /** On the document provider commit_all is all or nothing exactly when no member, or the first
      member, has an operation that raises. */
  lemma CommitAllAtomicIff(g: Group, p: Provider)
    requires g.status == Started && OpenOn(g.members, p, 0)
    ensures AllOrNone(CommitAll(g, p).group.members)
        <==> FirstFaulty(g.members) == 0 || FirstFaulty(g.members) == |g.members|
  {
    var s := SweepFrom(g.members, p, CallCommit, 0);
    assert g.members[0..] == g.members;
    CommitSweepStopsAtFaulty(g.members, p, 0);
    SweepShape(g.members, p, CallCommit);
    forall j | 0 <= j < s.failedAt ensures s.members[j].status == Committed {
      CommittedMember(g.members[j], s.members[j]);
    }
    var r := CommitAll(g, p).group;
    if s.failedAt < |g.members| {
      FailedCommitAll(g, p);
      assert r.members[s.failedAt] in r.members;
      if s.failedAt > 0 { assert r.members[0] in r.members; }
    }
  }

  /** start_all on two new transactions and the empty document provider, and one operation queued on
      the second. */
  function TwoStarted(a: string, b: string, hook: Hook): (Group, Provider) {
    var o := StartAll(Group(NotStarted, [Fresh(a, false), Fresh(b, false)]), EMPTY.provider);
    if o.raised then (o.group, o.provider)
    else
      var queued := TransactionSpec.Apply(o.group.members[1], o.provider, AddOperation(hook));
      (o.group.(members := o.group.members[1 := queued.tx]), queued.provider)
  }

  lemma TwoStartedIs(a: string, b: string, hook: Hook)
    ensures var (g, p) := TwoStarted(a, b, hook);
            && g.status == Started && |g.members| == 2 && p.kind.Document?
            && p.stack == [DocumentHandle(a, 0), DocumentHandle(b, 1)]
            && (forall i | 0 <= i < 2 :: g.members[i].status == Started && g.members[i].handle == Handle(p.stack[i]))
            && g.members[0].operations == [] && g.members[1].operations == [hook]
  {
    var ms, p := [Fresh(a, false), Fresh(b, false)], EMPTY.provider;
    var first := Start(ms[0], p);
    SweepStep(ms, p, CallStart, 0, first);
    var one := ms[0 := first.tx];
    var second := Start(one[1], first.provider);
    SweepStep(one, first.provider, CallStart, 1, second);
    assert [] + [hook] == [hook];
  }

  /** If that operation raises, commit_all commits half of the group. */
  lemma CommitAllIsNotAtomic(a: string, b: string, id: nat)
    ensures var (g, p) := TwoStarted(a, b, Hook(id, true));
            && g.status == Started && OpenOn(g.members, p, 0)
            && CommitAll(g, p).raised && !AllOrNone(CommitAll(g, p).group.members)
  {
    var (g, p) := TwoStarted(a, b, Hook(id, true));
    TwoStartedIs(a, b, Hook(id, true));
    assert g.members == [g.members[0], g.members[1]];
    assert p.stack[0][0] == p.stack[1][0] == 'T';
    HalfCommits(g, p, g.members[0], g.members[1]);
  }

  lemma HalfCommits(g: Group, p: Provider, x: Transaction, y: Transaction)
    requires g.status == Started && g.members == [x, y] && p.kind.Document? && |p.stack| == 2
    requires x.status == y.status == Started && x.handle == Handle(p.stack[0]) && y.handle == Handle(p.stack[1])
    requires p.stack[0] != "" && p.stack[1] != "" && !Faulty(x) && Faulty(y)
    ensures OpenOn(g.members, p, 0) && CommitAll(g, p).raised && !AllOrNone(CommitAll(g, p).group.members)
  {
    TwoOpen(p, x, y);
    SecondIsFaulty(x, y);
    CommitAllAtomicIff(g, p);
    CommitSweepStopsAtFaulty(g.members, p, 0);
    assert g.members[0..] == g.members;
  }

  lemma TwoOpen(p: Provider, x: Transaction, y: Transaction)
    requires p.kind.Document? && |p.stack| == 2 && p.stack[0] != "" && p.stack[1] != ""
    requires x.status == y.status == Started && x.handle == Handle(p.stack[0]) && y.handle == Handle(p.stack[1])
    ensures OpenOn([x, y], p, 0)
  {
    TwoHeld(x, y);
    assert [x, y][0..] == [x, y];
    assert p.stack == [p.stack[0]] + [p.stack[1]];
  }

  lemma SecondIsFaulty(x: Transaction, y: Transaction)
    requires !Faulty(x) && Faulty(y)
    ensures FirstFaulty([x, y]) == 1
  {
    assert [x, y][1..] == [y];
  }

  lemma TwoHeld(a: Transaction, b: Transaction)
    ensures AllHeld([a, b]) == Held(a) + Held(b)
  {
    assert [a, b][1..] == [b];
    assert AllHeld([b]) == Held(b) + AllHeld([b][1..]);
  }
}
