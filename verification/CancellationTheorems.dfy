/** Whole-run theorems about cancellation tokens. */
module CancellationTheorems {
  import opened Common
  import opened CancellationSpec
  import opened CancellationLaws

  // ---------- combine_tokens ----------

  /** register_callback of the check installed by combine_tokens. */
  function RegisterCheck(w: World, s: nat, check: Callback): (r: World)
    requires s < |w.tokens|
    ensures |r.tokens| == |w.tokens|
  {
    if w.tokens[s].cancelled then Call(w, check) else Append(w, s, check)
  }

  function RegisterChecks(w: World, rest: seq<nat>, check: Callback): (r: World)
    requires forall s | s in rest :: s < |w.tokens|
    ensures |r.tokens| == |w.tokens|
    decreases |rest|
  {
    if rest == [] then w
    else
      assert rest[0] in rest && forall s | s in rest[1..] :: s in rest;
      RegisterChecks(RegisterCheck(w, rest[0], check), rest[1..], check)
  }

  function CombineTokens(w: World, sources: seq<nat>): World
    requires forall s | s in sources :: s < |w.tokens|
  {
    var target := |w.tokens|;
    var check := Propagate(sources, target);
    var created := w.(tokens := w.tokens + [FRESH], combos := w.combos + [Combo(sources, target)]);
    Call(RegisterChecks(created, sources, check), check)
  }

  // ---------- runs ----------

  datatype Op =
    | NewToken
    | RegisterOn(token: nat, code: Code)
    | CancelBy(token: nat, reason: Option<string>)
    | CombineOf(sources: seq<nat>)

  function Apply(w: World, op: Op): World {
    match op
    case NewToken => w.(tokens := w.tokens + [FRESH])
    case RegisterOn(t, code) => RegisterCallback(w, t, code)
    case CancelBy(t, reason) => RequestCancel(w, t, reason)
    case CombineOf(sources) =>
      if forall s | s in sources :: s < |w.tokens| then CombineTokens(w, sources) else w
  }

  function Run(w: World, ops: seq<Op>): World
    decreases |ops|
  {
    if ops == [] then w else Run(Apply(w, ops[0]), ops[1..])
  }

  // ---------- between operations ----------

  ghost predicate Quiescent(w: World) {
    && Inv(w)
    && (forall k: nat, s: nat | Feeds(w, s, k) && IsCancelled(w, s) :: IsCancelled(w, w.combos[k].target))
    && (forall t: nat | IsCancelled(w, t) :: w.tokens[t].callbacks == [])
    && (forall d | d in w.direct :: IsCancelled(w, d.0))
    && (forall k: nat :: Copies(w, k) == Issued(w, k))
  }

  lemma KeptQuiescent(w: World, r: World)
    requires Quiescent(w) && Kept(w, r, multiset{})
    ensures Quiescent(r)
  {
    forall k: nat, s: nat | Feeds(r, s, k) && IsCancelled(r, s)
      ensures IsCancelled(r, r.combos[k].target)
    {
      assert Feeds(w, s, k);
      if IsCancelled(w, s) { assert IsCancelled(w, w.combos[k].target); }
    }
    forall d | d in r.direct ensures IsCancelled(r, d.0) {
      if d in w.direct { assert IsCancelled(w, d.0); }
    }
    forall t: nat | IsCancelled(r, t) ensures r.tokens[t].callbacks == [] {
      if IsCancelled(w, t) { assert r.tokens[t] == w.tokens[t]; }
    }
    forall k: nat ensures Copies(r, k) == Issued(r, k) {
      assert Copies(r, k) + Issued(w, k) == Copies(w, k) + multiset{}[k] + Issued(r, k);
    }
  }

  // A token list grown by tokens that carry no user callbacks, and whose other tokens hold the
  // same user callbacks as before.
  ghost predicate SameWaiting(a: seq<Token>, b: seq<Token>) {
    && |a| <= |b|
    && (forall t | 0 <= t < |a| :: Waiting(b[t]) == Waiting(a[t]))
    && (forall t | |a| <= t < |b| :: Waiting(b[t]) == multiset{})
  }

  lemma {:induction false} SameQueued(a: seq<Token>, b: seq<Token>)
    requires SameWaiting(a, b)
    ensures Queued(a) == Queued(b)
  {
    if b != [] {
      if a == [] {
        SameQueued(a, b[1..]);
      } else {
        assert Waiting(b[0]) == Waiting(a[0]);
        SameQueued(a[1..], b[1..]);
      }
    }
  }

  /** How registering the check changes a token other than its target. */
  ghost predicate Carries(before: Token, after: Token, listed: bool, check: Callback) {
    if before.cancelled then after == before
    else
      && !after.cancelled && after.reason == before.reason
      && before.callbacks <= after.callbacks
      && Waiting(after) == Waiting(before)
      && (forall c | c in after.callbacks :: c in before.callbacks || c == check)
      && (listed ==> check in after.callbacks)
  }

  lemma CarriesTrans(a: Token, b: Token, c: Token, m: bool, n: bool, check: Callback)
    requires Carries(a, b, m, check) && Carries(b, c, n, check)
    ensures Carries(a, c, m || n, check)
  {
  }

  /** What the target becomes: cancelled as soon as a listed source is. */
  ghost function TargetAfter(w: World, rest: seq<nat>, check: Callback): Token
    requires check.Propagate? && check.target < |w.tokens|
  {
    var s := FirstCancelled(w, check.sources);
    if !w.tokens[check.target].cancelled && s.Some? && exists u | u in rest :: IsCancelled(w, u)
    then Token(true, [], CombinedReason(w.tokens[s.value].reason))
    else w.tokens[check.target]
  }

  ghost predicate Attached(w: World, r: World, rest: seq<nat>, check: Callback)
    requires check.Propagate? && check.target < |w.tokens|
  {
    && |r.tokens| == |w.tokens|
    && r == w.(tokens := r.tokens)
    && (forall t | 0 <= t < |w.tokens| && t != check.target ::
          Carries(w.tokens[t], r.tokens[t], t in rest, check))
    && r.tokens[check.target] == TargetAfter(w, rest, check)
  }

  lemma {:induction false} FirstCancelledSame(w: World, r: World, sources: seq<nat>)
    requires forall s | s in sources :: IsCancelled(r, s) == IsCancelled(w, s)
    decreases |sources|
    ensures FirstCancelled(r, sources) == FirstCancelled(w, sources)
  {
    if sources != [] { FirstCancelledSame(w, r, sources[1..]); }
  }

  /** The target of a fresh combination has no callbacks yet, so cancelling it cascades no further. */
  lemma CallFreshCheck(w: World, check: Callback)
    requires check.Propagate? && check.target < |w.tokens| && w.tokens[check.target].callbacks == []
    ensures var s := FirstCancelled(w, check.sources);
            Call(w, check) ==
              if s.Some? && !w.tokens[check.target].cancelled
              then w.(tokens := w.tokens[check.target := Token(true, [], CombinedReason(w.tokens[s.value].reason))])
              else w
  {
    var s := FirstCancelled(w, check.sources);
    if s.Some? && !w.tokens[check.target].cancelled {
      var reason := CombinedReason(w.tokens[s.value].reason);
      var marked := Mark(w, check.target, reason);
      assert CallAll(marked, []) == marked;
      assert Clear(marked, check.target).tokens == w.tokens[check.target := Token(true, [], reason)];
    }
  }

  lemma RegisterCheckAttaches(w: World, s: nat, check: Callback)
    requires check.Propagate? && check.target < |w.tokens| && w.tokens[check.target].callbacks == []
    requires check.target !in check.sources && s in check.sources && s < |w.tokens|
    ensures Attached(w, RegisterCheck(w, s, check), [s], check)
  {
    if w.tokens[s].cancelled {
      CallFreshCheck(w, check);
      assert IsCancelled(w, s) && s in [s];
    } else {
      AppendedCarries(w.tokens[s], check);
    }
  }

  lemma AppendedCarries(token: Token, check: Callback)
    requires check.Propagate? && !token.cancelled
    ensures Carries(token, token.(callbacks := token.callbacks + [check]), true, check)
  {
    TicketsAppend(token.callbacks, check);
    assert Tickets(token.callbacks + [check]) == Tickets(token.callbacks);
  }

  lemma {:induction false} ChecksAttached(w: World, rest: seq<nat>, check: Callback)
    requires check.Propagate? && check.target < |w.tokens| && w.tokens[check.target].callbacks == []
    requires check.target !in check.sources
    requires forall s | s in rest :: s in check.sources && s < |w.tokens|
    ensures Attached(w, RegisterChecks(w, rest, check), rest, check)
    decreases |rest|
  {
    if rest != [] {
      assert rest[0] in rest && forall s | s in rest[1..] :: s in rest;
      var first := RegisterCheck(w, rest[0], check);
      RegisterCheckAttaches(w, rest[0], check);
      ChecksAttached(first, rest[1..], check);
      AttachedTrans(w, first, RegisterChecks(first, rest[1..], check), rest, check);
    }
  }

  lemma AttachedTrans(w: World, first: World, r: World, rest: seq<nat>, check: Callback)
    requires check.Propagate? && check.target < |w.tokens| && check.target !in check.sources
    requires rest != [] && forall s | s in rest :: s in check.sources && s < |w.tokens|
    requires Attached(w, first, [rest[0]], check)
    requires Attached(first, r, rest[1..], check)
    ensures Attached(w, r, rest, check)
  {
    forall t | 0 <= t < |w.tokens| && t != check.target
      ensures Carries(w.tokens[t], r.tokens[t], t in rest, check)
    {
      CarriesTrans(w.tokens[t], first.tokens[t], r.tokens[t], t in [rest[0]], t in rest[1..], check);
    }
    forall u: nat | u != check.target ensures IsCancelled(first, u) == IsCancelled(w, u) {
      if u < |w.tokens| { assert Carries(w.tokens[u], first.tokens[u], u in [rest[0]], check); }
    }
    FirstCancelledSame(w, first, check.sources);
    TargetTrans(w, first, rest, check);
  }

  lemma TargetTrans(w: World, first: World, rest: seq<nat>, check: Callback)
    requires check.Propagate? && check.target < |w.tokens| == |first.tokens| && check.target !in check.sources
    requires rest != [] && forall s | s in rest :: s in check.sources && s < |w.tokens|
    requires forall u: nat | u != check.target :: IsCancelled(first, u) == IsCancelled(w, u)
    requires forall u: nat | u != check.target && IsCancelled(w, u) :: first.tokens[u] == w.tokens[u]
    requires FirstCancelled(first, check.sources) == FirstCancelled(w, check.sources)
    requires first.tokens[check.target] == TargetAfter(w, [rest[0]], check)
    ensures TargetAfter(first, rest[1..], check) == TargetAfter(w, rest, check)
  {
    assert rest[0] in [rest[0]];
    if u: nat :| u in rest && IsCancelled(w, u) {
      assert u == rest[0] || u in rest[1..];
    }
    assert forall u | u in rest[1..] :: u in rest;
  }

  lemma CombineQuiescent(w: World, sources: seq<nat>)
    requires Quiescent(w) && forall s | s in sources :: s < |w.tokens|
    ensures Quiescent(CombineTokens(w, sources))
    ensures var r := CombineTokens(w, sources);
            && r.combos == w.combos + [Combo(sources, |w.tokens|)] && r.owner == w.owner && r.ran == w.ran
            && (forall t: nat | IsCancelled(w, t) :: r.tokens[t] == w.tokens[t])
  {
    var target := |w.tokens|;
    var check := Propagate(sources, target);
    var created := w.(tokens := w.tokens + [FRESH], combos := w.combos + [Combo(sources, target)]);
    ChecksAttached(created, sources, check);
    var attached := RegisterChecks(created, sources, check);
    FirstCancelledSame(created, attached, sources);
    CallFreshCheck(attached, check);
    var r := CombineTokens(w, sources);
    assert r == attached;
    CombinedShape(w, r, sources);
  }

  lemma CombinedJustified(w: World, r: World, sources: seq<nat>)
    requires Quiescent(w) && forall s | s in sources :: s < |w.tokens|
    requires var created := w.(tokens := w.tokens + [FRESH], combos := w.combos + [Combo(sources, |w.tokens|)]);
             Attached(created, r, sources, Propagate(sources, |w.tokens|))
    ensures Justified(r)
  {
    CombinedFlags(w, r, sources);
    var created := w.(tokens := w.tokens + [FRESH], combos := w.combos + [Combo(sources, |w.tokens|)]);
    var first := FirstCancelled(created, sources);
    forall t: nat | IsCancelled(r, t) && !IsCancelled(w, t) ensures Backed(r, t, r.tokens[t].reason) {
      assert t == |w.tokens| && first.Some?;
      assert Feeds(r, first.value, |w.combos|) && IsCancelled(r, first.value);
    }
    JustifiedGrows(w, r);
  }

  lemma CombinedShape(w: World, r: World, sources: seq<nat>)
    requires Quiescent(w) && forall s | s in sources :: s < |w.tokens|
    requires var created := w.(tokens := w.tokens + [FRESH], combos := w.combos + [Combo(sources, |w.tokens|)]);
             Attached(created, r, sources, Propagate(sources, |w.tokens|))
    ensures Quiescent(r)
  {
    CombinedFlags(w, r, sources);
    CombinedCallbacks(w, r, sources);
    CombinedJustified(w, r, sources);
    SameQueued(w.tokens, r.tokens);
    forall k: nat ensures Copies(r, k) == Issued(r, k) {
      assert Copies(w, k) == Issued(w, k);
    }
  }

  lemma CombinedFlags(w: World, r: World, sources: seq<nat>)
    requires Quiescent(w) && forall s | s in sources :: s < |w.tokens|
    requires var created := w.(tokens := w.tokens + [FRESH], combos := w.combos + [Combo(sources, |w.tokens|)]);
             Attached(created, r, sources, Propagate(sources, |w.tokens|))
    ensures Wired(r)
    ensures forall t: nat | t < |w.tokens| :: IsCancelled(r, t) == IsCancelled(w, t)
    ensures forall t: nat | IsCancelled(w, t) :: r.tokens[t] == w.tokens[t]
    ensures forall k: nat, s: nat | Feeds(r, s, k) && IsCancelled(r, s) :: IsCancelled(r, r.combos[k].target)
  {
    var check := Propagate(sources, |w.tokens|);
    var created := w.(tokens := w.tokens + [FRESH], combos := w.combos + [Combo(sources, |w.tokens|)]);
    forall t: nat | t < |w.tokens|
      ensures created.tokens[t] == w.tokens[t] && IsCancelled(r, t) == IsCancelled(w, t)
      ensures Carries(w.tokens[t], r.tokens[t], t in sources, check)
    {
      assert Carries(created.tokens[t], r.tokens[t], t in sources, check);
    }
    forall k: nat, s: nat | Feeds(r, s, k)
      ensures && s < r.combos[k].target < |r.tokens|
              && (!r.tokens[s].cancelled ==>
                    Propagate(r.combos[k].sources, r.combos[k].target) in r.tokens[s].callbacks)
              && (IsCancelled(r, s) ==> IsCancelled(r, r.combos[k].target))
    {
      if k < |w.combos| {
        assert Feeds(w, s, k) && s < |w.tokens|;
        assert Carries(w.tokens[s], r.tokens[s], s in sources, check);
      } else {
        assert s in sources && IsCancelled(created, s) == IsCancelled(r, s);
      }
    }
  }

  lemma CombinedCallbacks(w: World, r: World, sources: seq<nat>)
    requires Quiescent(w) && forall s | s in sources :: s < |w.tokens|
    requires var created := w.(tokens := w.tokens + [FRESH], combos := w.combos + [Combo(sources, |w.tokens|)]);
             Attached(created, r, sources, Propagate(sources, |w.tokens|))
    ensures Owned(r) && SameWaiting(w.tokens, r.tokens)
    ensures forall t: nat | t < |r.tokens| :: Genuine(r, r.tokens[t].callbacks)
    ensures forall t: nat | IsCancelled(r, t) :: r.tokens[t].callbacks == []
  {
    var target := |w.tokens|;
    var check := Propagate(sources, target);
    var created := w.(tokens := w.tokens + [FRESH], combos := w.combos + [Combo(sources, target)]);
    forall t: nat | t < target
      ensures created.tokens[t] == w.tokens[t] && Carries(w.tokens[t], r.tokens[t], t in sources, check)
    {
      assert Carries(created.tokens[t], r.tokens[t], t in sources, check);
    }
    assert Combo(sources, target) in r.combos by { assert r.combos[|w.combos|] == Combo(sources, target); }
    assert forall c | c in w.combos :: c in r.combos;
    forall t: nat | t < |r.tokens| ensures Genuine(r, r.tokens[t].callbacks) {
      if t < target { assert Genuine(w, w.tokens[t].callbacks); }
    }
    forall t: nat, cb | t < |r.tokens| && cb in r.tokens[t].callbacks && cb.User?
      ensures cb.ticket < |r.owner| && r.owner[cb.ticket] == t
    {
      assert t < target;
      assert cb in w.tokens[t].callbacks;
    }
  }

  lemma NewTokenQuiescent(w: World)
    requires Quiescent(w)
    ensures Quiescent(Apply(w, NewToken))
  {
    var r := Apply(w, NewToken);
    assert forall t: nat | t < |w.tokens| :: r.tokens[t] == w.tokens[t];
    assert forall t: nat :: IsCancelled(r, t) == IsCancelled(w, t);
    assert forall k: nat, s: nat :: Feeds(r, s, k) == Feeds(w, s, k);
    assert Justified(r) by { JustifiedGrows(w, r); }
    assert Owned(r) by {
      forall t: nat, cb | t < |r.tokens| && cb in r.tokens[t].callbacks && cb.User?
        ensures cb.ticket < |r.owner| && r.owner[cb.ticket] == t
      {
        assert t < |w.tokens| && cb in w.tokens[t].callbacks;
      }
    }
    forall t: nat | t < |r.tokens| ensures Genuine(r, r.tokens[t].callbacks) {
      if t < |w.tokens| { assert Genuine(w, w.tokens[t].callbacks); }
    }
    forall k: nat ensures Copies(r, k) == Issued(r, k) {
      SameQueued(w.tokens, r.tokens);
      assert Copies(w, k) == Issued(w, k);
    }
  }

  lemma ApplyQuiescent(w: World, op: Op)
    requires Quiescent(w)
    ensures Quiescent(Apply(w, op))
    ensures forall t: nat | IsCancelled(w, t) :: IsCancelled(Apply(w, op), t) && Apply(w, op).tokens[t] == w.tokens[t]
  {
    match op
    case NewToken => NewTokenQuiescent(w);
    case RegisterOn(t, code) =>
      RegisterCallbackKeeps(w, t, code);
      KeptQuiescent(w, Apply(w, op));
    case CancelBy(t, reason) =>
      RequestCancelKeeps(w, t, reason);
      KeptQuiescent(w, Apply(w, op));
    case CombineOf(sources) =>
      if forall s | s in sources :: s < |w.tokens| { CombineQuiescent(w, sources); }
  }

  lemma {:induction false} RunQuiescent(w: World, ops: seq<Op>)
    requires Quiescent(w)
    ensures Quiescent(Run(w, ops))
    ensures forall t: nat | IsCancelled(w, t) :: IsCancelled(Run(w, ops), t) && Run(w, ops).tokens[t] == w.tokens[t]
    decreases |ops|
  {
    if ops != [] {
      ApplyQuiescent(w, ops[0]);
      RunQuiescent(Apply(w, ops[0]), ops[1..]);
    }
  }

  lemma EmptyQuiescent()
    ensures Quiescent(EMPTY)
  {
    assert forall k: nat, s: nat :: !Feeds(EMPTY, s, k);
  }

  // ---------- theorems ----------

  ghost predicate Requested(w: World, t: nat) { exists d | d in w.direct :: d.0 == t }

  /** t was cancelled by a caller, or is a combination of a token in the closure. */
  ghost predicate InClosure(w: World, t: nat) {
    || Requested(w, t)
    || exists k: nat, s: nat :: Feeds(w, s, k) && w.combos[k].target == t && s < t && InClosure(w, s)
  }

  lemma {:induction false} CancelledInClosure(w: World, t: nat)
    requires Quiescent(w) && IsCancelled(w, t)
    ensures InClosure(w, t)
  {
    assert Backed(w, t, w.tokens[t].reason);
    if (t, w.tokens[t].reason) !in w.direct {
      var k: nat, s: nat :| Feeds(w, s, k) && w.combos[k].target == t && IsCancelled(w, s);
      CancelledInClosure(w, s);
    }
  }

  lemma {:induction false} ClosureIsCancelled(w: World, t: nat)
    requires Quiescent(w) && InClosure(w, t)
    ensures IsCancelled(w, t)
  {
    if !Requested(w, t) {
      var k: nat, s: nat :| Feeds(w, s, k) && w.combos[k].target == t && s < t && InClosure(w, s);
      ClosureIsCancelled(w, s);
    }
  }

  /** After any run the cancelled tokens are exactly the forward closure of the tokens that
      callers cancelled: combining never misses a target and never reaches back to a source. */
  lemma CancelledIsForwardClosure(ops: seq<Op>, t: nat)
    ensures IsCancelled(Run(EMPTY, ops), t) <==> InClosure(Run(EMPTY, ops), t)
  {
    EmptyQuiescent();
    RunQuiescent(EMPTY, ops);
    var w := Run(EMPTY, ops);
    if IsCancelled(w, t) { CancelledInClosure(w, t); }
    if InClosure(w, t) { ClosureIsCancelled(w, t); }
  }

  /** After any run each registration was called exactly once if its token is cancelled and not
      at all otherwise, whatever the callbacks themselves register, cancel or raise. */
  lemma CalledExactlyOnce(ops: seq<Op>, k: nat)
    requires k < |Run(EMPTY, ops).owner|
    ensures var w := Run(EMPTY, ops);
            multiset(w.ran)[k] == if IsCancelled(w, w.owner[k]) then 1 else 0
  {
    EmptyQuiescent();
    RunQuiescent(EMPTY, ops);
    var w := Run(EMPTY, ops);
    assert Copies(w, k) == Issued(w, k) == 1;
    if IsCancelled(w, w.owner[k]) {
      if Queued(w.tokens)[k] > 0 {
        var t := QueuedWhere(w.tokens, k);
        TicketHolder(w.tokens[t].callbacks, k);
      }
    } else if k in w.ran {
      assert false;
    }
  }

  lemma {:induction false} QueuedWhere(tokens: seq<Token>, k: nat) returns (t: nat)
    requires Queued(tokens)[k] > 0
    ensures t < |tokens| && !tokens[t].cancelled && k in Tickets(tokens[t].callbacks)
  {
    assert Queued(tokens)[k] == Waiting(tokens[0])[k] + Queued(tokens[1..])[k];
    if Waiting(tokens[0])[k] > 0 {
      t := 0;
      assert k in multiset(Tickets(tokens[0].callbacks));
    } else {
      t := QueuedWhere(tokens[1..], k);
      t := t + 1;
    }
  }

  lemma {:induction false} TicketHolder(cbs: seq<Callback>, k: nat)
    requires k in Tickets(cbs)
    ensures exists cb :: cb in cbs && cb.User? && cb.ticket == k
  {
    if cbs[0].User? && cbs[0].ticket == k {
      assert cbs[0] in cbs;
    } else {
      TicketHolder(cbs[1..], k);
      var cb :| cb in cbs[1..] && cb.User? && cb.ticket == k;
      assert cb in cbs;
    }
  }

  /** Once cancelled, a token keeps its first reason through everything that follows, and that
      reason was given by a caller or derived from a cancelled source. */
  lemma FirstReasonSticks(ops: seq<Op>, more: seq<Op>, t: nat)
    requires IsCancelled(Run(EMPTY, ops), t)
    ensures var w, r := Run(EMPTY, ops), Run(Run(EMPTY, ops), more);
            IsCancelled(r, t) && r.tokens[t].reason == w.tokens[t].reason && Backed(w, t, w.tokens[t].reason)
  {
    EmptyQuiescent();
    RunQuiescent(EMPTY, ops);
    RunQuiescent(Run(EMPTY, ops), more);
  }

  // ---------- order of the calls ----------

  /** The entries of s that are in `keep`, in order. */
  ghost function Restrict(s: seq<nat>, keep: set<nat>): seq<nat> {
    if s == [] then [] else (if s[0] in keep then [s[0]] else []) + Restrict(s[1..], keep)
  }

  ghost function Count(s: seq<nat>, k: nat): nat { multiset(s)[k] }

  lemma {:induction false} RestrictConcat(a: seq<nat>, b: seq<nat>, keep: set<nat>)
    ensures Restrict(a + b, keep) == Restrict(a, keep) + Restrict(b, keep)
  {
    if a == [] {
      assert a + b == b;
    } else {
      assert (a + b)[1..] == a[1..] + b && (a + b)[0] == a[0];
      RestrictConcat(a[1..], b, keep);
      var head := if a[0] in keep then [a[0]] else [];
      assert head + (Restrict(a[1..], keep) + Restrict(b, keep)) == (head + Restrict(a[1..], keep)) + Restrict(b, keep);
    }
  }

  lemma {:induction false} RestrictNone(s: seq<nat>, keep: set<nat>)
    requires forall k | k in keep :: k !in s
    ensures Restrict(s, keep) == []
  {
    if s != [] { RestrictNone(s[1..], keep); }
  }

  lemma {:induction false} RestrictOne(s: seq<nat>, keep: set<nat>, x: nat)
    requires x in keep && Count(s, x) == 1
    requires forall k | k in keep && k != x :: k !in s
    ensures Restrict(s, keep) == [x]
  {
    assert s == [s[0]] + s[1..];
    assert multiset(s) == multiset{s[0]} + multiset(s[1..]);
    if s[0] == x {
      assert x !in multiset(s[1..]);
      RestrictNone(s[1..], keep);
    } else {
      RestrictOne(s[1..], keep, x);
    }
  }

  /** `keep` are tickets already taken off every live token. */
  ghost predicate TakenOff(w: World, keep: set<nat>) {
    forall k | k in keep :: k < |w.owner| && Queued(w.tokens)[k] == 0
  }

  lemma SegmentCount(w: World, r: World, work: multiset<nat>, k: nat)
    requires Kept(w, r, work) && k < |w.owner| && Queued(w.tokens)[k] == 0
    ensures Count(r.ran[|w.ran|..], k) + Queued(r.tokens)[k] == work[k]
  {
    assert r.ran == w.ran + r.ran[|w.ran|..];
    assert multiset(r.ran)[k] == multiset(w.ran)[k] + multiset(r.ran[|w.ran|..])[k];
    assert Copies(r, k) + Issued(w, k) == Copies(w, k) + work[k] + Issued(r, k);
  }

  lemma UserCallRunsFirst(w: World, cb: Callback)
    requires cb.User?
    ensures w.ran + [cb.ticket] <= Call(w, cb).ran
  {
    assert Call(w, cb) == DoAll(w.(ran := w.ran + [cb.ticket]), cb.code.actions);
  }

  lemma CallInOrder(w: World, cb: Callback, keep: set<nat>)
    requires Inv(w) && Callable(w, [cb]) && TakenOff(w, keep)
    requires cb.User? ==> cb.ticket in keep
    ensures TakenOff(Call(w, cb), keep)
    ensures Restrict(Call(w, cb).ran[|w.ran|..], keep) == Tickets([cb])
  {
    var r := Call(w, cb);
    var segment := r.ran[|w.ran|..];
    assert Tickets([cb]) == if cb.User? then [cb.ticket] else [];
    forall k | k in keep
      ensures Count(segment, k) + Queued(r.tokens)[k] == if cb.User? && cb.ticket == k then 1 else 0
      ensures k < |r.owner|
    {
      CallKeeps(w, cb);
      SegmentCount(w, r, multiset(Tickets([cb])), k);
    }
    if cb.User? { UserCallRunsFirst(w, cb); }
    InOrderStep(segment, keep, cb, r);
  }

  lemma InOrderStep(segment: seq<nat>, keep: set<nat>, cb: Callback, r: World)
    requires forall k | k in keep ::
               Count(segment, k) + Queued(r.tokens)[k] == if cb.User? && cb.ticket == k then 1 else 0
    requires cb.User? ==> segment != [] && segment[0] == cb.ticket && cb.ticket in keep
    ensures forall k | k in keep :: Queued(r.tokens)[k] == 0
    ensures Restrict(segment, keep) == if cb.User? then [cb.ticket] else []
  {
    forall k | k in keep && !(cb.User? && cb.ticket == k)
      ensures k !in segment && Queued(r.tokens)[k] == 0
    {
      assert Count(segment, k) == 0;
    }
    if cb.User? {
      assert cb.ticket in multiset(segment);
      RestrictOne(segment, keep, cb.ticket);
    } else {
      RestrictNone(segment, keep);
    }
  }

  lemma {:induction false} CallAllInOrder(w: World, cbs: seq<Callback>, keep: set<nat>)
    requires Inv(w) && Callable(w, cbs) && TakenOff(w, keep)
    requires forall cb | cb in cbs && cb.User? :: cb.ticket in keep
    ensures Restrict(CallAll(w, cbs).ran[|w.ran|..], keep) == Tickets(cbs)
    decreases |cbs|
  {
    if cbs != [] {
      var first := Call(w, cbs[0]);
      CallInOrder(w, cbs[0], keep);
      assert Inv(first) by { CallKeeps(w, cbs[0]); }
      CallableLater(w, first, cbs[1..]);
      CallAllInOrder(first, cbs[1..], keep);
      SplitSegment(w.ran, first.ran, CallAll(first, cbs[1..]).ran, keep);
      assert Tickets([cbs[0]]) == if cbs[0].User? then [cbs[0].ticket] else [];
    }
  }

  lemma SplitSegment(a: seq<nat>, b: seq<nat>, c: seq<nat>, keep: set<nat>)
    requires a <= b <= c
    ensures Restrict(c[|a|..], keep) == Restrict(b[|a|..], keep) + Restrict(c[|b|..], keep)
  {
    assert c[|a|..] == b[|a|..] + c[|b|..];
    RestrictConcat(b[|a|..], c[|b|..], keep);
  }

  ghost function TicketSet(cbs: seq<Callback>): set<nat> { set k | k in Tickets(cbs) }

  lemma {:induction false} TicketsCover(cbs: seq<Callback>)
    ensures forall cb | cb in cbs && cb.User? :: cb.ticket in Tickets(cbs)
  {
    if cbs != [] { TicketsCover(cbs[1..]); }
  }

  /** A cancelled token calls its own user callbacks in registration order, with nothing of its
      own left out or repeated, whatever else the cascade runs in between. */
  lemma CancelCallsInOrder(ops: seq<Op>, t: nat, reason: Option<string>)
    requires t in Live(Run(EMPTY, ops))
    ensures var w := Run(EMPTY, ops);
            var own := w.tokens[t].callbacks;
            Restrict(RequestCancel(w, t, reason).ran[|w.ran|..], TicketSet(own)) == Tickets(own)
  {
    EmptyQuiescent();
    RunQuiescent(EMPTY, ops);
    QuiescentCancelInOrder(Run(EMPTY, ops), t, reason);
  }

  lemma QuiescentCancelInOrder(w: World, t: nat, reason: Option<string>)
    requires Quiescent(w) && t in Live(w)
    ensures var own := w.tokens[t].callbacks;
            Restrict(RequestCancel(w, t, reason).ran[|w.ran|..], TicketSet(own)) == Tickets(own)
  {
    var own := w.tokens[t].callbacks;
    var asked := w.(direct := w.direct + {(t, reason)});
    SameTokens(w, asked);
    MarkKeeps(asked, t, reason);
    var marked := Mark(asked, t, reason);
    forall k | k in TicketSet(own) ensures k < |marked.owner| && Queued(marked.tokens)[k] == 0 {
      TicketHolder(own, k);
      OwnTicketTaken(w, t, k, Queued(marked.tokens)[k]);
    }
    TicketsCover(own);
    CallAllInOrder(marked, own, TicketSet(own));
  }

  lemma OwnTicketTaken(w: World, t: nat, k: nat, left: nat)
    requires Quiescent(w) && t in Live(w) && k in Tickets(w.tokens[t].callbacks)
    requires left + multiset(Tickets(w.tokens[t].callbacks))[k] == Queued(w.tokens)[k]
    ensures left == 0
  {
    assert k in multiset(Tickets(w.tokens[t].callbacks));
    assert Copies(w, k) == Issued(w, k);
  }
}
