/**
  What the cancel cascade guarantees, over every run of token creations, combinations,
  registrations and cancellations, with user callbacks that register more callbacks, cancel
  other tokens and raise.
 */
module CancellationLaws {
  import opened Common
  import opened CancellationSpec

  // ---------- the invariant that holds even in the middle of a cascade ----------

  /** Token s is a source of combined token number k. */
  predicate Feeds(w: World, s: nat, k: nat) { k < |w.combos| && s in w.combos[k].sources }

  /** Every live source of a combined token still carries the check for it. */
  ghost predicate Wired(w: World) {
    && (forall k: nat | k < |w.combos| :: w.combos[k].target < |w.tokens|)
    && (forall k: nat, s: nat | Feeds(w, s, k) ::
          && s < w.combos[k].target < |w.tokens|
          && (!w.tokens[s].cancelled ==>
                Propagate(w.combos[k].sources, w.combos[k].target) in w.tokens[s].callbacks))
  }

  /** Checks come from combine_tokens only. */
  ghost predicate Genuine(w: World, cbs: seq<Callback>) {
    forall cb | cb in cbs && cb.Propagate? :: Combo(cb.sources, cb.target) in w.combos
  }

  /** A caller gave token t this reason, or a cancelled source of t did. */
  ghost predicate Backed(w: World, t: nat, reason: Option<string>) {
    || (t, reason) in w.direct
    || exists k: nat, s: nat :: && Feeds(w, s, k) && w.combos[k].target == t && IsCancelled(w, s)
                      && reason == CombinedReason(w.tokens[s].reason)
  }

  ghost predicate Justified(w: World) {
    forall t: nat | IsCancelled(w, t) :: Backed(w, t, w.tokens[t].reason)
  }

  /** A queued user callback sits on the token it was registered on. */
  ghost predicate Owned(w: World) {
    && (forall t: nat, cb | t < |w.tokens| && cb in w.tokens[t].callbacks && cb.User? ::
          cb.ticket < |w.owner| && w.owner[cb.ticket] == t)
    && (forall k | k in w.ran :: k < |w.owner| && IsCancelled(w, w.owner[k]))
    && (forall k: nat | k < |w.owner| :: w.owner[k] < |w.tokens|)
  }

  ghost predicate Inv(w: World) {
    && Wired(w)
    && (forall t: nat | t < |w.tokens| :: Genuine(w, w.tokens[t].callbacks))
    && Justified(w)
    && Owned(w)
  }

  // ---------- counting user callbacks ----------

  ghost function Tickets(cbs: seq<Callback>): seq<nat> {
    if cbs == [] then []
    else (if cbs[0].User? then [cbs[0].ticket] else []) + Tickets(cbs[1..])
  }

  ghost function Waiting(token: Token): multiset<nat> {
    if token.cancelled then multiset{} else multiset(Tickets(token.callbacks))
  }

  /** Tickets of the callbacks that live tokens still hold. */
  ghost function Queued(tokens: seq<Token>): multiset<nat> {
    if tokens == [] then multiset{} else Waiting(tokens[0]) + Queued(tokens[1..])
  }

  ghost function Copies(w: World, k: nat): nat { multiset(w.ran)[k] + Queued(w.tokens)[k] }

  ghost function Issued(w: World, k: nat): nat { if k < |w.owner| then 1 else 0 }

  /** Between w and r the callbacks `work` were handed over and nothing else appeared or vanished. */
  ghost predicate Balanced(w: World, r: World, work: multiset<nat>) {
    forall k: nat :: Copies(r, k) + Issued(w, k) == Copies(w, k) + work[k] + Issued(r, k)
  }

  /** Every token that became cancelled between w and r passed that on. */
  ghost predicate Spread(w: World, r: World)
    requires |r.tokens| == |w.tokens| && r.combos == w.combos && Wired(w)
  {
    forall k: nat, s: nat | Feeds(w, s, k) && !IsCancelled(w, s) && IsCancelled(r, s) ::
      IsCancelled(r, w.combos[k].target)
  }

  /** Cancellations requested between w and r took effect. */
  ghost predicate Obeyed(w: World, r: World) {
    forall d | d in r.direct && d !in w.direct :: IsCancelled(r, d.0)
  }

  ghost predicate Kept(w: World, r: World, work: multiset<nat>) {
    && Later(w, r) && Inv(w) && Inv(r) && Spread(w, r) && Obeyed(w, r) && Balanced(w, r, work)
  }

  /** The callbacks belong to tokens that are already cancelled. */
  ghost predicate Callable(w: World, cbs: seq<Callback>) {
    && Genuine(w, cbs)
    && forall cb | cb in cbs && cb.User? :: cb.ticket < |w.owner| && IsCancelled(w, w.owner[cb.ticket])
  }

  lemma KeptTrans(a: World, b: World, c: World, m: multiset<nat>, n: multiset<nat>)
    requires Kept(a, b, m) && Kept(b, c, n)
    ensures Kept(a, c, m + n)
  {
    LaterTrans(a, b, c);
    forall k: nat, s: nat | Feeds(a, s, k) && !IsCancelled(a, s) && IsCancelled(c, s)
      ensures IsCancelled(c, a.combos[k].target)
    {
      assert Feeds(b, s, k);
      if IsCancelled(b, s) { assert IsCancelled(b, a.combos[k].target); }
    }
    forall d | d in c.direct && d !in a.direct ensures IsCancelled(c, d.0) {
      if d in b.direct { assert IsCancelled(b, d.0); }
    }
    forall k: nat ensures Copies(c, k) + Issued(a, k) == Copies(a, k) + (m + n)[k] + Issued(c, k) {
      assert Copies(b, k) + Issued(a, k) == Copies(a, k) + m[k] + Issued(b, k);
      assert Copies(c, k) + Issued(b, k) == Copies(b, k) + n[k] + Issued(c, k);
    }
  }

  lemma CallableLater(w: World, r: World, cbs: seq<Callback>)
    requires Callable(w, cbs) && Later(w, r)
    ensures Callable(r, cbs)
  {
    forall cb | cb in cbs && cb.User?
      ensures cb.ticket < |r.owner| && IsCancelled(r, r.owner[cb.ticket])
    {
      assert r.owner[cb.ticket] == w.owner[cb.ticket];
    }
  }

  /** Backing survives when cancelled tokens keep their reasons and the history grows. */
  lemma BackedGrows(w: World, r: World, t: nat, reason: Option<string>)
    requires Backed(w, t, reason) && w.combos <= r.combos && w.direct <= r.direct
    requires forall u: nat | IsCancelled(w, u) :: IsCancelled(r, u) && r.tokens[u].reason == w.tokens[u].reason
    ensures Backed(r, t, reason)
  {
    if (t, reason) !in w.direct {
      var k: nat, s: nat :| Feeds(w, s, k) && w.combos[k].target == t && IsCancelled(w, s)
                            && reason == CombinedReason(w.tokens[s].reason);
      assert IsCancelled(r, s) && Feeds(r, s, k);
    }
  }

  lemma JustifiedGrows(w: World, r: World)
    requires Justified(w) && w.combos <= r.combos && w.direct <= r.direct
    requires forall u: nat | IsCancelled(w, u) :: IsCancelled(r, u) && r.tokens[u].reason == w.tokens[u].reason
    requires forall t: nat | IsCancelled(r, t) && !IsCancelled(w, t) ::
               Backed(w, t, r.tokens[t].reason) || Backed(r, t, r.tokens[t].reason)
    ensures Justified(r)
  {
    forall t: nat | IsCancelled(r, t) ensures Backed(r, t, r.tokens[t].reason) {
      if !Backed(r, t, r.tokens[t].reason) {
        BackedGrows(w, r, t, r.tokens[t].reason);
      }
    }
  }

  lemma GenuineSame(w: World, r: World)
    requires forall t: nat | t < |w.tokens| :: Genuine(w, w.tokens[t].callbacks)
    requires |r.tokens| == |w.tokens| && r.combos == w.combos
    requires forall t: nat | t < |w.tokens| :: r.tokens[t].callbacks == w.tokens[t].callbacks || r.tokens[t].callbacks == []
    ensures forall t: nat | t < |r.tokens| :: Genuine(r, r.tokens[t].callbacks)
  {
    forall t: nat | t < |r.tokens| ensures Genuine(r, r.tokens[t].callbacks) {
      assert Genuine(w, w.tokens[t].callbacks);
    }
  }

  lemma OwnedSame(w: World, r: World)
    requires Owned(w)
    requires |r.tokens| == |w.tokens| && r.owner == w.owner && r.ran == w.ran
    requires forall t: nat | t < |w.tokens| :: r.tokens[t].callbacks == w.tokens[t].callbacks || r.tokens[t].callbacks == []
    requires forall t: nat | IsCancelled(w, t) :: IsCancelled(r, t)
    ensures Owned(r)
  {
    forall t: nat, cb | t < |r.tokens| && cb in r.tokens[t].callbacks && cb.User?
      ensures cb.ticket < |r.owner| && r.owner[cb.ticket] == t
    {
      assert cb in w.tokens[t].callbacks;
    }
  }

  lemma WiredSame(w: World, r: World)
    requires Wired(w)
    requires |r.tokens| == |w.tokens| && r.combos == w.combos
    requires forall t: nat | t < |w.tokens| && !r.tokens[t].cancelled ::
               !w.tokens[t].cancelled && w.tokens[t].callbacks <= r.tokens[t].callbacks
    ensures Wired(r)
  {
    forall k: nat, s: nat | Feeds(r, s, k)
      ensures && s < r.combos[k].target < |r.tokens|
              && (!r.tokens[s].cancelled ==>
                    Propagate(r.combos[k].sources, r.combos[k].target) in r.tokens[s].callbacks)
    {
      assert Feeds(w, s, k);
    }
  }

  lemma {:induction false} QueuedUpdate(tokens: seq<Token>, t: nat, token: Token)
    requires t < |tokens|
    ensures forall k: nat ::
              Queued(tokens[t := token])[k] + Waiting(tokens[t])[k] == Queued(tokens)[k] + Waiting(token)[k]
  {
    if t == 0 {
      assert tokens[t := token][1..] == tokens[1..];
    } else {
      assert tokens[t := token][1..] == tokens[1..][t - 1 := token];
      QueuedUpdate(tokens[1..], t - 1, token);
    }
  }

  lemma {:induction false} TicketsAppend(cbs: seq<Callback>, cb: Callback)
    ensures Tickets(cbs + [cb]) == Tickets(cbs) + if cb.User? then [cb.ticket] else []
  {
    if cbs == [] {
      assert cbs + [cb] == [cb];
      assert Tickets([cb][1..]) == [];
    } else {
      assert (cbs + [cb])[1..] == cbs[1..] + [cb];
      TicketsAppend(cbs[1..], cb);
      var head := if cbs[0].User? then [cbs[0].ticket] else [];
      assert Tickets(cbs + [cb]) == head + Tickets(cbs[1..] + [cb]);
    }
  }

  // ---------- each piece of the cascade keeps the invariant ----------

  lemma MarkKeeps(w: World, t: nat, reason: Option<string>)
    requires Inv(w) && t in Live(w) && Backed(w, t, reason)
    ensures var r := Mark(w, t, reason);
            && Inv(r) && Callable(r, w.tokens[t].callbacks)
            && forall k: nat :: Queued(r.tokens)[k] + multiset(Tickets(w.tokens[t].callbacks))[k] == Queued(w.tokens)[k]
  {
    var r := Mark(w, t, reason);
    QueuedUpdate(w.tokens, t, r.tokens[t]);
    assert Inv(r) by {
      JustifiedGrows(w, r);
      GenuineSame(w, r);
      OwnedSame(w, r);
      WiredSame(w, r);
    }
    assert Genuine(w, w.tokens[t].callbacks);
  }

  lemma ClearKeeps(w: World, t: nat)
    requires Inv(w) && IsCancelled(w, t)
    ensures var r := Clear(w, t);
            Inv(r) && Queued(r.tokens) == Queued(w.tokens) && Live(r) == Live(w)
  {
    var r := Clear(w, t);
    QueuedUpdate(w.tokens, t, r.tokens[t]);
    assert forall u: nat :: IsCancelled(r, u) == IsCancelled(w, u);
    JustifiedGrows(w, r);
    GenuineSame(w, r);
    OwnedSame(w, r);
    WiredSame(w, r);
  }

  lemma CancelSpreads(w: World, t: nat, reason: Option<string>)
    requires Wired(w) && t in Live(w)
    requires var marked := Mark(w, t, reason); var called := CallAll(marked, w.tokens[t].callbacks);
             && Wired(marked) && Spread(marked, called)
             && forall cb, s: nat | cb in w.tokens[t].callbacks && cb.Propagate? && s in cb.sources && IsCancelled(marked, s) ::
                  IsCancelled(called, cb.target)
    ensures Spread(w, CancelToken(w, t, reason))
  {
    var cbs := w.tokens[t].callbacks;
    var marked := Mark(w, t, reason);
    var called := CallAll(marked, cbs);
    var r := CancelToken(w, t, reason);
    forall k: nat, s: nat | Feeds(w, s, k) && !IsCancelled(w, s) && IsCancelled(r, s)
      ensures IsCancelled(r, w.combos[k].target)
    {
      assert Feeds(marked, s, k);
      if s == t {
        assert Propagate(w.combos[k].sources, w.combos[k].target) in cbs;
        assert IsCancelled(marked, s);
      } else {
        assert !IsCancelled(marked, s) && IsCancelled(called, s);
      }
      assert IsCancelled(called, w.combos[k].target);
    }
  }

  lemma {:induction false} CancelTokenKeeps(w: World, t: nat, reason: Option<string>)
    requires Inv(w) && (t in Live(w) ==> Backed(w, t, reason))
    ensures Kept(w, CancelToken(w, t, reason), multiset{})
    decreases Live(w), 0
  {
    if t in Live(w) {
      MarkKeeps(w, t, reason);
      var marked := Mark(w, t, reason);
      assert t !in Live(marked);
      CallAllKeeps(marked, w.tokens[t].callbacks);
      DrainKeeps(w, t, reason);
    }
  }

  /** Calling everything the token held, then clearing its list. */
  lemma DrainKeeps(w: World, t: nat, reason: Option<string>)
    requires Inv(w) && t in Live(w)
    requires var cbs, marked := w.tokens[t].callbacks, Mark(w, t, reason);
             && (forall k: nat :: Queued(marked.tokens)[k] + multiset(Tickets(cbs))[k] == Queued(w.tokens)[k])
             && Kept(marked, CallAll(marked, cbs), multiset(Tickets(cbs)))
             && forall cb, s: nat | cb in cbs && cb.Propagate? && s in cb.sources && IsCancelled(marked, s) ::
                  IsCancelled(CallAll(marked, cbs), cb.target)
    ensures Kept(w, CancelToken(w, t, reason), multiset{})
  {
    var cbs, marked := w.tokens[t].callbacks, Mark(w, t, reason);
    var called := CallAll(marked, cbs);
    var r := CancelToken(w, t, reason);
    assert r == Clear(called, t);
    assert Inv(r) by { ClearKeeps(called, t); }
    assert Spread(w, r) by { CancelSpreads(w, t, reason); }
    assert Obeyed(w, r) by {
      forall d | d in r.direct && d !in w.direct ensures IsCancelled(r, d.0) {
        assert IsCancelled(called, d.0);
      }
    }
    assert Queued(r.tokens) == Queued(called.tokens) by { ClearKeeps(called, t); }
    DrainBalanced(w, marked, called, r, multiset(Tickets(cbs)));
  }

  lemma DrainBalanced(w: World, marked: World, called: World, r: World, work: multiset<nat>)
    requires marked.ran == w.ran && marked.owner == w.owner
    requires forall k: nat :: Queued(marked.tokens)[k] + work[k] == Queued(w.tokens)[k]
    requires Balanced(marked, called, work)
    requires r.ran == called.ran && r.owner == called.owner && Queued(r.tokens) == Queued(called.tokens)
    ensures Balanced(w, r, multiset{})
  {
    forall k: nat ensures Copies(r, k) + Issued(w, k) == Copies(w, k) + multiset{}[k] + Issued(r, k) {
      assert Copies(called, k) + Issued(marked, k) == Copies(marked, k) + work[k] + Issued(called, k);
    }
  }

  lemma TicketsCons(cbs: seq<Callback>)
    requires cbs != []
    ensures multiset(Tickets(cbs)) == multiset(Tickets([cbs[0]])) + multiset(Tickets(cbs[1..]))
  {
    assert Tickets([cbs[0]]) == if cbs[0].User? then [cbs[0].ticket] else [];
  }

  lemma {:induction false} CallAllKeeps(w: World, cbs: seq<Callback>)
    requires Inv(w) && Callable(w, cbs)
    ensures Kept(w, CallAll(w, cbs), multiset(Tickets(cbs)))
    ensures forall cb, s: nat | cb in cbs && cb.Propagate? && s in cb.sources && IsCancelled(w, s) ::
              IsCancelled(CallAll(w, cbs), cb.target)
    decreases Live(w), CallbacksSize(cbs)
  {
    if cbs != [] {
      var first := Call(w, cbs[0]);
      CallKeeps(w, cbs[0]);
      CallableLater(w, first, cbs[1..]);
      CallAllKeeps(first, cbs[1..]);
      var r := CallAll(first, cbs[1..]);
      KeptTrans(w, first, r, multiset(Tickets([cbs[0]])), multiset(Tickets(cbs[1..])));
      TicketsCons(cbs);
      forall cb, s: nat | cb in cbs && cb.Propagate? && s in cb.sources && IsCancelled(w, s)
        ensures IsCancelled(r, cb.target)
      {
        assert IsCancelled(first, s);
        if cb != cbs[0] {
          assert cb in cbs[1..];
        }
      }
    }
  }

  lemma {:induction false} CallKeeps(w: World, cb: Callback)
    requires Inv(w) && Callable(w, [cb])
    ensures Kept(w, Call(w, cb), multiset(Tickets([cb])))
    ensures cb.Propagate? ==> forall s: nat | s in cb.sources && IsCancelled(w, s) ::
              IsCancelled(Call(w, cb), cb.target)
    decreases Live(w), CallbackSize(cb)
  {
    assert cb in [cb];
    assert Tickets([cb]) == if cb.User? then [cb.ticket] else [];
    match cb
    case User(ticket, code) =>
      CallUserKeeps(w, ticket, code);
    case Propagate(sources, target) =>
      var s := FirstCancelled(w, sources);
      assert Combo(sources, target) in w.combos;
      var k :| 0 <= k < |w.combos| && w.combos[k] == Combo(sources, target);
      assert target < |w.tokens|;
      if s.Some? {
        assert Feeds(w, s.value, k);
        assert Backed(w, target, CombinedReason(w.tokens[s.value].reason));
        CancelTokenKeeps(w, target, CombinedReason(w.tokens[s.value].reason));
      }
  }

  lemma {:induction false} CallUserKeeps(w: World, ticket: nat, code: Code)
    requires Inv(w) && ticket < |w.owner| && IsCancelled(w, w.owner[ticket])
    ensures Kept(w, CallUser(w, ticket, code), multiset{ticket})
    decreases Live(w), CodeSize(code)
  {
    var started := w.(ran := w.ran + [ticket]);
    SameTokens(w, started);
    assert Kept(w, started, multiset{ticket});
    DoAllKeeps(started, code.actions);
    KeptTrans(w, started, DoAll(started, code.actions), multiset{ticket}, multiset{});
    assert multiset{ticket} + multiset{} == multiset{ticket};
  }

  /** History changes alone keep everything that is about the tokens. */
  lemma SameTokens(w: World, r: World)
    requires Inv(w)
    requires r.tokens == w.tokens && r.combos == w.combos
    requires w.owner <= r.owner && w.ran <= r.ran && w.direct <= r.direct
    requires forall k | k in r.ran :: k < |r.owner| && IsCancelled(r, r.owner[k])
    requires forall k | |w.owner| <= k < |r.owner| :: r.owner[k] < |r.tokens|
    ensures Later(w, r) && Inv(r) && Spread(w, r)
  {
    assert Live(r) == Live(w);
    assert forall u: nat :: IsCancelled(r, u) == IsCancelled(w, u);
    JustifiedGrows(w, r);
    WiredSame(w, r);
    forall u: nat | u < |r.tokens| ensures Genuine(r, r.tokens[u].callbacks) {
      assert Genuine(w, w.tokens[u].callbacks);
    }
    forall k: nat | k < |r.owner| ensures r.owner[k] < |r.tokens| {
      if k < |w.owner| { assert r.owner[k] == w.owner[k]; }
    }
    forall t: nat, cb | t < |r.tokens| && cb in r.tokens[t].callbacks && cb.User?
      ensures cb.ticket < |r.owner| && r.owner[cb.ticket] == t
    {
      assert r.owner[cb.ticket] == w.owner[cb.ticket];
    }
  }

  lemma {:induction false} DoAllKeeps(w: World, actions: seq<Action>)
    requires Inv(w)
    ensures Kept(w, DoAll(w, actions), multiset{})
    decreases Live(w), ActionsSize(actions)
  {
    if actions != [] {
      var first := Do(w, actions[0]);
      assert ActionsSize(actions) > ActionSize(actions[0]);
      match actions[0] {
        case Register(t, code) => RegisterCallbackKeeps(w, t, code);
        case Cancel(t, reason) => RequestCancelKeeps(w, t, reason);
      }
      DoAllKeeps(first, actions[1..]);
      KeptTrans(w, first, DoAll(first, actions[1..]), multiset{}, multiset{});
    }
  }

  lemma {:induction false} RequestCancelKeeps(w: World, t: nat, reason: Option<string>)
    requires Inv(w)
    ensures Kept(w, RequestCancel(w, t, reason), multiset{})
    decreases Live(w), 1
  {
    if t < |w.tokens| {
      var asked := w.(direct := w.direct + {(t, reason)});
      SameTokens(w, asked);
      assert Live(asked) == Live(w);
      CancelTokenKeeps(asked, t, reason);
      AskedThenCancelled(w, t, reason);
    }
  }

  lemma AskedThenCancelled(w: World, t: nat, reason: Option<string>)
    requires Inv(w) && t < |w.tokens|
    requires var asked := w.(direct := w.direct + {(t, reason)});
             Later(w, asked) && Kept(asked, CancelToken(asked, t, reason), multiset{})
    ensures Kept(w, RequestCancel(w, t, reason), multiset{})
  {
    var asked := w.(direct := w.direct + {(t, reason)});
    var r := CancelToken(asked, t, reason);
    LaterTrans(w, asked, r);
    forall d | d in r.direct && d !in w.direct ensures IsCancelled(r, d.0) {
      assert d == (t, reason) || d !in asked.direct;
    }
    forall k: nat, s: nat | Feeds(w, s, k) && !IsCancelled(w, s) && IsCancelled(r, s)
      ensures IsCancelled(r, w.combos[k].target)
    {
      assert Feeds(asked, s, k);
    }
    forall k: nat ensures Copies(r, k) + Issued(w, k) == Copies(w, k) + multiset{}[k] + Issued(r, k) {
      assert Copies(r, k) + Issued(asked, k) == Copies(asked, k) + multiset{}[k] + Issued(r, k);
    }
  }

  lemma {:induction false} RegisterCallbackKeeps(w: World, t: nat, code: Code)
    requires Inv(w)
    ensures Kept(w, RegisterCallback(w, t, code), multiset{})
    decreases Live(w), CodeSize(code) + 1
  {
    if t < |w.tokens| {
      var issued := w.(owner := w.owner + [t]);
      SameTokens(w, issued);
      assert Live(issued) == Live(w);
      if w.tokens[t].cancelled {
        CallUserKeeps(issued, |w.owner|, code);
        IssuedThenHandled(w, t, CallUser(issued, |w.owner|, code));
      } else {
        AppendKeeps(issued, t, User(|w.owner|, code));
        assert Tickets([User(|w.owner|, code)]) == [|w.owner|];
        IssuedThenHandled(w, t, Append(issued, t, User(|w.owner|, code)));
      }
    }
  }

  lemma IssuedBalances(w: World, t: nat, r: World)
    requires Balanced(w.(owner := w.owner + [t]), r, multiset{|w.owner|})
    ensures Balanced(w, r, multiset{})
  {
    var issued := w.(owner := w.owner + [t]);
    forall k: nat ensures Copies(r, k) + Issued(w, k) == Copies(w, k) + multiset{}[k] + Issued(r, k) {
      assert Copies(r, k) + Issued(issued, k)
          == Copies(issued, k) + multiset{|w.owner|}[k] + Issued(r, k);
    }
  }

  /** A freshly issued ticket that is then queued or called balances. */
  lemma IssuedThenHandled(w: World, t: nat, r: World)
    requires Inv(w) && t < |w.tokens|
    requires var issued := w.(owner := w.owner + [t]);
             Later(w, issued) && Inv(issued) && Later(issued, r) && Inv(r) && Spread(issued, r)
             && Obeyed(issued, r)
             && Balanced(issued, r, multiset{|w.owner|})
    ensures Kept(w, r, multiset{})
  {
    var issued := w.(owner := w.owner + [t]);
    LaterTrans(w, issued, r);
    IssuedBalances(w, t, r);
    forall k: nat, s: nat | Feeds(w, s, k) && !IsCancelled(w, s) && IsCancelled(r, s)
      ensures IsCancelled(r, w.combos[k].target)
    {
      assert Feeds(issued, s, k);
    }
  }

  lemma AppendKeeps(w: World, t: nat, cb: Callback)
    requires Inv(w) && t in Live(w)
    requires cb.User? ==> cb.ticket < |w.owner| && w.owner[cb.ticket] == t
    requires cb.Propagate? ==> Combo(cb.sources, cb.target) in w.combos
    ensures var r := Append(w, t, cb);
            && Later(w, r) && Inv(r) && Spread(w, r)
            && forall k: nat :: Queued(r.tokens)[k] == Queued(w.tokens)[k] + multiset(Tickets([cb]))[k]
  {
    var r := Append(w, t, cb);
    AppendLater(w, t, cb);
    NothingSpreads(w, r);
    JustifiedGrows(w, r);
    WiredSame(w, r);
    AppendOwned(w, t, cb);
    AppendQueues(w, t, cb);
  }

  lemma AppendLater(w: World, t: nat, cb: Callback)
    requires t in Live(w)
    ensures var r := Append(w, t, cb);
            && Later(w, r) && r.combos == w.combos && r.direct == w.direct
            && (forall u: nat :: IsCancelled(r, u) == IsCancelled(w, u))
            && (forall u: nat | u < |w.tokens| ::
                  r.tokens[u].reason == w.tokens[u].reason && w.tokens[u].callbacks <= r.tokens[u].callbacks)
  {
    assert Live(Append(w, t, cb)) == Live(w);
  }

  lemma NothingSpreads(w: World, r: World)
    requires |r.tokens| == |w.tokens| && r.combos == w.combos && Wired(w)
    requires forall u: nat :: IsCancelled(r, u) == IsCancelled(w, u)
    ensures Spread(w, r)
  {
  }

  lemma AppendOwned(w: World, t: nat, cb: Callback)
    requires Owned(w) && t in Live(w)
    requires forall u: nat | u < |w.tokens| :: Genuine(w, w.tokens[u].callbacks)
    requires cb.User? ==> cb.ticket < |w.owner| && w.owner[cb.ticket] == t
    requires cb.Propagate? ==> Combo(cb.sources, cb.target) in w.combos
    ensures var r := Append(w, t, cb);
            Owned(r) && forall u: nat | u < |r.tokens| :: Genuine(r, r.tokens[u].callbacks)
  {
    var r := Append(w, t, cb);
    forall u: nat, c | u < |r.tokens| && c in r.tokens[u].callbacks && c.User?
      ensures c.ticket < |r.owner| && r.owner[c.ticket] == u
    {
      assert c in w.tokens[u].callbacks || (u == t && c == cb);
    }
    forall u: nat | u < |r.tokens| ensures Genuine(r, r.tokens[u].callbacks) {
      assert Genuine(w, w.tokens[u].callbacks);
    }
  }

  lemma AppendQueues(w: World, t: nat, cb: Callback)
    requires t in Live(w)
    ensures forall k: nat ::
              Queued(Append(w, t, cb).tokens)[k] == Queued(w.tokens)[k] + multiset(Tickets([cb]))[k]
  {
    var r := Append(w, t, cb);
    QueuedUpdate(w.tokens, t, r.tokens[t]);
    TicketsAppend(w.tokens[t].callbacks, cb);
    assert Tickets([cb]) == if cb.User? then [cb.ticket] else [];
    assert multiset(Tickets(r.tokens[t].callbacks))
        == multiset(Tickets(w.tokens[t].callbacks)) + multiset(Tickets([cb]));
  }
}
