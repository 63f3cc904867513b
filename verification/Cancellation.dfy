/**
  Cancellation tokens: registration, the re-entrant cancel cascade and combined tokens.

  Tokens are numbered in creation order and a closure that captures a token holds its number.
  A callback is data: either a user callback, which is a script of further registrations and
  cancellations that may end by raising, or the check that `combine_tokens` installs.
 */
module CancellationSpec {
  import opened Common

  // ---------- data ----------

  datatype Action =
    | Register(token: nat, code: Code)
    | Cancel(token: nat, reason: Option<string>)

  /** What a user callback does when it is called. */
  datatype Code = Code(actions: seq<Action>, raises: bool)

  /** `ticket` numbers registrations of user callbacks, in order. */
  datatype Callback =
    | User(ticket: nat, code: Code)
    | Propagate(sources: seq<nat>, target: nat)

  datatype Token = Token(cancelled: bool, callbacks: seq<Callback>, reason: Option<string>)

  datatype Combo = Combo(sources: seq<nat>, target: nat)

  /** All tokens, and the history the properties speak about: `owner[k]` is the token on which
      registration k was made, `ran` lists the tickets of the user callbacks called so far,
      `direct` the cancellations requested by callers, `combos` the combined tokens. */
  datatype World = World(
    tokens: seq<Token>,
    owner: seq<nat>,
    ran: seq<nat>,
    direct: set<(nat, Option<string>)>,
    combos: seq<Combo>)

  const EMPTY := World([], [], [], {}, [])

  const FRESH := Token(false, [], None)

  predicate IsCancelled(w: World, t: nat) {
    t < |w.tokens| && w.tokens[t].cancelled
  }

  ghost function Live(w: World): set<nat> {
    set t: nat | t < |w.tokens| && !w.tokens[t].cancelled
  }

  function CombinedReason(reason: Option<string>): Option<string> {
    Some("Combined token cancelled due to: " + if reason.Some? then reason.value else "None")
  }

  /** The first cancelled token of `sources`, as the loop of check_cancellation finds it. */
  function FirstCancelled(w: World, sources: seq<nat>): (s: Option<nat>)
    ensures s.Some? ==> s.value in sources && IsCancelled(w, s.value)
    ensures s.None? ==> forall t | t in sources :: !IsCancelled(w, t)
  {
    if sources == [] then None
    else if IsCancelled(w, sources[0]) then Some(sources[0])
    else FirstCancelled(w, sources[1..])
  }

  // ---------- sizes, for termination ----------

  function CodeSize(code: Code): nat { 1 + ActionsSize(code.actions) }

  function ActionSize(a: Action): nat {
    match a
    case Register(_, code) => 2 + CodeSize(code)
    case Cancel(_, _) => 2
  }

  function ActionsSize(actions: seq<Action>): nat {
    if actions == [] then 0 else 1 + ActionSize(actions[0]) + ActionsSize(actions[1..])
  }

  function CallbackSize(cb: Callback): nat {
    match cb
    case User(_, code) => 1 + CodeSize(code)
    case Propagate(_, _) => 2
  }

  function CallbacksSize(cbs: seq<Callback>): nat {
    if cbs == [] then 0 else 1 + CallbackSize(cbs[0]) + CallbacksSize(cbs[1..])
  }

  // ---------- what every piece of the cascade keeps ----------

  /** A later world: cancelled tokens are frozen, live ones only gain callbacks, and a token that
      became cancelled on the way has drained its list. */
  ghost predicate Later(w: World, r: World) {
    && |r.tokens| == |w.tokens|
    && r.combos == w.combos
    && w.owner <= r.owner
    && w.ran <= r.ran
    && w.direct <= r.direct
    && Live(r) <= Live(w)
    && (forall t | 0 <= t < |w.tokens| && w.tokens[t].cancelled :: r.tokens[t] == w.tokens[t])
    && (forall t | 0 <= t < |w.tokens| && !r.tokens[t].cancelled ::
          w.tokens[t].callbacks <= r.tokens[t].callbacks && r.tokens[t].reason == w.tokens[t].reason)
    && (forall t | 0 <= t < |w.tokens| && !w.tokens[t].cancelled && r.tokens[t].cancelled ::
          r.tokens[t].callbacks == [])
  }

  lemma LaterTrans(a: World, b: World, c: World)
    requires Later(a, b) && Later(b, c)
    ensures Later(a, c)
  {
    forall t | 0 <= t < |a.tokens| && !a.tokens[t].cancelled && c.tokens[t].cancelled
      ensures c.tokens[t].callbacks == []
    {
      if b.tokens[t].cancelled { assert c.tokens[t] == b.tokens[t]; }
    }
    forall t | 0 <= t < |a.tokens| && !c.tokens[t].cancelled
      ensures a.tokens[t].callbacks <= c.tokens[t].callbacks && c.tokens[t].reason == a.tokens[t].reason
    {
      assert t in Live(c);
      assert !b.tokens[t].cancelled;
    }
  }

  // ---------- the cascade ----------

  function Mark(w: World, t: nat, reason: Option<string>): World
    requires t < |w.tokens|
  {
    w.(tokens := w.tokens[t := w.tokens[t].(cancelled := true, reason := reason)])
  }

  function Clear(w: World, t: nat): World
    requires t < |w.tokens|
  {
    w.(tokens := w.tokens[t := w.tokens[t].(callbacks := [])])
  }

  function Append(w: World, t: nat, cb: Callback): World
    requires t < |w.tokens|
  {
    w.(tokens := w.tokens[t := w.tokens[t].(callbacks := w.tokens[t].callbacks + [cb])])
  }

  /** CancellationToken._cancel. */
  function CancelToken(w: World, t: nat, reason: Option<string>): (r: World)
    ensures Later(w, r)
    ensures t < |w.tokens| ==> IsCancelled(r, t)
    decreases Live(w), 0
  {
    if t >= |w.tokens| || w.tokens[t].cancelled then w
    else
      var marked := Mark(w, t, reason);
      assert t in Live(w) && t !in Live(marked);
      var called := CallAll(marked, w.tokens[t].callbacks);
      Clear(called, t)
  }

  /** The loop over the callbacks of a token that is being cancelled. */
  function CallAll(w: World, cbs: seq<Callback>): (r: World)
    ensures Later(w, r)
    decreases Live(w), CallbacksSize(cbs)
  {
    if cbs == [] then w
    else
      var first := Call(w, cbs[0]);
      var r := CallAll(first, cbs[1..]);
      LaterTrans(w, first, r);
      r
  }

  function Call(w: World, cb: Callback): (r: World)
    ensures Later(w, r)
    decreases Live(w), CallbackSize(cb)
  {
    match cb
    case User(ticket, code) => CallUser(w, ticket, code)
    case Propagate(sources, target) =>
      var s := FirstCancelled(w, sources);
      if s.Some? then CancelToken(w, target, CombinedReason(w.tokens[s.value].reason)) else w
  }

  function CallUser(w: World, ticket: nat, code: Code): (r: World)
    ensures Later(w, r)
    decreases Live(w), CodeSize(code)
  {
    var started := w.(ran := w.ran + [ticket]);
    assert Live(started) == Live(w);
    DoAll(started, code.actions)
  }

  function DoAll(w: World, actions: seq<Action>): (r: World)
    ensures Later(w, r)
    decreases Live(w), ActionsSize(actions)
  {
    if actions == [] then w
    else
      var first := Do(w, actions[0]);
      var r := DoAll(first, actions[1..]);
      LaterTrans(w, first, r);
      r
  }

  function Do(w: World, a: Action): (r: World)
    ensures Later(w, r)
    decreases Live(w), ActionSize(a)
  {
    match a
    case Register(t, code) => RegisterCallback(w, t, code)
    case Cancel(t, reason) => RequestCancel(w, t, reason)
  }

  /** CancellationToken.register_callback for a user callback. */
  function RegisterCallback(w: World, t: nat, code: Code): (r: World)
    ensures Later(w, r)
    decreases Live(w), CodeSize(code) + 1
  {
    if t >= |w.tokens| then w
    else
      var ticket := |w.owner|;
      var issued := w.(owner := w.owner + [t]);
      assert Live(issued) == Live(w);
      if w.tokens[t].cancelled then
        var r := CallUser(issued, ticket, code);
        assert Later(w, issued);
        LaterTrans(w, issued, r);
        r
      else
        Append(issued, t, User(ticket, code))
  }

  /** CancellationTokenSource.cancel: a caller's own request. */
  function RequestCancel(w: World, t: nat, reason: Option<string>): (r: World)
    ensures Later(w, r)
    decreases Live(w), 1
  {
    if t >= |w.tokens| then w
    else
      var asked := w.(direct := w.direct + {(t, reason)});
      assert Live(asked) == Live(w);
      var r := CancelToken(asked, t, reason);
      assert Later(w, asked);
      LaterTrans(w, asked, r);
      r
  }

}
