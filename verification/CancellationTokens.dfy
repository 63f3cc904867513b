/**
  The imperative tokens: `_is_cancelled`, `_reason` and `_callbacks` are updated in place while
  callbacks re-enter `_cancel` and `register_callback`. Every method is proved to do to the heap
  exactly what the functions of CancellationSpec do to a world.
 */
module CancellationTokens {
  import opened Common
  import opened CancellationSpec
  import opened CancellationTheorems

  class CancellationToken {
    var isCancelled: bool
    var callbacks: seq<Callback>
    var reason: Option<string>

    constructor ()
      ensures !isCancelled && callbacks == [] && reason == None
    {
      isCancelled, callbacks, reason := false, [], None;
    }

    function State(): Token
      reads this
    {
      Token(isCancelled, callbacks, reason)
    }
  }

  /** The tokens created so far, and the record of calls. */
  class TokenHeap {
    var tokens: seq<CancellationToken>
    var owner: seq<nat>
    var ran: seq<nat>
    ghost var direct: set<(nat, Option<string>)>
    ghost var combos: seq<Combo>

    ghost predicate Valid()
      reads this
    {
      forall i, j | 0 <= i < j < |tokens| :: tokens[i] != tokens[j]
    }

    ghost function View(): (w: World)
      reads this, tokens
      ensures |w.tokens| == |tokens|
      ensures forall i | 0 <= i < |tokens| :: w.tokens[i] == tokens[i].State()
    {
      World(seq(|tokens|, i requires 0 <= i < |tokens| reads this, tokens => tokens[i].State()),
            owner, ran, direct, combos)
    }

    constructor ()
      ensures Valid() && View() == EMPTY && tokens == []
    {
      tokens, owner, ran, direct, combos := [], [], [], {}, [];
    }

    /** CancellationTokenSource() makes a token of its own. */
    method NewToken() returns (t: nat)
      requires Valid()
      modifies this
      ensures Valid() && |tokens| == |old(tokens)| + 1
      ensures old(tokens) <= tokens && fresh(tokens[|old(tokens)|])
      ensures t == |old(tokens)| && View() == Apply(old(View()), Op.NewToken)
    {
      var token := new CancellationToken();
      t := |tokens|;
      tokens := tokens + [token];
      assert View().tokens == old(View()).tokens + [FRESH];
    }

    // The three assignments to a token's fields.

    method SetCancelled(t: nat, reason: Option<string>)
      requires Valid() && t < |tokens|
      modifies tokens[t]
      ensures Valid() && View() == Mark(old(View()), t, reason)
    {
      tokens[t].isCancelled := true;
      tokens[t].reason := reason;
      assert View().tokens == Mark(old(View()), t, reason).tokens;
    }

    method ClearCallbacks(t: nat)
      requires Valid() && t < |tokens|
      modifies tokens[t]
      ensures Valid() && View() == Clear(old(View()), t)
    {
      tokens[t].callbacks := [];
      assert View().tokens == Clear(old(View()), t).tokens;
    }

    method AppendCallback(t: nat, cb: Callback)
      requires Valid() && t < |tokens|
      modifies tokens[t]
      ensures Valid() && View() == Append(old(View()), t, cb)
    {
      tokens[t].callbacks := tokens[t].callbacks + [cb];
      assert View().tokens == Append(old(View()), t, cb).tokens;
    }

    /** CancellationToken._cancel */
    method CancelToken(t: nat, reason: Option<string>)
      requires Valid() && t < |tokens|
      modifies this`ran, this`owner, this`direct, tokens
      ensures Valid() && View() == CancellationSpec.CancelToken(old(View()), t, reason)
      decreases Live(View()), 0
    {
      if tokens[t].isCancelled { return; }
      ghost var before := View();
      SetCancelled(t, reason);
      assert t in Live(before) && t !in Live(Mark(before, t, reason));
      CallCallbacks(t);
      ClearCallbacks(t);
    }

    /** The loop over the live list `_callbacks` of a token that has just been cancelled. */
    method CallCallbacks(t: nat)
      requires Valid() && t < |tokens| && tokens[t].isCancelled
      modifies this`ran, this`owner, this`direct, tokens
      ensures Valid() && View() == CallAll(old(View()), old(tokens[t].callbacks))
      decreases Live(View()), CallbacksSize(tokens[t].callbacks)
    {
      ghost var marked, cbs := View(), tokens[t].callbacks;
      ghost var w := marked;
      var i := 0;
      while i < |tokens[t].callbacks|
        invariant Valid() && View() == w && 0 <= i <= |cbs|
        invariant Later(marked, w) && w.tokens[t] == marked.tokens[t]
        invariant CallAll(w, cbs[i..]) == CallAll(marked, cbs)
        decreases |cbs| - i
      {
        assert tokens[t].State() == w.tokens[t];
        CallAllStep(marked, w, cbs, i, t);
        // A raised exception is logged and the loop goes on.
        var _ := Call(tokens[t].callbacks[i]);
        w := CancellationSpec.Call(w, cbs[i]);
        i := i + 1;
      }
      assert tokens[t].State() == w.tokens[t];
    }

    /** Calls one callback; `raised` tells the caller whether an exception came out of it. */
    method Call(cb: Callback) returns (raised: bool)
      requires Valid()
      modifies this`ran, this`owner, this`direct, tokens
      ensures Valid() && View() == CancellationSpec.Call(old(View()), cb)
      ensures raised <==> cb.User? && cb.code.raises
      decreases Live(View()), CallbackSize(cb)
    {
      match cb
      case User(ticket, code) => raised := CallUser(ticket, code);
      case Propagate(sources, target) =>
        CheckCancellation(sources, target);
        raised := false;
    }

    /** The check_cancellation closure made by combine_tokens: the first cancelled source decides. */
    method CheckCancellation(sources: seq<nat>, target: nat)
      requires Valid()
      modifies this`ran, this`owner, this`direct, tokens
      ensures Valid() && View() == CancellationSpec.Call(old(View()), Propagate(sources, target))
      decreases Live(View()), 1
    {
      var i := 0;
      while i < |sources|
        invariant 0 <= i <= |sources| && Valid() && View() == old(View())
        invariant FirstCancelled(View(), sources) == FirstCancelled(View(), sources[i..])
        invariant tokens == old(tokens)
      {
        assert sources[i..][1..] == sources[i + 1..];
        if sources[i] < |tokens| && tokens[sources[i]].isCancelled {
          if target < |tokens| {
            CancelToken(target, CombinedReason(tokens[sources[i]].reason));
          }
          return;
        }
        i := i + 1;
      }
    }

    method CallUser(ticket: nat, code: Code) returns (raised: bool)
      requires Valid()
      modifies this`ran, this`owner, this`direct, tokens
      ensures Valid() && View() == CancellationSpec.CallUser(old(View()), ticket, code)
      ensures raised == code.raises
      decreases Live(View()), CodeSize(code)
    {
      ghost var before := View();
      ran := ran + [ticket];
      assert View().tokens == before.tokens;
      assert Live(View()) == Live(before);
      DoActions(code.actions);
      raised := code.raises;
    }

    /** The body of a user callback, statement by statement. */
    method DoActions(actions: seq<Action>)
      requires Valid()
      modifies this`ran, this`owner, this`direct, tokens
      ensures Valid() && View() == DoAll(old(View()), actions)
      decreases Live(View()), ActionsSize(actions)
    {
      ghost var started, w := View(), View();
      var i := 0;
      while i < |actions|
        invariant Valid() && View() == w && 0 <= i <= |actions|
        invariant Later(started, w)
        invariant DoAll(w, actions[i..]) == DoAll(started, actions)
        decreases |actions| - i
      {
        DoAllStep(started, w, actions, i);
        DoAction(actions[i]);
        w := Do(w, actions[i]);
        i := i + 1;
      }
    }

    method DoAction(a: Action)
      requires Valid()
      modifies this`ran, this`owner, this`direct, tokens
      ensures Valid() && View() == Do(old(View()), a)
      decreases Live(View()), ActionSize(a)
    {
      match a
      case Register(t, code) => if t < |tokens| { RegisterCallback(t, code); }
      case Cancel(t, reason) => if t < |tokens| { Cancel(t, reason); }
    }

    /** CancellationToken.register_callback */
    method RegisterCallback(t: nat, code: Code)
      requires Valid() && t < |tokens|
      modifies this`ran, this`owner, this`direct, tokens
      ensures Valid() && View() == CancellationSpec.RegisterCallback(old(View()), t, code)
      decreases Live(View()), CodeSize(code) + 1
    {
      ghost var before := View();
      var ticket := |owner|;
      owner := owner + [t];
      ghost var issued := before.(owner := before.owner + [t]);
      assert View().tokens == issued.tokens;
      assert Live(issued) == Live(before);
      if tokens[t].isCancelled {
        var _ := CallUser(ticket, code);
      } else {
        AppendCallback(t, User(ticket, code));
      }
    }

    /** CancellationTokenSource.cancel */
    method Cancel(t: nat, reason: Option<string>)
      requires Valid() && t < |tokens|
      modifies this`ran, this`owner, this`direct, tokens
      ensures Valid() && View() == RequestCancel(old(View()), t, reason)
      decreases Live(View()), 1
    {
      ghost var before := View();
      direct := direct + {(t, reason)};
      ghost var asked := before.(direct := before.direct + {(t, reason)});
      assert View().tokens == asked.tokens;
      assert Live(asked) == Live(before);
      CancelToken(t, reason);
    }

    /** combine_tokens */
    method CombineTokens(sources: seq<nat>) returns (target: nat)
      requires Valid() && forall s | s in sources :: s < |tokens|
      modifies this, tokens
      ensures Valid() && old(tokens) <= tokens && |tokens| == |old(tokens)| + 1
      ensures target == |old(tokens)|
      ensures View() == CancellationTheorems.CombineTokens(old(View()), sources)
    {
      ghost var before := View();
      var token := new CancellationToken();
      target := |tokens|;
      tokens := tokens + [token];
      combos := combos + [Combo(sources, target)];
      assert View().tokens == before.tokens + [FRESH];
      RegisterOnAll(sources, target);
      CheckCancellation(sources, target);
    }

    /** `for token in tokens: token.register_callback(check_cancellation)` */
    method RegisterOnAll(sources: seq<nat>, target: nat)
      requires Valid() && forall s | s in sources :: s < |tokens|
      modifies this`ran, this`owner, this`direct, tokens
      ensures Valid() && View() == RegisterChecks(old(View()), sources, Propagate(sources, target))
    {
      var check := Propagate(sources, target);
      ghost var w := View();
      var i := 0;
      while i < |sources|
        invariant Valid() && View() == w && 0 <= i <= |sources|
        invariant RegisterAll(w, sources, i, check) == RegisterChecks(old(View()), sources, check)
      {
        var s := sources[i];
        assert s in sources;
        if tokens[s].isCancelled {
          CheckCancellation(sources, target);
        } else {
          AppendCallback(s, check);
        }
        RegisterStep(w, sources, i, check);
        w := RegisterCheck(w, s, check);
        i := i + 1;
      }
    }
  }

  // ---------- one turn of each loop ----------

  lemma CallAllStep(marked: World, w: World, cbs: seq<Callback>, i: nat, t: nat)
    requires i < |cbs| && Later(marked, w) && IsCancelled(marked, t)
    ensures CallAll(w, cbs[i..]) == CallAll(Call(w, cbs[i]), cbs[i + 1..])
    ensures Later(marked, Call(w, cbs[i])) && Call(w, cbs[i]).tokens[t] == marked.tokens[t]
    ensures CallbackSize(cbs[i]) < CallbacksSize(cbs)
  {
    CallbackInside(cbs, i);
    assert cbs[i..][1..] == cbs[i + 1..];
    LaterTrans(marked, w, Call(w, cbs[i]));
  }

  lemma DoAllStep(started: World, w: World, actions: seq<Action>, i: nat)
    requires i < |actions| && Later(started, w)
    ensures DoAll(w, actions[i..]) == DoAll(Do(w, actions[i]), actions[i + 1..])
    ensures Later(started, Do(w, actions[i]))
    ensures ActionSize(actions[i]) < ActionsSize(actions)
  {
    assert actions[i..][1..] == actions[i + 1..];
    LaterTrans(started, w, Do(w, actions[i]));
    ActionInside(actions, i);
  }

  ghost function RegisterAll(w: World, sources: seq<nat>, i: nat, check: Callback): World
    requires i <= |sources| && forall s | s in sources :: s < |w.tokens|
  {
    assert forall s | s in sources[i..] :: s in sources;
    RegisterChecks(w, sources[i..], check)
  }

  lemma RegisterStep(w: World, sources: seq<nat>, i: nat, check: Callback)
    requires i < |sources| && forall s | s in sources :: s < |w.tokens|
    ensures sources[i] in sources
    ensures RegisterAll(w, sources, i, check) == RegisterAll(RegisterCheck(w, sources[i], check), sources, i + 1, check)
  {
    assert sources[i..][1..] == sources[i + 1..];
  }

  lemma {:induction false} CallbackInside(cbs: seq<Callback>, i: nat)
    requires i < |cbs|
    ensures CallbackSize(cbs[i]) < CallbacksSize(cbs)
  {
    if i > 0 { CallbackInside(cbs[1..], i - 1); }
  }

  lemma {:induction false} ActionInside(actions: seq<Action>, i: nat)
    requires i < |actions|
    ensures ActionSize(actions[i]) < ActionsSize(actions)
  {
    if i > 0 { ActionInside(actions[1..], i - 1); }
  }
}
