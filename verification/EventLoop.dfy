/** The event loop of the registry, with the multiplexer in front of it: whatever comes in, the
    objects go through a run of the step machine, so what holds of all runs holds of them. */
module EventLoop {
  import opened Types
  import opened SetId
  import opened Persistence
  import opened Mux
  import opened Registry
  import opened RegistryInvariants
  import opened HtlcSets
  import opened InvoiceRegistry

  /** What the outside does, including how the database reacts. */
  datatype Input =
    | HtlcInput(key: HtlcKey, height: int32, getOk: bool, commitOk: bool)
    | TimerInput
    | SettleInput(hash: Hash, id: SetID, getOk: bool, commitOk: bool)
    | CancelInput(hash: Hash, id: SetID, getOk: bool)
    | SubscribeInput
    | UnsubscribeInput(subscriber: nat)
    | ClockInput(to: Time)
    | FinalInput(key: HtlcKey, settled: bool, available: bool)
    | CrashInput

  /** The step from one state to the next, if there is one. */
  ghost predicate Takes(c: Config, env: Environment, s: State, e: Option<Event>, s': State) {
    if e.None? then s' == s else Enabled(c, env, s, e.value) && s' == Step(c, env, s, e.value)
  }

  ghost predicate SameAnswers(choice: Choice, getOk: bool, commitOk: bool) {
    choice.getOk == getOk && choice.commitOk == commitOk
  }

  /** The event is the one that the input calls for: an htlc that the gate rejects is none, a timer
      input is none exactly when no timer is due. */
  ghost predicate Responds(c: Config, env: Environment, s: State, input: Input, e: Option<Event>) {
    match input
    case HtlcInput(k, height, getOk, commitOk) =>
      (match ProcessHtlc(c.policy, env(k))
       case ToRegistry(_) =>
         && e.Some? && e.value.Arrive? && e.value.key == k && e.value.height == height
         && SameAnswers(e.value.choice, getOk, commitOk)
       case StopMux => e == Some(Crash)
       case _ => e == None)
    case TimerInput =>
      && (e.Some? ==> e.value.Tick?)
      && (e.None? <==> forall ev :: ev in s.heap ==> s.now < ev.releaseTime)
    case SettleInput(h, id, getOk, commitOk) =>
      && e.Some? && e.value.SettleRequest? && e.value.hash == h && e.value.id == id
      && SameAnswers(e.value.choice, getOk, commitOk)
    case CancelInput(h, id, getOk) =>
      && e.Some? && e.value.CancelRequest? && e.value.hash == h && e.value.id == id && e.value.choice.getOk == getOk
    case SubscribeInput => e.Some? && e.value.Subscribe?
    case UnsubscribeInput(subscriber) => e == Some(Unsubscribe(subscriber))
    case ClockInput(to) => e == if s.now <= to then Some(Advance(to)) else None
    case FinalInput(k, settled, available) => e == if available then Some(MarkFinal(k, settled)) else None
    case CrashInput => e == Some(Crash)
  }

  /** An htlc from lnd: the multiplexer checks it and passes it to the registry. */
  method HandleHtlc(r: InvoiceRegistry, env: Environment, k: HtlcKey, height: int32, getOk: bool, commitOk: bool)
    returns (ghost e: Option<Event>)
    requires r.Valid()
    modifies r.Repr()
    ensures r.Valid() && fresh(r.Repr() - old(r.Repr()))
    ensures Responds(r.cfg, env, old(r.View()), HtlcInput(k, height, getOk, commitOk), e)
    ensures Takes(r.cfg, env, old(r.View()), e, r.View())
  {
    hide Process, Release, HandleSettle, HandleCancel, AddSubscriber, RemoveSubscriber, Interrupted, Due, ProcessHtlc;
    e := None;
    match ProcessHtlc(r.cfg.policy, env(k))
    case ToRegistry(_) =>
      var choice := r.Process(env, k, height, getOk, commitOk);
      e := Some(Arrive(k, height, choice));
    case StopMux =>
      r.Restart();
      e := Some(Crash);
    case _ =>
  }

  method HandleTimer(r: InvoiceRegistry, ghost env: Environment) returns (ghost e: Option<Event>)
    requires r.Valid()
    modifies r.Repr()
    ensures r.Valid() && fresh(r.Repr() - old(r.Repr()))
    ensures Responds(r.cfg, env, old(r.View()), TimerInput, e)
    ensures Takes(r.cfg, env, old(r.View()), e, r.View())
  {
    hide Process, Release, HandleSettle, HandleCancel, AddSubscriber, RemoveSubscriber, Interrupted, ProcessHtlc;
    var event, panicked, order := r.ReleaseTick();
    e := if event.Some? then Some(Tick(event.value, Choice(true, true, order, [], []))) else None;
  }

  method HandleSettleInput(r: InvoiceRegistry, ghost env: Environment, h: Hash, id: SetID, getOk: bool, commitOk: bool)
    returns (reply: Reply, ghost e: Option<Event>)
    requires r.Valid()
    modifies r.Repr()
    ensures r.Valid() && fresh(r.Repr() - old(r.Repr()))
    ensures Responds(r.cfg, env, old(r.View()), SettleInput(h, id, getOk, commitOk), e)
    ensures reply == SettleReply(r.cfg, old(r.View()), h, id, e.value.choice)
    ensures Takes(r.cfg, env, old(r.View()), e, r.View())
  {
    hide Process, Release, HandleSettle, HandleCancel, AddSubscriber, RemoveSubscriber, Interrupted, Due, ProcessHtlc,
      SettleReply;
    ghost var choice;
    reply, choice := r.HandleSettleRequest(h, id, getOk, commitOk);
    e := Some(SettleRequest(h, id, choice));
  }

  method HandleCancelInput(r: InvoiceRegistry, ghost env: Environment, h: Hash, id: SetID, getOk: bool)
    returns (reply: Reply, ghost e: Option<Event>)
    requires r.Valid()
    modifies r.Repr()
    ensures r.Valid() && fresh(r.Repr() - old(r.Repr()))
    ensures Responds(r.cfg, env, old(r.View()), CancelInput(h, id, getOk), e)
    ensures reply == CancelReply(old(r.View()), h, id, e.value.choice)
    ensures Takes(r.cfg, env, old(r.View()), e, r.View())
  {
    hide Process, Release, HandleSettle, HandleCancel, AddSubscriber, RemoveSubscriber, Interrupted, Due, ProcessHtlc,
      CancelReply;
    ghost var choice;
    reply, choice := r.HandleCancelRequest(h, id, getOk);
    e := Some(CancelRequest(h, id, choice));
  }

  /** The clock does not go back. */
  method HandleClock(r: InvoiceRegistry, ghost env: Environment, to: Time) returns (ghost e: Option<Event>)
    requires r.Valid()
    modifies r.Repr()
    ensures r.Valid() && fresh(r.Repr() - old(r.Repr()))
    ensures Responds(r.cfg, env, old(r.View()), ClockInput(to), e)
    ensures Takes(r.cfg, env, old(r.View()), e, r.View())
  {
    hide HtlcSetsImpl.View, HtlcSetImpl.View, Process, Release, HandleSettle, HandleCancel, AddSubscriber,
      RemoveSubscriber, Interrupted, Due, ProcessHtlc;
    e := None;
    if r.now <= to {
      r.now := to;
      r.sets.Unchanged();
      e := Some(Advance(to));
    }
  }

  /** lnd reports a final outcome. */
  method HandleFinal(r: InvoiceRegistry, ghost env: Environment, k: HtlcKey, settled: bool, available: bool)
    returns (ghost e: Option<Event>)
    requires r.Valid()
    modifies r.Repr()
    ensures r.Valid() && fresh(r.Repr() - old(r.Repr()))
    ensures Responds(r.cfg, env, old(r.View()), FinalInput(k, settled, available), e)
    ensures Takes(r.cfg, env, old(r.View()), e, r.View())
  {
    hide HtlcSetsImpl.View, HtlcSetImpl.View, MarkHtlcFinal, Process, Release, HandleSettle, HandleCancel,
      AddSubscriber, RemoveSubscriber, Interrupted, Due, ProcessHtlc;
    var result := r.cdb.MarkHtlcFinal(available, k, settled);
    r.sets.Unchanged();
    e := if available then Some(MarkFinal(k, settled)) else None;
  }

  /** The process is killed and started again. */
  method HandleCrash(r: InvoiceRegistry, ghost env: Environment) returns (ghost e: Option<Event>)
    requires r.Valid()
    modifies r.Repr()
    ensures r.Valid() && fresh(r.Repr() - old(r.Repr()))
    ensures Responds(r.cfg, env, old(r.View()), CrashInput, e)
    ensures Takes(r.cfg, env, old(r.View()), e, r.View())
  {
    hide HtlcSetsImpl.View, HtlcSetImpl.View, Crashed, Process, Release, HandleSettle, HandleCancel, AddSubscriber,
      RemoveSubscriber, Interrupted, Due, ProcessHtlc;
    r.Restart();
    e := Some(Crash);
  }

  method HandleSubscriber(r: InvoiceRegistry, ghost env: Environment, input: Input) returns (ghost e: Option<Event>)
    requires r.Valid() && (input.SubscribeInput? || input.UnsubscribeInput?)
    modifies r.Repr()
    ensures r.Valid() && fresh(r.Repr() - old(r.Repr()))
    ensures Responds(r.cfg, env, old(r.View()), input, e)
    ensures Takes(r.cfg, env, old(r.View()), e, r.View())
  {
    hide Process, Release, HandleSettle, HandleCancel, AddSubscriber, RemoveSubscriber, Interrupted, Due, ProcessHtlc;
    if input.SubscribeInput? {
      var _, order := r.AddAcceptSubscriber();
      e := Some(Subscribe(Choice(true, true, [], [], order)));
    } else {
      r.DeleteAcceptSubscription(input.subscriber);
      e := Some(Unsubscribe(input.subscriber));
    }
  }

  /** One pass of the event loop. */
  method HandleInput(r: InvoiceRegistry, env: Environment, input: Input) returns (ghost e: Option<Event>)
    requires r.Valid()
    modifies r.Repr()
    ensures r.Valid() && fresh(r.Repr() - old(r.Repr()))
    ensures Responds(r.cfg, env, old(r.View()), input, e)
    ensures Takes(r.cfg, env, old(r.View()), e, r.View())
  {
    hide Takes, Responds;
    match input
    case HtlcInput(k, height, getOk, commitOk) => e := HandleHtlc(r, env, k, height, getOk, commitOk);
    case TimerInput => e := HandleTimer(r, env);
    case SettleInput(h, id, getOk, commitOk) =>
      var _, answer := HandleSettleInput(r, env, h, id, getOk, commitOk);
      e := answer;
    case CancelInput(h, id, getOk) =>
      var _, answer := HandleCancelInput(r, env, h, id, getOk);
      e := answer;
    case SubscribeInput => e := HandleSubscriber(r, env, input);
    case UnsubscribeInput(_) => e := HandleSubscriber(r, env, input);
    case ClockInput(to) => e := HandleClock(r, env, to);
    case FinalInput(k, settled, available) => e := HandleFinal(r, env, k, settled, available);
    case CrashInput => e := HandleCrash(r, env);
  }

  /** Every input has been answered by its event, one after the other. */
  ghost predicate Follows(c: Config, env: Environment, inputs: seq<Input>, trace: seq<State>,
                          taken: seq<Option<Event>>) {
    && |taken| == |inputs| && |trace| == |inputs| + 1
    && forall i {:trigger taken[i]} :: 0 <= i < |inputs| ==>
         Responds(c, env, trace[i], inputs[i], taken[i]) && Takes(c, env, trace[i], taken[i], trace[i + 1])
  }

  lemma OneInputMore(c: Config, env: Environment, inputs: seq<Input>, trace: seq<State>, taken: seq<Option<Event>>,
                     input: Input, e: Option<Event>, s: State)
    requires Follows(c, env, inputs, trace, taken)
    requires Responds(c, env, trace[|inputs|], input, e) && Takes(c, env, trace[|inputs|], e, s)
    ensures Follows(c, env, inputs + [input], trace + [s], taken + [e])
  {
    hide Responds, Takes;
  }

  /** The run ends in this state. */
  ghost predicate EndsIn(c: Config, env: Environment, states: seq<State>, events: seq<Event>, s: State) {
    IsRun(c, env, states, events) && states[|events|] == s
  }

  lemma OneStepMore(c: Config, env: Environment, states: seq<State>, events: seq<Event>, s: State, e: Event, s': State)
    requires EndsIn(c, env, states, events, s) && Takes(c, env, s, Some(e), s')
    ensures EndsIn(c, env, states + [s'], events + [e], s')
  {
    hide Step, Enabled;
  }

  /** The event loop, for any sequence of inputs: every input is answered, the objects are at the
      end of a run, and the state they are in satisfies the invariant. */
  method InvoiceEventLoop(r: InvoiceRegistry, env: Environment, inputs: seq<Input>)
    returns (ghost trace: seq<State>, ghost taken: seq<Option<Event>>,
             ghost states: seq<State>, ghost events: seq<Event>)
    requires r.Valid() && r.View() == Initial(r.now)
    modifies r.Repr()
    ensures r.Valid()
    ensures Follows(r.cfg, env, inputs, trace, taken) && trace[0] == old(r.View()) && trace[|inputs|] == r.View()
    ensures EndsIn(r.cfg, env, states, events, r.View())
    ensures EnvOk(r.cfg, env) ==> Inv(r.cfg, env, r.View())
  {
    hide Step, Enabled, EnvOk, Inv, Responds;
    states, events := [r.View()], [];
    trace, taken := [r.View()], [];
    var i := 0;
    assert inputs[..0] == [];
    assert EndsIn(r.cfg, env, states, events, r.View());
    hide EndsIn;
    while i < |inputs|
      invariant 0 <= i <= |inputs|
      invariant r.Valid() && fresh(r.Repr() - old(r.Repr()))
      invariant Follows(r.cfg, env, inputs[..i], trace, taken) && trace[0] == old(r.View()) && trace[i] == r.View()
      invariant EndsIn(r.cfg, env, states, events, r.View())
    {
      ghost var before := r.View();
      var e := HandleInput(r, env, inputs[i]);
      OneInputMore(r.cfg, env, inputs[..i], trace, taken, inputs[i], e, r.View());
      trace, taken := trace + [r.View()], taken + [e];
      if e.Some? {
        OneStepMore(r.cfg, env, states, events, before, e.value, r.View());
        states, events := states + [r.View()], events + [e.value];
      }
      assert inputs[..i + 1] == inputs[..i] + [inputs[i]];
      i := i + 1;
    }
    assert inputs[..i] == inputs;
    if EnvOk(r.cfg, env) {
      EndKeepsInv(r.cfg, env, states, events, r.View());
    }
  }

  lemma EndKeepsInv(c: Config, env: Environment, states: seq<State>, events: seq<Event>, s: State)
    requires EndsIn(c, env, states, events, s) && EnvOk(c, env)
    ensures Inv(c, env, s)
  {
    hide Inv, EnvOk, Step, Enabled;
    RunKeepsInv(c, env, states, events, |events|);
  }
}
