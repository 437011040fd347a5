/** Resolution linearity: the callback of an arrival is invoked at most once, and until then the
    arrival sits in exactly one subscription list. */
module Resolutions {
  import opened Types
  import opened Persistence
  import opened Mux
  import opened Registry
  import opened RegistryInvariants

  /** No arrival is resolved twice. */
  ghost predicate LogLinear(log: seq<Entry>, n: nat) {
    && (forall p :: 0 <= p < |log| ==> log[p].arrival < n)
    && (forall p, q :: 0 <= p < q < |log| ==> log[p].arrival != log[q].arrival)
  }

  /** No arrival is in two places of the subscription lists. */
  ghost predicate SubsLinear(subs: map<HtlcKey, seq<nat>>, n: nat) {
    && (forall k, i :: k in subs && 0 <= i < |subs[k]| ==> subs[k][i] < n)
    && (forall k, i, k', i' :: k in subs && 0 <= i < |subs[k]| && k' in subs && 0 <= i' < |subs[k']| ==>
          subs[k][i] == subs[k'][i'] ==> k == k' && i == i')
  }

  /** No arrival is both resolved and waiting. */
  ghost predicate Apart(log: seq<Entry>, subs: map<HtlcKey, seq<nat>>) {
    forall p, k, i :: 0 <= p < |log| && k in subs && 0 <= i < |subs[k]| ==> log[p].arrival != subs[k][i]
  }

  ghost predicate Linear(log: seq<Entry>, subs: map<HtlcKey, seq<nat>>, n: nat) {
    LogLinear(log, n) && SubsLinear(subs, n) && Apart(log, subs)
  }

  ghost predicate LinearInv(s: State) {
    Linear(s.log, s.subs, s.arrivals)
  }

  /** Resolved, or waiting for the resolution of its htlc. */
  ghost predicate Resolved(log: seq<Entry>, a: nat) {
    exists p :: 0 <= p < |log| && log[p].arrival == a
  }

  ghost predicate Waiting(subs: map<HtlcKey, seq<nat>>, a: nat) {
    exists k, i :: k in subs && 0 <= i < |subs[k]| && subs[k][i] == a
  }

  ghost predicate Accounted(s: State, a: nat) {
    Resolved(s.log, a) || Waiting(s.subs, a)
  }

  // ----- Single notifications -----

  lemma EntriesLinear(log: seq<Entry>, subs: map<HtlcKey, seq<nat>>, n: nat, k: HtlcKey, res: Resolution)
    requires Linear(log, subs, n) && k in subs
    ensures LogLinear(log + Entries(subs[k], k, res), n)
  {
    var log' := log + Entries(subs[k], k, res);
    forall p, q | 0 <= p < q < |log'| ensures log'[p].arrival != log'[q].arrival {
      if p >= |log| {
        assert log'[p].arrival == subs[k][p - |log|] && log'[q].arrival == subs[k][q - |log|];
      } else if q >= |log| {
        assert log'[q].arrival == subs[k][q - |log|];
      }
    }
  }

  lemma NotifyLinear(log: seq<Entry>, subs: map<HtlcKey, seq<nat>>, n: nat, k: HtlcKey, res: Resolution)
    requires Linear(log, subs, n) && k in subs
    ensures Linear(log + Entries(subs[k], k, res), subs - {k}, n)
  {
    EntriesLinear(log, subs, n, k, res);
    var log', subs' := log + Entries(subs[k], k, res), subs - {k};
    forall p, k', i | 0 <= p < |log'| && k' in subs' && 0 <= i < |subs'[k']| ensures log'[p].arrival != subs'[k'][i] {
      if p >= |log| {
        assert log'[p].arrival == subs[k][p - |log|];
      }
    }
  }

  lemma NotifyAccounted(s: State, k: HtlcKey, res: Resolution, a: nat)
    requires Accounted(s, a)
    ensures Accounted(Notify(s, k, res), a)
  {
    var s' := Notify(s, k, res);
    if Resolved(s.log, a) {
      var p :| 0 <= p < |s.log| && s.log[p].arrival == a;
      assert s'.log[p].arrival == a;
    } else {
      var k', i :| k' in s.subs && 0 <= i < |s.subs[k']| && s.subs[k'][i] == a;
      if k' == k {
        assert s'.log[|s.log| + i].arrival == a;
      } else {
        assert s'.subs[k'][i] == a;
      }
    }
  }

  lemma {:induction false} NotifyAllLinear(s: State, keys: seq<HtlcKey>, res: Resolution)
    requires LinearInv(s)
    ensures LinearInv(NotifyAll(s, keys, res)) && NotifyAll(s, keys, res).arrivals == s.arrivals
  {
    hide Linear;
    if keys != [] {
      var s1, k := NotifyAll(s, keys[..|keys| - 1], res), keys[|keys| - 1];
      NotifyAllLinear(s, keys[..|keys| - 1], res);
      if k in s1.subs {
        NotifyLinear(s1.log, s1.subs, s1.arrivals, k, res);
      }
    }
  }

  lemma {:induction false} NotifyAllAccounted(s: State, keys: seq<HtlcKey>, res: Resolution, a: nat)
    requires Accounted(s, a)
    ensures Accounted(NotifyAll(s, keys, res), a)
  {
    hide Accounted, Notify;
    if keys != [] {
      NotifyAllAccounted(s, keys[..|keys| - 1], res, a);
      NotifyAccounted(NotifyAll(s, keys[..|keys| - 1], res), keys[|keys| - 1], res, a);
    }
  }

  // ----- Arrivals -----

  lemma ResolveLinear(log: seq<Entry>, subs: map<HtlcKey, seq<nat>>, n: nat, k: HtlcKey, res: Resolution)
    requires Linear(log, subs, n)
    ensures Linear(log + [Entry(n, k, res)], subs, n + 1)
    ensures Resolved(log + [Entry(n, k, res)], n)
  {
    assert (log + [Entry(n, k, res)])[|log|].arrival == n;
  }

  lemma SubscribeLinear(log: seq<Entry>, subs: map<HtlcKey, seq<nat>>, n: nat, k: HtlcKey)
    requires Linear(log, subs, n)
    ensures Linear(log, Subscribed(subs, k, n), n + 1)
    ensures Waiting(Subscribed(subs, k, n), n)
  {
    var subs' := Subscribed(subs, k, n);
    assert subs'[k][|subs'[k]| - 1] == n;
    forall k0, i, k1, i' | k0 in subs' && 0 <= i < |subs'[k0]| && k1 in subs' && 0 <= i' < |subs'[k1]|
      ensures subs'[k0][i] == subs'[k1][i'] ==> k0 == k1 && i == i'
    {
      assert (k0 == k && i == |subs'[k]| - 1) || (k0 in subs && i < |subs[k0]| && subs'[k0][i] == subs[k0][i]);
      assert (k1 == k && i' == |subs'[k]| - 1) || (k1 in subs && i' < |subs[k1]| && subs'[k1][i'] == subs[k1][i']);
    }
  }

  lemma LinearGrows(log: seq<Entry>, subs: map<HtlcKey, seq<nat>>, n: nat)
    requires Linear(log, subs, n)
    ensures Linear(log, subs, n + 1)
  {
  }

  lemma SubscribeAccounted(s: State, s': State, k: HtlcKey, a: nat)
    requires Accounted(s, a) && s'.log == s.log && s'.subs == Subscribed(s.subs, k, s.arrivals)
    ensures Accounted(s', a)
  {
    if !Resolved(s.log, a) {
      var k', i :| k' in s.subs && 0 <= i < |s.subs[k']| && s.subs[k'][i] == a;
      assert s'.subs[k'][i] == a;
    }
  }

  lemma DeleteAllLinear(s: State, h: Hash, order: seq<HtlcKey>, res: Resolution)
    requires LinearInv(s) && h in s.sets
    ensures LinearInv(DeleteAll(s, h, order, res)) && DeleteAll(s, h, order, res).arrivals == s.arrivals
    ensures forall a :: Accounted(s, a) ==> Accounted(DeleteAll(s, h, order, res), a)
  {
    hide Linear, Accounted, NotifyAll;
    var keys := Ordered(order, s.sets[h].htlcs.Keys);
    NotifyAllLinear(s, keys, res);
    forall a | Accounted(s, a) ensures Accounted(DeleteAll(s, h, order, res), a) {
      NotifyAllAccounted(s, keys, res, a);
      SamePlace(NotifyAll(s, keys, res), DeleteAll(s, h, order, res), a);
    }
  }

  lemma SamePlace(s: State, s': State, a: nat)
    requires s'.log == s.log && s'.subs == s.subs && Accounted(s, a)
    ensures Accounted(s', a)
  {
  }

  lemma CommitLinear(s: State, h: Hash, order: seq<HtlcKey>)
    requires LinearInv(s) && h in s.sets
    ensures LinearInv(CommitAndSettle(s, h, order)) && CommitAndSettle(s, h, order).arrivals == s.arrivals
    ensures forall a :: Accounted(s, a) ==> Accounted(CommitAndSettle(s, h, order), a)
  {
    hide Linear, Accounted, DeleteAll, Inserted;
    var set0 := s.sets[h];
    var s1 := s.(db := Inserted(s.db, set0.preimage, set0.value, set0.htlcs));
    DeleteAllLinear(s1, h, order, Settle(set0.preimage, false));
    forall a | Accounted(s, a) ensures Accounted(CommitAndSettle(s, h, order), a) {
      SamePlace(s, s1, a);
    }
  }

  /** An accepted arrival joins the list of its htlc, and is resolved at once if the set is
      settled automatically. */
  lemma AcceptLinear(c: Config, env: Environment, s: State, k: HtlcKey, height: int32, choice: Choice)
    requires LinearInv(s) && choice.getOk && Decide(c, s, k, env(k), height).Accept?
    ensures LinearInv(Process(c, env, s, k, height, choice))
    ensures Process(c, env, s, k, height, choice).arrivals == s.arrivals + 1
    ensures Accounted(Process(c, env, s, k, height, choice), s.arrivals)
    ensures forall a :: Accounted(s, a) ==> Accounted(Process(c, env, s, k, height, choice), a)
  {
    hide Linear, Decide, CommitAndSettle, Subscribed, HtlcSet.IsComplete, Admits, Resolved, Waiting, Taken, Extended;
    var invoice := Decide(c, s, k, env(k), height).invoice;
    var s1, s' := Taken(c, s, k, env(k), invoice, choice), Process(c, env, s, k, height, choice);
    TakenFrame(c, s, k, env(k), invoice, choice);
    SubscribeLinear(s.log, s.subs, s.arrivals, k);
    forall a | Accounted(s, a) ensures Accounted(s1, a) {
      SubscribeAccounted(s, s1, k, a);
    }
    if s' != s1 {
      CommitLinear(s1, env(k).hash, choice.keyOrder);
    }
  }

  lemma ProcessLinear(c: Config, env: Environment, s: State, k: HtlcKey, height: int32, choice: Choice)
    requires LinearInv(s)
    ensures LinearInv(Process(c, env, s, k, height, choice))
    ensures Process(c, env, s, k, height, choice).arrivals == s.arrivals + 1
    ensures choice.getOk && !Decide(c, s, k, env(k), height).Inconsistent? ==>
              Accounted(Process(c, env, s, k, height, choice), s.arrivals)
    ensures forall a :: Accounted(s, a) ==> Accounted(Process(c, env, s, k, height, choice), a)
  {
    hide Linear, Decide, Subscribed, Hold, Complete, Resolved, Waiting, CommitAndSettle;
    var s' := Process(c, env, s, k, height, choice);
    if !choice.getOk || Decide(c, s, k, env(k), height).Inconsistent? {
      LinearGrows(s.log, s.subs, s.arrivals);
    } else {
      match Decide(c, s, k, env(k), height)
      case ReplaySettled(preimage) =>
        ResolveLinear(s.log, s.subs, s.arrivals, k, Settle(preimage, true));
        StillResolved(s, s');
      case Reject(outcome) =>
        ResolveLinear(s.log, s.subs, s.arrivals, k, Fail(outcome));
        StillResolved(s, s');
      case ReAccept =>
        SubscribeLinear(s.log, s.subs, s.arrivals, k);
        forall a | Accounted(s, a) ensures Accounted(s', a) {
          SubscribeAccounted(s, s', k, a);
        }
      case Accept(invoice) => AcceptLinear(c, env, s, k, height, choice);
    }
  }

  lemma StillResolved(s: State, s': State)
    requires s.log <= s'.log && s'.subs == s.subs
    ensures forall a :: Accounted(s, a) ==> Accounted(s', a)
  {
    forall a | Resolved(s.log, a) ensures Resolved(s'.log, a) {
      var p :| 0 <= p < |s.log| && s.log[p].arrival == a;
      assert s'.log[p].arrival == a;
    }
  }

  // ----- Every step -----

  /** The step ends the process: a crash, a panic, or an error of the database in a request. */
  ghost predicate LosesMemory(c: Config, s: State, e: Event) {
    || e.Crash? || e.CrashDuring? || Panics(s, e)
    || (e.SettleRequest? && SettleReply(c, s, e.hash, e.id, e.choice) == Stopped)
    || (e.CancelRequest? && CancelReply(s, e.hash, e.id, e.choice) == Stopped)
  }

  /** Nothing is in memory, as after a start of the process. */
  predicate IsBlank(s: State) {
    && s.sets == map[] && s.subs == map[] && s.heap == multiset{}
    && s.subscribers == {} && s.nextSubscriber == 0 && s.lastRemoved == None
  }

  /** A step that ends the process leaves nothing in memory; what is stored stays stored. */
  lemma MemoryIsLost(c: Config, env: Environment, s: State, e: Event)
    requires LosesMemory(c, s, e)
    ensures IsBlank(Step(c, env, s, e))
    ensures !e.CrashDuring? ==> Step(c, env, s, e).db == s.db && Step(c, env, s, e).log == s.log
  {
    hide Process, HandleSettle, HandleCancel, AddSubscriber, RemoveSubscriber, Mark, HtlcSet.IsComplete, DeleteAll,
      Notify;
    match e
    case SettleRequest(h, id, choice) => StoppedSettle(c, s, h, id, choice);
    case CancelRequest(h, id, choice) => StoppedCancel(s, h, id, choice);
    case _ =>
  }

  lemma StoppedSettle(c: Config, s: State, h: Hash, id: seq<byte>, choice: Choice)
    ensures SettleReply(c, s, h, id, choice) == Stopped ==> HandleSettle(c, s, h, id, choice) == Crashed(s)
  {
    hide SettleReply, CommitAndSettle;
  }

  lemma StoppedCancel(s: State, h: Hash, id: seq<byte>, choice: Choice)
    ensures CancelReply(s, h, id, choice) == Stopped ==> HandleCancel(s, h, id, choice) == Crashed(s)
  {
    hide CancelReply, DeleteAll;
  }

  lemma TickLinear(s: State, ev: ReleaseEvent, order: seq<HtlcKey>)
    requires LinearInv(s)
    ensures LinearInv(Release(s, ev, order))
    ensures !(ev.HtlcRelease? && ReleasePanics(s, ev.hash, ev.key)) ==>
              forall a :: Accounted(s, a) ==> Accounted(Release(s, ev, order), a)
  {
    hide Linear, DeleteAll, Resolved, Waiting;
    var s1 := Popped(s, ev);
    if ev.AcceptTimeout? && ev.hash in s.sets {
      DeleteAllLinear(s1, ev.hash, order, Fail(AcceptTimedOut));
    } else if ev.HtlcRelease? && ReleasePanics(s, ev.hash, ev.key) {
      NoSubsLinear(s.log, s.subs, s.arrivals);
    } else if ev.HtlcRelease? && ev.hash in s.sets && !s.sets[ev.hash].IsComplete() && ev.key in s.subs {
      NotifyLinear(s.log, s.subs, s.arrivals, ev.key, Fail(MppTimeout));
      forall a | Accounted(s, a) ensures Accounted(Release(s, ev, order), a) {
        NotifyAccounted(s, ev.key, Fail(MppTimeout), a);
        SamePlace(Notify(s, ev.key, Fail(MppTimeout)), Release(s, ev, order), a);
      }
    }
  }

  lemma NoSubsLinear(log: seq<Entry>, subs: map<HtlcKey, seq<nat>>, n: nat)
    requires Linear(log, subs, n)
    ensures Linear(log, map[], n)
  {
  }

  lemma HandlersLinear(c: Config, env: Environment, s: State, e: Event)
    requires LinearInv(s) && !e.CrashDuring?
    ensures LinearInv(Step(c, env, s, e))
    ensures !LosesMemory(c, s, e) ==> forall a :: Accounted(s, a) ==> Accounted(Step(c, env, s, e), a)
  {
    hide Linear, DeleteAll, CommitAndSettle, Process, Release, Resolved, Waiting;
    NoSubsLinear(s.log, s.subs, s.arrivals);
    match e
    case Arrive(k, height, choice) => ProcessLinear(c, env, s, k, height, choice);
    case Tick(ev, choice) => TickLinear(s, ev, choice.keyOrder);
    case SettleRequest(h, id, choice) =>
      if SettleReply(c, s, h, id, choice) == Ok && h in s.sets {
        CommitLinear(s, h, choice.keyOrder);
      }
    case CancelRequest(h, id, choice) =>
      if CancelReply(s, h, id, choice) == Ok {
        DeleteAllLinear(s, h, choice.keyOrder, Fail(InvoiceNotOpen));
      }
    case Subscribe(choice) =>
    case Unsubscribe(id) =>
    case Advance(to) =>
    case MarkFinal(k, settled) =>
    case Crash =>
  }

  lemma PrefixLinear(log: seq<Entry>, subs: map<HtlcKey, seq<nat>>, n: nat, upTo: nat)
    requires Linear(log, subs, n) && upTo <= |log|
    ensures Linear(log[..upTo], map[], n)
  {
  }

  lemma {:induction false} StepLinear(c: Config, env: Environment, s: State, e: Event)
    requires LinearInv(s) && Enabled(c, env, s, e)
    ensures LinearInv(Step(c, env, s, e)) && s.arrivals <= Step(c, env, s, e).arrivals
    ensures !LosesMemory(c, s, e) ==> forall a :: Accounted(s, a) ==> Accounted(Step(c, env, s, e), a)
  {
    hide Linear, Accounted, LosesMemory, Process, Release, HandleSettle, HandleCancel;
    ArrivalsGrow(c, env, s, e);
    if e.CrashDuring? {
      var s' := Step(c, env, s, e.during);
      HandlersLinear(c, env, s, e.during);
      assert LosesMemory(c, s, e) by {
        CrashLoses(c, s, e);
      }
      match e.point
      case WhileNotifying(n) =>
        PrefixLinear(s.log, s.subs, s.arrivals, |s.log|);
        assert s.log[..|s.log|] == s.log;
        MoreArrivals(s.log, s.arrivals, s'.arrivals);
      case WhileResolving(n) =>
        PrefixLinear(s'.log, s'.subs, s'.arrivals, if |s.log| + n <= |s'.log| then |s.log| + n else |s'.log|);
    } else {
      HandlersLinear(c, env, s, e);
    }
  }

  lemma CrashLoses(c: Config, s: State, e: Event)
    requires e.CrashDuring?
    ensures LosesMemory(c, s, e)
  {
  }

  lemma MoreArrivals(log: seq<Entry>, n: nat, n': nat)
    requires Linear(log, map[], n) && n <= n'
    ensures Linear(log, map[], n')
  {
  }

  lemma ArrivalsGrow(c: Config, env: Environment, s: State, e: Event)
    requires LinearInv(s) && Enabled(c, env, s, e)
    ensures s.arrivals <= Step(c, env, s, e).arrivals
    ensures e.CrashDuring? ==> s.arrivals <= Step(c, env, s, e.during).arrivals
  {
    hide Linear, Process, Release, HandleSettle, HandleCancel;
    var handled := if e.CrashDuring? then e.during else e;
    match handled
    case Arrive(k, height, choice) => ProcessLinear(c, env, s, k, height, choice);
    case Tick(ev, choice) => TickArrivals(s, ev, choice.keyOrder);
    case SettleRequest(h, id, choice) => RequestArrivals(c, s, h, id, choice);
    case CancelRequest(h, id, choice) => RequestArrivals(c, s, h, id, choice);
    case _ =>
  }

  lemma TickArrivals(s: State, ev: ReleaseEvent, order: seq<HtlcKey>)
    requires LinearInv(s)
    ensures Release(s, ev, order).arrivals == s.arrivals
  {
    hide Linear, DeleteAll, HtlcSet.IsComplete;
    if ev.AcceptTimeout? && ev.hash in s.sets {
      DeleteAllLinear(Popped(s, ev), ev.hash, order, Fail(AcceptTimedOut));
    }
  }

  lemma RequestArrivals(c: Config, s: State, h: Hash, id: seq<byte>, choice: Choice)
    requires LinearInv(s)
    ensures HandleSettle(c, s, h, id, choice).arrivals == HandleCancel(s, h, id, choice).arrivals == s.arrivals
  {
    hide Linear, DeleteAll, CommitAndSettle, SettleReply, CancelReply;
    if h in s.sets {
      CommitLinear(s, h, choice.keyOrder);
      DeleteAllLinear(s, h, choice.keyOrder, Fail(InvoiceNotOpen));
    }
    if CancelReply(s, h, id, choice) == Ok {
      CancelKnowsSet(s, h, id, choice);
    }
  }

  // ----- Over whole runs -----

  lemma {:induction false} RunLinear(c: Config, env: Environment, states: seq<State>, events: seq<Event>, i: nat)
    requires IsRun(c, env, states, events) && i < |states|
    ensures LinearInv(states[i])
  {
    hide Step, Enabled;
    if i > 0 {
      RunLinear(c, env, states, events, i - 1);
      StepLinear(c, env, states[i - 1], events[i - 1]);
    }
  }

  /** In every reachable state no arrival has been resolved twice, none is both resolved and
      waiting, none waits in two places, and the htlcs with waiting arrivals are exactly the htlcs
      of the in-memory sets, each of them in the set of its own hash only. */
  lemma ResolvedAtMostOnce(c: Config, env: Environment, states: seq<State>, events: seq<Event>, i: nat)
    requires IsRun(c, env, states, events) && EnvOk(c, env) && i < |states|
    ensures LinearInv(states[i])
    ensures forall k :: k in states[i].subs <==> env(k).hash in states[i].sets && k in states[i].sets[env(k).hash].htlcs
    ensures forall h, k :: h in states[i].sets && k in states[i].sets[h].htlcs ==> env(k).hash == h
  {
    hide Step, Enabled, Linear, SetsInv, StoreInv, LogInv;
    RunLinear(c, env, states, events, i);
    RunKeepsInv(c, env, states, events, i);
  }

  /** An arrival for which the database could be read is resolved at once or waits in the list of
      its htlc, and stays resolved or waiting as long as the process lives. */
  lemma {:induction false} ArrivalNeverForgotten(c: Config, env: Environment, states: seq<State>, events: seq<Event>,
                                                 i: nat, j: nat)
    requires IsRun(c, env, states, events) && EnvOk(c, env) && i < j < |states|
    requires events[i].Arrive? && events[i].choice.getOk
    requires forall m {:trigger events[m]} :: i < m < j ==> !LosesMemory(c, states[m], events[m])
    ensures Accounted(states[j], states[i].arrivals)
    decreases j
  {
    hide Step, Enabled, Linear, Accounted, LosesMemory, EnvOk, Inv;
    RunLinear(c, env, states, events, j - 1);
    if j == i + 1 {
      RunKeepsInv(c, env, states, events, i);
      ArrivalAccounted(c, env, states[i], events[i]);
    } else {
      ArrivalNeverForgotten(c, env, states, events, i, j - 1);
      StepLinear(c, env, states[j - 1], events[j - 1]);
    }
  }

  lemma ArrivalAccounted(c: Config, env: Environment, s: State, e: Event)
    requires Inv(c, env, s) && LinearInv(s) && e.Arrive? && e.choice.getOk
    ensures Accounted(Step(c, env, s, e), s.arrivals)
  {
    hide Linear, Accounted, Process, DecideOpen, SetsInv, SubsInv, LogInv, RowInv, PaidInv;
    assert !Decide(c, s, e.key, env(e.key), e.height).Inconsistent? by {
      if env(e.key).hash in s.db.invoices {
        assert InvoiceInv(s.db, env(e.key).hash);
        assert HtlcsOf(s.db, env(e.key).hash).Keys != {};
      }
      OpenIsConsistent(c, s, e.key, env(e.key), e.height);
    }
    ProcessLinear(c, env, s, e.key, e.height, e.choice);
  }

  lemma OpenIsConsistent(c: Config, s: State, k: HtlcKey, htlc: Htlc, height: int32)
    ensures !DecideOpen(c, s, k, htlc, height).Inconsistent?
  {
  }
}
