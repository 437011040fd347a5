/** Timers act on the set they were started for, and not before its time: the condition for that,
    and what it implies for panics and for the failures that timers cause. */
module Punctuality {
  import opened Types
  import opened StatelessData
  import opened Persistence
  import opened Mux
  import opened Registry
  import opened RegistryInvariants
  import opened Timing
  import opened Timers
  import opened Holding

  /** The event starts a new set for this hash. */
  ghost predicate Starts(c: Config, env: Environment, s: State, e: Event, h: Hash) {
    var change := ChangeOf(c, env, s, e);
    (change.Held? || change.Completed?) && env(change.key).hash == h && h !in s.sets
  }

  /** Timers of other hashes are the same. */
  ghost predicate SameTimers(heap: multiset<ReleaseEvent>, heap': multiset<ReleaseEvent>, h: Hash) {
    forall ev: ReleaseEvent :: ev.hash == h ==> heap[ev] == heap'[ev]
  }

  // ----- Hold timers -----

  ghost predicate NoHoldTimer(heap: multiset<ReleaseEvent>, h: Hash) {
    forall ev :: ev in heap ==> !HoldFor(ev, h)
  }

  /** Every pending hold timer of the hash is the only one for an htlc of the set, and is set to its
      deadline. */
  ghost predicate OwnHolds(c: Config, heap: multiset<ReleaseEvent>, h: Hash, s: HtlcSet) {
    forall ev :: ev in heap && HoldFor(ev, h) ==>
      heap[ev] == 1 && ev.key in s.htlcs && ev.key in s.since && ev.releaseTime == Deadline(c, s, ev.key)
  }

  ghost predicate HoldsInv(c: Config, sets: map<Hash, HtlcSet>, heap: multiset<ReleaseEvent>) {
    forall h :: h in sets ==> OwnHolds(c, heap, h, sets[h])
  }

  /** A new set is started only while no hold timer for its hash is pending. */
  ghost predicate StartsClean(c: Config, env: Environment, s: State, e: Event) {
    forall h :: Starts(c, env, s, e, h) ==> NoHoldTimer(s.heap, h)
  }

  lemma OtherHolds(c: Config, sets: map<Hash, HtlcSet>, heap: multiset<ReleaseEvent>,
                   sets': map<Hash, HtlcSet>, heap': multiset<ReleaseEvent>, h: Hash)
    requires HoldsInv(c, sets, heap)
    requires forall h' :: h' in sets' && h' != h ==> h' in sets && sets'[h'] == sets[h'] && SameTimers(heap, heap', h')
    requires h in sets' ==> OwnHolds(c, heap', h, sets'[h])
    ensures HoldsInv(c, sets', heap')
  {
    hide Deadline;
  }

  /** The timers and deadlines of a set that an htlc joins. */
  lemma JoinedHolds(c: Config, env: Environment, s: State, k: HtlcKey, invoice: StatelessInvoice, change: Change)
    requires HoldsInv(c, s.sets, s.heap) && (env(k).hash !in s.sets ==> NoHoldTimer(s.heap, env(k).hash))
    requires SetsInv(c, env, s.sets, s.db) && EnvOk(c, env) && Acceptable(c, s, k, env(k), invoice)
    requires change == Held(k, invoice) || change == Completed(k, invoice, false)
    ensures OwnHolds(c, HeapAfter(c, env, s, change), env(k).hash, Joined(s, k, env(k), invoice))
  {
    hide SetsInv, EnvOk, Acceptable, HtlcSet.IsComplete, Joined, Extended, DecodeStatelessData;
    var h, set1 := env(k).hash, Joined(s, k, env(k), invoice);
    JoinedFields(c, env, s, k, invoice);
    if h in s.sets {
      assert OwnHolds(c, s.heap, h, s.sets[h]);
    }
    JoinedDeadlines(c, s.heap, h, if h in s.sets then Some(s.sets[h]) else None, set1, k, s.now, change,
      HeapAfter(c, env, s, change));
  }

  lemma JoinedDeadlines(c: Config, heap: multiset<ReleaseEvent>, h: Hash, set0: Option<HtlcSet>, set1: HtlcSet,
                        k: HtlcKey, now: Time, change: Change, heap': multiset<ReleaseEvent>)
    requires set0.None? ==> NoHoldTimer(heap, h)
    requires set0.Some? ==>
               && OwnHolds(c, heap, h, set0.value) && k !in set0.value.htlcs
               && set0.value.paymentAddr == set1.paymentAddr
    requires set1.since == (if set0.Some? then set0.value.since else map[])[k := now]
    requires set1.htlcs.Keys == (if set0.Some? then set0.value.htlcs.Keys else {}) + {k}
    requires heap' == heap + multiset{HtlcRelease(h, HoldUntil(c, now, ExpiryOf(c, set1)), k)} ||
             exists at :: heap' == heap + multiset{AcceptTimeout(h, at)}
    ensures OwnHolds(c, heap', h, set1)
  {
    hide HoldUntil, Deadline, ExpiryOf;
    HoldUntilDeadline(c, set1, k, now);
    forall ev | ev in heap' && HoldFor(ev, h)
      ensures heap'[ev] == 1 && ev.key in set1.htlcs && ev.key in set1.since
      ensures ev.releaseTime == Deadline(c, set1, ev.key)
    {
      if ev in heap {
        assert set0.Some? && ev.key in set0.value.htlcs;
        SameDeadline(c, set0.value, set1, ev.key);
      }
    }
  }

  lemma FiredHolds(c: Config, env: Environment, s: State, ev: ReleaseEvent)
    requires HoldsInv(c, s.sets, s.heap) && ev in s.heap
    ensures HoldsInv(c, SetsAfter(env, s, Fired(ev)), s.heap - multiset{ev})
  {
    hide HtlcSet.IsComplete, Deadline;
    var h, sets', heap' := ev.hash, SetsAfter(env, s, Fired(ev)), s.heap - multiset{ev};
    if h in sets' {
      assert OwnHolds(c, s.heap, h, s.sets[h]);
      ShrunkHolds(c, s.heap, h, s.sets[h], sets'[h], ev);
    }
    OtherHolds(c, s.sets, s.heap, sets', heap', h);
  }

  lemma ShrunkHolds(c: Config, heap: multiset<ReleaseEvent>, h: Hash, set0: HtlcSet, set1: HtlcSet, ev: ReleaseEvent)
    requires OwnHolds(c, heap, h, set0) && ev in heap && ev.hash == h
    requires set1 == set0 ||
             (ev.HtlcRelease? && set1 == set0.(htlcs := set0.htlcs - {ev.key}, since := set0.since - {ev.key}))
    ensures OwnHolds(c, heap - multiset{ev}, h, set1)
  {
    hide DecodeStatelessData, HoldUntil;
    var heap' := heap - multiset{ev};
    forall e | e in heap' && HoldFor(e, h)
      ensures heap'[e] == 1 && e.key in set1.htlcs && e.key in set1.since && e.releaseTime == Deadline(c, set1, e.key)
    {
      assert e in heap;
      if ev.HtlcRelease? {
        assert HoldFor(ev, h) && heap[ev] == 1;
        assert e != ev;
      }
    }
  }

  lemma ChangeKeepsHolds(c: Config, env: Environment, s: State, e: Event)
    requires Inv(c, env, s) && EnvOk(c, env) && Enabled(c, env, s, e)
    requires HoldsInv(c, s.sets, s.heap) && StartsClean(c, env, s, e)
    ensures HoldsInv(c, SetsAfter(env, s, ChangeOf(c, env, s, e)), HeapAfter(c, env, s, ChangeOf(c, env, s, e)))
  {
    hide Inv, EnvOk, SetsInv, SubsInv, Joined, Extended, HtlcSet.IsComplete, Acceptable, ChangeOf, NoHoldTimer,
      Enabled, Without, OwnHolds;
    var change := ChangeOf(c, env, s, e);
    InvHasSets(c, env, s);
    ChangeCause(c, env, s, e);
    if change.Held? || change.Completed? {
      var k, h := change.key, env(change.key).hash;
      AcceptedChange(c, env, s, e);
      if h !in s.sets {
        assert Starts(c, env, s, e, h);
      }
      if change.Held? || !change.settled {
        JoinedHolds(c, env, s, k, change.invoice, change);
      }
      OtherHolds(c, s.sets, s.heap, SetsAfter(env, s, change), HeapAfter(c, env, s, change), h);
    } else if change.Fired? {
      FiredHolds(c, env, s, change.event);
    } else if change.Removed? {
      OtherHolds(c, s.sets, s.heap, s.sets - {change.hash}, s.heap, change.hash);
    }
  }

  lemma HoldsStep(c: Config, env: Environment, s: State, e: Event)
    requires Inv(c, env, s) && EnvOk(c, env) && Enabled(c, env, s, e)
    requires HoldsInv(c, s.sets, s.heap) && StartsClean(c, env, s, e)
    ensures HoldsInv(c, Step(c, env, s, e).sets, Step(c, env, s, e).heap)
  {
    hide Inv, EnvOk, OwnHolds, SetsAfter, HeapAfter, StartsClean, ChangeOf, Process, Release, HandleSettle,
      HandleCancel, Mark, Enabled;
    if e.CrashDuring? {
      CrashQuiet(c, env, s, e);
    } else {
      StepEffect(c, env, s, e);
      ChangeKeepsHolds(c, env, s, e);
    }
  }

  ghost predicate CleanRun(c: Config, env: Environment, states: seq<State>, events: seq<Event>)
    requires |states| == |events| + 1
  {
    forall i {:trigger events[i]} :: 0 <= i < |events| ==> StartsClean(c, env, states[i], events[i])
  }

  lemma {:induction false} CleanRunHolds(c: Config, env: Environment, states: seq<State>, events: seq<Event>, i: nat)
    requires IsRun(c, env, states, events) && EnvOk(c, env) && CleanRun(c, env, states, events) && i < |states|
    ensures HoldsInv(c, states[i].sets, states[i].heap)
  {
    hide Step, Enabled, Inv, EnvOk, StartsClean, OwnHolds;
    if i > 0 {
      CleanRunHolds(c, env, states, events, i - 1);
      RunKeepsInv(c, env, states, events, i - 1);
      HoldsStep(c, env, states[i - 1], events[i - 1]);
    }
  }

  /** Whatever the configuration and whether or not there are cancels: a run in which no set is
      started while a hold timer for its hash is pending never panics. */
  lemma CleanRunsNeverPanic(c: Config, env: Environment, states: seq<State>, events: seq<Event>, i: nat)
    requires IsRun(c, env, states, events) && EnvOk(c, env) && CleanRun(c, env, states, events) && i < |events|
    ensures !Panics(states[i], events[i])
  {
    hide Step, Inv, EnvOk, HtlcSet.IsComplete, Deadline;
    CleanRunHolds(c, env, states, events, i);
    var s, e := states[i], events[i];
    if e.Tick? && e.event.HtlcRelease? && e.event.hash in s.sets {
      assert OwnHolds(c, s.heap, e.event.hash, s.sets[e.event.hash]);
      assert HoldFor(e.event, e.event.hash);
    }
  }

  // ----- Accept timers -----

  /** Every pending accept timer of the hash was started when the set became complete. */
  ghost predicate OwnAccepts(c: Config, heap: multiset<ReleaseEvent>, h: Hash, s: HtlcSet) {
    forall ev :: ev in heap && AcceptFor(ev, h) ==>
      s.completed.Some? && ev.releaseTime == s.completed.value.at + c.acceptTimeout
  }

  ghost predicate AcceptsInv(c: Config, sets: map<Hash, HtlcSet>, heap: multiset<ReleaseEvent>) {
    forall h :: h in sets ==> OwnAccepts(c, heap, h, sets[h])
  }

  /** A new set is started only while no accept timer for its hash is pending. */
  ghost predicate StartsFresh(c: Config, env: Environment, s: State, e: Event) {
    forall h :: Starts(c, env, s, e, h) ==> NoAcceptTimer(s.heap, h)
  }

  lemma OtherAccepts(c: Config, sets: map<Hash, HtlcSet>, heap: multiset<ReleaseEvent>,
                     sets': map<Hash, HtlcSet>, heap': multiset<ReleaseEvent>, h: Hash)
    requires AcceptsInv(c, sets, heap)
    requires forall h' :: h' in sets' && h' != h ==> h' in sets && sets'[h'] == sets[h'] && SameTimers(heap, heap', h')
    requires h in sets' ==> OwnAccepts(c, heap', h, sets'[h])
    ensures AcceptsInv(c, sets', heap')
  {
  }

  lemma JoinedAccepts(c: Config, env: Environment, s: State, k: HtlcKey, invoice: StatelessInvoice, change: Change)
    requires AcceptsInv(c, s.sets, s.heap) && (env(k).hash !in s.sets ==> NoAcceptTimer(s.heap, env(k).hash))
    requires SetsInv(c, env, s.sets, s.db) && EnvOk(c, env) && Acceptable(c, s, k, env(k), invoice)
    requires change == (if Extended(s, k, env(k), invoice).IsComplete()
                        then Completed(k, invoice, false) else Held(k, invoice))
    ensures OwnAccepts(c, HeapAfter(c, env, s, change), env(k).hash, Joined(s, k, env(k), invoice))
    ensures NoAcceptTimer(s.heap, env(k).hash)
  {
    hide SetsInv, EnvOk, Acceptable, HtlcSet.IsComplete, Joined, Extended, DecodeStatelessData, HoldUntil, ExpiryOf;
    var h := env(k).hash;
    JoinedFields(c, env, s, k, invoice);
    if h in s.sets {
      assert OwnAccepts(c, s.heap, h, s.sets[h]);
    }
  }

  lemma FiredAccepts(c: Config, env: Environment, s: State, ev: ReleaseEvent)
    requires AcceptsInv(c, s.sets, s.heap) && ev in s.heap
    ensures AcceptsInv(c, SetsAfter(env, s, Fired(ev)), s.heap - multiset{ev})
  {
    hide HtlcSet.IsComplete;
    var h, sets', heap' := ev.hash, SetsAfter(env, s, Fired(ev)), s.heap - multiset{ev};
    if h in sets' {
      assert OwnAccepts(c, s.heap, h, s.sets[h]);
      assert sets'[h].completed == s.sets[h].completed;
      assert forall e :: e in heap' ==> e in s.heap;
    }
    OtherAccepts(c, s.sets, s.heap, sets', heap', h);
  }

  lemma ChangeKeepsAccepts(c: Config, env: Environment, s: State, e: Event)
    requires Inv(c, env, s) && EnvOk(c, env) && Enabled(c, env, s, e)
    requires AcceptsInv(c, s.sets, s.heap) && StartsFresh(c, env, s, e)
    ensures AcceptsInv(c, SetsAfter(env, s, ChangeOf(c, env, s, e)), HeapAfter(c, env, s, ChangeOf(c, env, s, e)))
  {
    hide Inv, EnvOk, SetsInv, SubsInv, Joined, Extended, HtlcSet.IsComplete, Acceptable, ChangeOf, NoAcceptTimer,
      Enabled, Without, OwnAccepts;
    var change := ChangeOf(c, env, s, e);
    InvHasSets(c, env, s);
    ChangeCause(c, env, s, e);
    if change.Held? || change.Completed? {
      var k, h := change.key, env(change.key).hash;
      AcceptedChange(c, env, s, e);
      if h !in s.sets {
        assert Starts(c, env, s, e, h);
      }
      if change.Held? || !change.settled {
        JoinedAccepts(c, env, s, k, change.invoice, change);
      }
      OtherAccepts(c, s.sets, s.heap, SetsAfter(env, s, change), HeapAfter(c, env, s, change), h);
    } else if change.Fired? {
      FiredAccepts(c, env, s, change.event);
    } else if change.Removed? {
      OtherAccepts(c, s.sets, s.heap, s.sets - {change.hash}, s.heap, change.hash);
    }
  }

  lemma AcceptsStep(c: Config, env: Environment, s: State, e: Event)
    requires Inv(c, env, s) && EnvOk(c, env) && Enabled(c, env, s, e)
    requires AcceptsInv(c, s.sets, s.heap) && StartsFresh(c, env, s, e)
    ensures AcceptsInv(c, Step(c, env, s, e).sets, Step(c, env, s, e).heap)
  {
    hide Inv, EnvOk, OwnAccepts, SetsAfter, HeapAfter, StartsFresh, ChangeOf, Process, Release, HandleSettle,
      HandleCancel, Mark, Enabled;
    if e.CrashDuring? {
      CrashQuiet(c, env, s, e);
    } else {
      StepEffect(c, env, s, e);
      ChangeKeepsAccepts(c, env, s, e);
    }
  }

  ghost predicate FreshRun(c: Config, env: Environment, states: seq<State>, events: seq<Event>)
    requires |states| == |events| + 1
  {
    forall i {:trigger events[i]} :: 0 <= i < |events| ==> StartsFresh(c, env, states[i], events[i])
  }

  lemma {:induction false} FreshRunAccepts(c: Config, env: Environment, states: seq<State>, events: seq<Event>, i: nat)
    requires IsRun(c, env, states, events) && EnvOk(c, env) && FreshRun(c, env, states, events) && i < |states|
    ensures AcceptsInv(c, states[i].sets, states[i].heap)
  {
    hide Step, Enabled, Inv, EnvOk, StartsFresh, OwnAccepts;
    if i > 0 {
      FreshRunAccepts(c, env, states, events, i - 1);
      RunKeepsInv(c, env, states, events, i - 1);
      AcceptsStep(c, env, states[i - 1], events[i - 1]);
    }
  }

  // ----- Accept timers in runs without cancels -----

  /** There is at most one accept timer per hash, and only for hashes in memory or in the database. */
  ghost predicate SoleAccepts(s: State) {
    && (forall ev :: ev in s.heap && ev.AcceptTimeout? ==>
      s.heap[ev] == 1 && (ev.hash in s.sets || ev.hash in s.db.invoices))
    && (forall ev, ev' ::
          ev in s.heap && ev' in s.heap && ev.AcceptTimeout? && ev'.AcceptTimeout? && ev.hash == ev'.hash ==> ev == ev')
  }

  lemma SoleIsFresh(c: Config, env: Environment, s: State, e: Event)
    requires Inv(c, env, s) && EnvOk(c, env) && SoleAccepts(s)
    ensures StartsFresh(c, env, s, e)
  {
    hide Inv, EnvOk, ChangeOf, Acceptable, Extended, HtlcSet.IsComplete;
    var change := ChangeOf(c, env, s, e);
    if change.Held? || change.Completed? {
      AcceptedChange(c, env, s, e);
    }
  }

  lemma JoinedSole(c: Config, env: Environment, s: State, e: Event, s': State)
    requires Inv(c, env, s) && EnvOk(c, env) && SoleAccepts(s) && AcceptsInv(c, s.sets, s.heap)
    requires ChangeOf(c, env, s, e).Held? || ChangeOf(c, env, s, e).Completed?
    requires HasEffect(c, env, s, ChangeOf(c, env, s, e), s')
    ensures SoleAccepts(s')
  {
    hide Inv, EnvOk, ChangeOf, Acceptable, HtlcSet.IsComplete, SetsInv, SubsInv, Extended, Joined, OwnAccepts;
    var change := ChangeOf(c, env, s, e);
    var h := env(change.key).hash;
    AcceptedChange(c, env, s, e);
    InvHasSets(c, env, s);
    JoinedAccepts(c, env, s, change.key, change.invoice,
                  if change.Held? then change else Completed(change.key, change.invoice, false));
    assert forall h' :: h' in s.sets || h' in s.db.invoices ==> h' in s'.sets || h' in s'.db.invoices;
    assert h in s'.sets || h in s'.db.invoices;
    hide SetsAfter;
  }

  lemma FiredSole(c: Config, env: Environment, s: State, ev: ReleaseEvent, s': State)
    requires SetsInv(c, env, s.sets, s.db) && SoleAccepts(s) && AcceptsInv(c, s.sets, s.heap) && ev in s.heap
    requires HasEffect(c, env, s, Fired(ev), s')
    ensures SoleAccepts(s')
  {
    hide SetsInv, HtlcSet.IsComplete;
    if ev.hash in s.sets {
      CompletedIsComplete(c, env, s, ev.hash);
      assert OwnAccepts(c, s.heap, ev.hash, s.sets[ev.hash]);
    }
    forall e | e in s'.heap && e.AcceptTimeout?
      ensures s'.heap[e] == 1 && (e.hash in s'.sets || e.hash in s'.db.invoices)
    {
      assert e in s.heap;
      assert ev.AcceptTimeout? && e.hash == ev.hash ==> e == ev;
      assert AcceptFor(e, e.hash);
    }
  }

  lemma SoleStep(c: Config, env: Environment, s: State, e: Event)
    requires Inv(c, env, s) && EnvOk(c, env) && Enabled(c, env, s, e) && !CancelsSet(s, e)
    requires SoleAccepts(s) && AcceptsInv(c, s.sets, s.heap)
    ensures SoleAccepts(Step(c, env, s, e))
  {
    hide Inv, EnvOk, AcceptsInv, SetsInv, SubsInv, CancelsSet, ChangeOf, Step, Enabled, Joined, Without,
      HtlcSet.IsComplete;
    var s' := Step(c, env, s, e);
    if e.CrashDuring? {
      CrashQuiet(c, env, s, e);
    } else {
      var change := ChangeOf(c, env, s, e);
      StepEffect(c, env, s, e);
      ChangeCause(c, env, s, e);
      InvHasSets(c, env, s);
      if change.Held? || change.Completed? {
        JoinedSole(c, env, s, e, s');
      } else if change.Fired? {
        FiredSole(c, env, s, change.event, s');
      }
    }
  }

  /** Without operator cancels no set is started while an accept timer for its hash is pending,
      whatever the configuration. */
  lemma {:induction false} CancelFreeIsFresh(c: Config, env: Environment, states: seq<State>, events: seq<Event>,
                                             i: nat)
    requires IsRun(c, env, states, events) && EnvOk(c, env) && CancelFree(states, events) && i < |states|
    ensures AcceptsInv(c, states[i].sets, states[i].heap) && SoleAccepts(states[i])
    ensures i < |events| ==> StartsFresh(c, env, states[i], events[i])
  {
    hide Step, Enabled, Inv, EnvOk, StartsFresh, CancelsSet, OwnAccepts;
    if i > 0 {
      CancelFreeIsFresh(c, env, states, events, i - 1);
      RunKeepsInv(c, env, states, events, i - 1);
      AcceptsStep(c, env, states[i - 1], events[i - 1]);
      SoleStep(c, env, states[i - 1], events[i - 1]);
    }
    RunKeepsInv(c, env, states, events, i);
    if i < |events| {
      SoleIsFresh(c, env, states[i], events[i]);
    }
  }

  // ----- Failures that timers cause -----

  predicate IsTimeout(res: Resolution) {
    res == Fail(MppTimeout) || res == Fail(AcceptTimedOut)
  }

  lemma RejectIsNoTimeout(c: Config, s: State, k: HtlcKey, htlc: Htlc, height: int32)
    ensures Decide(c, s, k, htlc, height).Reject? ==> !IsTimeout(Fail(Decide(c, s, k, htlc, height).outcome))
  {
    hide DecodeStatelessData, ToUint64, ToInt64, NewSetTotal, ExpiresTooSoon;
  }

  lemma ArrivalIsNoTimeout(c: Config, env: Environment, s: State, k: HtlcKey, height: int32, choice: Choice)
    ensures var s' := Process(c, env, s, k, height, choice);
            forall p :: |s.log| <= p < |s'.log| ==> !IsTimeout(s'.log[p].resolution)
  {
    hide Decide, CommitAndSettle, NoticesFor, Admits, HtlcSet.IsComplete, Extended, Inserted, Ordered, Subscribed,
      Emitted;
    RejectIsNoTimeout(c, s, k, env(k), height);
    if choice.getOk && Decide(c, s, k, env(k), height).Accept? {
      var set1 := Extended(s, k, env(k), Decide(c, s, k, env(k), height).invoice);
      var s1 := Complete(c, s, k, env(k), set1, choice.subscriberOrder).(arrivals := s.arrivals + 1);
      SettleIsNoTimeout(s1, env(k).hash, choice.keyOrder);
    }
  }

  lemma SettleIsNoTimeout(s: State, h: Hash, order: seq<HtlcKey>)
    requires h in s.sets
    ensures var s' := CommitAndSettle(s, h, order);
            forall p :: |s.log| <= p < |s'.log| ==> !IsTimeout(s'.log[p].resolution)
  {
    hide CommitAndSettle, Inserted, Ordered, Emitted;
    CommitAndSettleEffect(s, h, order);
    var keys := Ordered(order, s.sets[h].htlcs.Keys);
    EmittedEntries(s.subs, keys, Settle(s.sets[h].preimage, false));
  }

  /** Deleting a set resolves htlcs of the set, all in the same way. */
  lemma DeletedEntries(s: State, h: Hash, order: seq<HtlcKey>, res: Resolution)
    requires h in s.sets
    ensures var s' := DeleteAll(s, h, order, res);
            forall p :: |s.log| <= p < |s'.log| ==> s'.log[p].resolution == res && s'.log[p].key in s.sets[h].htlcs
  {
    hide DeleteAll, Ordered, Emitted;
    DeleteAllEffect(s, h, order, res);
    var keys := Ordered(order, s.sets[h].htlcs.Keys);
    EmittedEntries(s.subs, keys, res);
  }

  /** The timer that a failure comes from. */
  ghost predicate CausedBy(s: State, e: Event, entry: Entry) {
    && e.Tick? && e.event.hash in s.sets && entry.key in s.sets[e.event.hash].htlcs
    && (entry.resolution == Fail(MppTimeout) ==>
          e.event.HtlcRelease? && e.event.key == entry.key && !s.sets[e.event.hash].IsComplete())
    && (entry.resolution == Fail(AcceptTimedOut) ==> e.event.AcceptTimeout?)
  }

  lemma TickCauses(s: State, ev: ReleaseEvent, choice: Choice, p: nat)
    requires |s.log| <= p < |Release(s, ev, choice.keyOrder).log|
    ensures CausedBy(s, Tick(ev, choice), Release(s, ev, choice.keyOrder).log[p])
  {
    hide DeleteAll, HtlcSet.IsComplete;
    if ev.AcceptTimeout? && ev.hash in s.sets {
      DeletedEntries(Popped(s, ev), ev.hash, choice.keyOrder, Fail(AcceptTimedOut));
    }
  }

  lemma TimeoutCause(c: Config, env: Environment, s: State, e: Event, p: nat)
    requires !e.CrashDuring? && |s.log| <= p < |Step(c, env, s, e).log|
    requires IsTimeout(Step(c, env, s, e).log[p].resolution)
    ensures CausedBy(s, e, Step(c, env, s, e).log[p])
  {
    hide Process, Release, DeleteAll, CommitAndSettle, CausedBy, SettleReply, CancelReply, Mark;
    match e
    case Arrive(k, height, choice) => ArrivalIsNoTimeout(c, env, s, k, height, choice);
    case Tick(ev, choice) => TickCauses(s, ev, choice, p);
    case SettleRequest(h, id, choice) =>
      if SettleReply(c, s, h, id, choice) == Ok && h in s.sets {
        SettleIsNoTimeout(s, h, choice.keyOrder);
      }
    case CancelRequest(h, id, choice) =>
      if CancelReply(s, h, id, choice) == Ok {
        CancelKnowsSet(s, h, id, choice);
        DeletedEntries(s, h, choice.keyOrder, Fail(InvoiceNotOpen));
      }
    case _ =>
  }

  /** What is handled in this step, if it is interrupted by a crash or not. */
  function Handled(e: Event): Event {
    if e.CrashDuring? then e.during else e
  }

  lemma RunTimeoutCause(c: Config, env: Environment, states: seq<State>, events: seq<Event>, i: nat, p: nat)
    requires IsRun(c, env, states, events) && i < |events| && |states[i].log| <= p < |states[i + 1].log|
    requires IsTimeout(states[i + 1].log[p].resolution)
    ensures CausedBy(states[i], Handled(events[i]), states[i + 1].log[p])
    ensures Enabled(c, env, states[i], Handled(events[i]))
  {
    hide Process, Release, HandleSettle, HandleCancel, AddSubscriber, Mark, CausedBy, Due, ProcessHtlc;
    TimeoutCause(c, env, states[i], Handled(events[i]), p);
  }

  /** In a clean run an htlc fails with an mpp timeout only at or after its own deadline, which is
      the hold duration after it was accepted or the expiry of the invoice, and only while its set
      is incomplete. */
  lemma MppTimeoutNotEarly(c: Config, env: Environment, states: seq<State>, events: seq<Event>, i: nat, p: nat)
    requires IsRun(c, env, states, events) && EnvOk(c, env) && CleanRun(c, env, states, events)
    requires i < |events| && |states[i].log| <= p < |states[i + 1].log|
    requires states[i + 1].log[p].resolution == Fail(MppTimeout)
    ensures var s, k := states[i], states[i + 1].log[p].key;
            var h := env(k).hash;
            && h in s.sets && k in s.sets[h].htlcs && k in s.sets[h].since && !s.sets[h].IsComplete()
            && (s.now >= s.sets[h].since[k] + c.holdDuration || s.now >= ExpiryOf(c, s.sets[h]))
  {
    hide Step, Inv, EnvOk, HtlcSet.IsComplete, Deadline, ExpiryOf, ProcessHtlc, StartsClean, SetsInv, SubsInv;
    var s, e := states[i], Handled(events[i]);
    RunTimeoutCause(c, env, states, events, i, p);
    CleanRunHolds(c, env, states, events, i);
    RunKeepsInv(c, env, states, events, i);
    InvHasSets(c, env, s);
    assert OwnHolds(c, s.heap, e.event.hash, s.sets[e.event.hash]);
    assert HoldFor(e.event, e.event.hash);
  }

  /** When no set is started while an accept timer for its hash is pending, an htlc fails with an
      accept timeout only when its set is complete and has been for at least the accept timeout. */
  lemma AcceptTimeoutNotEarly(c: Config, env: Environment, states: seq<State>, events: seq<Event>, i: nat, p: nat)
    requires IsRun(c, env, states, events) && EnvOk(c, env) && FreshRun(c, env, states, events)
    requires i < |events| && |states[i].log| <= p < |states[i + 1].log|
    requires states[i + 1].log[p].resolution == Fail(AcceptTimedOut)
    ensures FailedInTime(c, env, states[i], states[i + 1].log[p].key)
  {
    hide Step, Inv, EnvOk, HtlcSet.IsComplete, ProcessHtlc, StartsFresh;
    var s, e := states[i], Handled(events[i]);
    RunTimeoutCause(c, env, states, events, i, p);
    FreshRunAccepts(c, env, states, events, i);
    RunKeepsInv(c, env, states, events, i);
    InvHasSets(c, env, s);
    assert OwnAccepts(c, s.heap, e.event.hash, s.sets[e.event.hash]);
    assert AcceptFor(e.event, e.event.hash);
    CompletedIsComplete(c, env, s, e.event.hash);
  }

  /** The set of the htlc is complete, and has been for at least the accept timeout. */
  ghost predicate FailedInTime(c: Config, env: Environment, s: State, k: HtlcKey) {
    var h := env(k).hash;
    && h in s.sets && k in s.sets[h].htlcs && s.sets[h].IsComplete() && s.sets[h].completed.Some?
    && s.now >= s.sets[h].completed.value.at + c.acceptTimeout
  }

  /** Without operator cancels accept timeouts are never early, whatever the configuration; and with
      an accept timeout longer than the hold duration mpp timeouts are not early either. */
  lemma CancelFreeIsPunctual(c: Config, env: Environment, states: seq<State>, events: seq<Event>, i: nat, p: nat)
    requires IsRun(c, env, states, events) && EnvOk(c, env) && CancelFree(states, events)
    requires i < |events| && |states[i].log| <= p < |states[i + 1].log|
    ensures states[i + 1].log[p].resolution == Fail(AcceptTimedOut) ==>
              FailedInTime(c, env, states[i], states[i + 1].log[p].key)
    ensures states[i + 1].log[p].resolution == Fail(MppTimeout) && c.acceptTimeout > c.holdDuration ==>
              var s, k := states[i], states[i + 1].log[p].key;
              && env(k).hash in s.sets && k in s.sets[env(k).hash].since
              && (s.now >= s.sets[env(k).hash].since[k] + c.holdDuration || s.now >= ExpiryOf(c, s.sets[env(k).hash]))
  {
    hide Step, Enabled, EnvOk, CancelFree, StartsFresh, StartsClean, FailedInTime, Deadline, QuietInv, TimersInv;
    forall j {:trigger events[j]} | 0 <= j < |events| ensures StartsFresh(c, env, states[j], events[j]) {
      CancelFreeIsFresh(c, env, states, events, j);
    }
    if states[i + 1].log[p].resolution == Fail(AcceptTimedOut) {
      AcceptTimeoutNotEarly(c, env, states, events, i, p);
    } else if states[i + 1].log[p].resolution == Fail(MppTimeout) && c.acceptTimeout > c.holdDuration {
      forall j {:trigger events[j]} | 0 <= j < |events| ensures StartsClean(c, env, states[j], events[j]) {
        QuietRun(c, env, states, events, j);
        RunKeepsInv(c, env, states, events, j);
        QuietIsUntimed(c, env, states[j], events[j]);
        UntimedIsClean(c, env, states[j], events[j]);
      }
      MppTimeoutNotEarly(c, env, states, events, i, p);
    }
  }

  lemma UntimedIsClean(c: Config, env: Environment, s: State, e: Event)
    requires StartsUntimed(c, env, s, e)
    ensures StartsClean(c, env, s, e)
  {
    hide ChangeOf;
  }

  // ----- Acceptance times -----

  /** No htlc was accepted in the future. */
  ghost predicate SinceInv(sets: map<Hash, HtlcSet>, now: Time) {
    forall h, k :: h in sets && k in sets[h].since ==> sets[h].since[k] <= now
  }

  lemma SinceStep(c: Config, env: Environment, s: State, e: Event)
    requires Inv(c, env, s) && EnvOk(c, env) && Enabled(c, env, s, e) && SinceInv(s.sets, s.now)
    ensures SinceInv(Step(c, env, s, e).sets, Step(c, env, s, e).now)
  {
    hide Inv, EnvOk, SetsInv, SubsInv, ChangeOf, Step, Enabled, SetsAfter, HeapAfter;
    if e.CrashDuring? {
      CrashQuiet(c, env, s, e);
    } else {
      StepEffect(c, env, s, e);
      TimeMoves(c, env, s, e);
      ChangeSince(c, env, s, e);
    }
  }

  lemma ChangeSince(c: Config, env: Environment, s: State, e: Event)
    requires Inv(c, env, s) && EnvOk(c, env) && SinceInv(s.sets, s.now)
    ensures SinceInv(SetsAfter(env, s, ChangeOf(c, env, s, e)), s.now)
  {
    hide Inv, EnvOk, SetsInv, SubsInv, ChangeOf, Joined, HtlcSet.IsComplete, Acceptable, Extended, ExpiryOf;
    var change := ChangeOf(c, env, s, e);
    if change.Held? || change.Completed? {
      AcceptedChange(c, env, s, e);
      InvHasSets(c, env, s);
      JoinedFields(c, env, s, change.key, change.invoice);
    }
  }

  lemma {:induction false} RunSince(c: Config, env: Environment, states: seq<State>, events: seq<Event>, i: nat)
    requires IsRun(c, env, states, events) && EnvOk(c, env) && i < |states|
    ensures SinceInv(states[i].sets, states[i].now)
  {
    hide Step, Enabled, Inv, EnvOk;
    if i > 0 {
      RunSince(c, env, states, events, i - 1);
      RunKeepsInv(c, env, states, events, i - 1);
      SinceStep(c, env, states[i - 1], events[i - 1]);
    }
  }

  /** A step fails an htlc with an mpp timeout before its deadline. */
  ghost predicate FailsBeforeDeadline(c: Config, env: Environment, s: State, s': State) {
    exists p :: |s.log| <= p < |s'.log| && s'.log[p].resolution == Fail(MppTimeout) &&
      BeforeDeadline(c, env, s, s'.log[p].key)
  }

  ghost predicate BeforeDeadline(c: Config, env: Environment, s: State, k: HtlcKey) {
    var h := env(k).hash;
    && h in s.sets && k in s.sets[h].since
    && s.now < s.sets[h].since[k] + c.holdDuration && s.now < ExpiryOf(c, s.sets[h])
  }

  lemma NotBeforeDeadline(c: Config, env: Environment, states: seq<State>, events: seq<Event>, i: nat)
    requires IsRun(c, env, states, events) && EnvOk(c, env) && CancelFree(states, events) && i < |events|
    requires c.acceptTimeout > c.holdDuration || c.holdDuration == 0
    ensures !FailsBeforeDeadline(c, env, states[i], states[i + 1])
  {
    hide Step, Enabled, EnvOk, CancelFree, FailedInTime, DecodeStatelessData;
    var log := states[i + 1].log;
    forall p | |states[i].log| <= p < |log| && log[p].resolution == Fail(MppTimeout)
      ensures !BeforeDeadline(c, env, states[i], log[p].key)
    {
      RunSince(c, env, states, events, i);
      if c.acceptTimeout > c.holdDuration {
        CancelFreeIsPunctual(c, env, states, events, i, p);
      }
    }
  }
}
