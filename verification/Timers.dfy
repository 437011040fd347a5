/** Timer safety: when a release tick can reach the panic in deleteHtlc, and when it cannot. */
module Timers {
  import opened Types
  import opened SetId
  import opened StatelessData
  import opened Persistence
  import opened Amounts
  import opened Mux
  import opened Registry
  import opened RegistryInvariants
  import opened Timing

  // ----- The timers of a set -----

  predicate HoldFor(ev: ReleaseEvent, h: Hash) {
    ev.HtlcRelease? && ev.hash == h
  }

  predicate AcceptFor(ev: ReleaseEvent, h: Hash) {
    ev.AcceptTimeout? && ev.hash == h
  }

  /** Every pending hold timer of the hash is for an htlc of the set, with one timer per htlc. */
  ghost predicate HoldsMatch(heap: multiset<ReleaseEvent>, h: Hash, htlcs: set<HtlcKey>) {
    && (forall ev :: ev in heap && HoldFor(ev, h) ==> ev.key in htlcs && heap[ev] == 1)
    && (forall ev, ev' :: ev in heap && ev' in heap && HoldFor(ev, h) && HoldFor(ev', h) && ev.key == ev'.key ==>
      ev == ev')
  }

  /** Every htlc of the set has a pending hold timer. */
  ghost predicate AllHeld(heap: multiset<ReleaseEvent>, h: Hash, htlcs: set<HtlcKey>) {
    forall k :: k in htlcs ==> exists ev :: ev in heap && HoldFor(ev, h) && ev.key == k
  }

  ghost predicate NoAcceptTimer(heap: multiset<ReleaseEvent>, h: Hash) {
    forall ev :: ev in heap ==> !AcceptFor(ev, h)
  }

  /** Exactly one accept timer is pending, for this time. */
  ghost predicate OneAcceptTimer(heap: multiset<ReleaseEvent>, h: Hash, at: Time) {
    && heap[AcceptTimeout(h, at)] == 1
    && forall ev :: ev in heap && AcceptFor(ev, h) ==> ev == AcceptTimeout(h, at)
  }

  /** The hold timers of an incomplete set and its htlcs are in bijection and there is no accept
      timer; the hold timers of a complete set are for some of its htlcs, next to its one accept
      timer. */
  ghost predicate SetTimers(c: Config, heap: multiset<ReleaseEvent>, h: Hash, s: HtlcSet) {
    && HoldsMatch(heap, h, s.htlcs.Keys)
    && (s.completed.None? ==> AllHeld(heap, h, s.htlcs.Keys) && NoAcceptTimer(heap, h))
    && (s.completed.Some? ==> OneAcceptTimer(heap, h, s.completed.value.at + c.acceptTimeout))
  }

  ghost predicate TimersInv(c: Config, sets: map<Hash, HtlcSet>, heap: multiset<ReleaseEvent>) {
    forall h :: h in sets ==> SetTimers(c, heap, h, sets[h])
  }

  ghost predicate NoTimers(heap: multiset<ReleaseEvent>, h: Hash) {
    forall ev :: ev in heap ==> ev.hash != h
  }

  /** Timers of other hashes do not matter. */
  lemma OtherTimers(c: Config, heap: multiset<ReleaseEvent>, heap': multiset<ReleaseEvent>, h: Hash, s: HtlcSet)
    requires SetTimers(c, heap, h, s)
    requires forall ev: ReleaseEvent :: ev.hash == h ==> heap[ev] == heap'[ev]
    ensures SetTimers(c, heap', h, s)
  {
    assert forall ev: ReleaseEvent :: ev.hash == h ==> (ev in heap <==> ev in heap');
    if s.completed.None? {
      forall k | k in s.htlcs.Keys ensures exists ev :: ev in heap' && HoldFor(ev, h) && ev.key == k {
        var ev :| ev in heap && HoldFor(ev, h) && ev.key == k;
        assert ev in heap';
      }
    }
  }

  // ----- Adding an htlc -----

  lemma HoldTimerAdded(heap: multiset<ReleaseEvent>, h: Hash, htlcs: set<HtlcKey>, ev: ReleaseEvent)
    requires HoldsMatch(heap, h, htlcs) && AllHeld(heap, h, htlcs) && NoAcceptTimer(heap, h)
    requires HoldFor(ev, h) && ev.key !in htlcs
    ensures var heap' := heap + multiset{ev};
            HoldsMatch(heap', h, htlcs + {ev.key}) && AllHeld(heap', h, htlcs + {ev.key}) && NoAcceptTimer(heap', h)
  {
    var heap' := heap + multiset{ev};
    forall k | k in htlcs + {ev.key} ensures exists e :: e in heap' && HoldFor(e, h) && e.key == k {
      if k != ev.key {
        var e :| e in heap && HoldFor(e, h) && e.key == k;
        assert e in heap';
      } else {
        assert ev in heap';
      }
    }
  }

  lemma AcceptTimerAdded(heap: multiset<ReleaseEvent>, h: Hash, htlcs: set<HtlcKey>, at: Time, more: set<HtlcKey>)
    requires HoldsMatch(heap, h, htlcs) && NoAcceptTimer(heap, h) && htlcs <= more
    ensures var heap' := heap + multiset{AcceptTimeout(h, at)};
            HoldsMatch(heap', h, more) && OneAcceptTimer(heap', h, at)
  {
  }

  lemma NoTimersMatch(heap: multiset<ReleaseEvent>, h: Hash)
    requires NoTimers(heap, h)
    ensures HoldsMatch(heap, h, {}) && AllHeld(heap, h, {}) && NoAcceptTimer(heap, h)
  {
  }

  /** The timers before an htlc is added to an incomplete or a new set. */
  lemma JoinedTimers(c: Config, env: Environment, s: State, k: HtlcKey, invoice: StatelessInvoice, change: Change)
    requires TimersInv(c, s.sets, s.heap)
    requires SetsInv(c, env, s.sets, s.db) && EnvOk(c, env) && Acceptable(c, s, k, env(k), invoice)
    requires env(k).hash !in s.sets ==> NoTimers(s.heap, env(k).hash)
    requires change == (if Extended(s, k, env(k), invoice).IsComplete() then Completed(k, invoice, false) else Held(k,
               invoice))
    ensures SetTimers(c, HeapAfter(c, env, s, change), env(k).hash, Joined(s, k, env(k), invoice))
  {
    hide SetsInv, EnvOk, Acceptable, HtlcSet.IsComplete, HoldsMatch, AllHeld, NoAcceptTimer, OneAcceptTimer;
    var h := env(k).hash;
    var keys := if h in s.sets then s.sets[h].htlcs.Keys else {};
    OnlyIncompleteGrows(c, env, s, k, invoice);
    NewKey(c, s, k, env(k), invoice);
    if h in s.sets {
      CompletedIsComplete(c, env, s, h);
      assert SetTimers(c, s.heap, h, s.sets[h]);
    } else {
      NoTimersMatch(s.heap, h);
    }
    if change.Held? {
      HoldTimerAdded(s.heap, h, keys, HtlcRelease(h, HoldUntil(c, s.now, invoice.expiry), k));
    } else {
      AcceptTimerAdded(s.heap, h, keys, s.now + c.acceptTimeout, keys + {k});
    }
  }

  lemma NewKey(c: Config, s: State, k: HtlcKey, htlc: Htlc, invoice: StatelessInvoice)
    requires Acceptable(c, s, k, htlc, invoice)
    ensures htlc.hash in s.sets ==> k !in s.sets[htlc.hash].htlcs
    ensures s.now <= invoice.expiry && invoice == DecodeStatelessData(c.privKey, AddrOf(htlc))
    ensures htlc.hash in s.sets ==> s.sets[htlc.hash].paymentAddr == AddrOf(htlc)
  {
  }

  // ----- Firing a timer -----

  /** One hold timer less and one htlc less. */
  lemma HoldTimerFired(heap: multiset<ReleaseEvent>, h: Hash, htlcs: set<HtlcKey>, ev: ReleaseEvent)
    requires HoldsMatch(heap, h, htlcs) && AllHeld(heap, h, htlcs) && NoAcceptTimer(heap, h)
    requires HoldFor(ev, h) && ev in heap
    ensures var heap' := heap - multiset{ev};
            && HoldsMatch(heap', h, htlcs - {ev.key}) && AllHeld(heap', h, htlcs - {ev.key}) && NoAcceptTimer(heap', h)
  {
    var heap' := heap - multiset{ev};
    assert ev !in heap';
    forall k | k in htlcs - {ev.key} ensures exists e :: e in heap' && HoldFor(e, h) && e.key == k {
      var e :| e in heap && HoldFor(e, h) && e.key == k;
      assert e in heap';
    }
    forall e | e in heap' && HoldFor(e, h) ensures e.key in htlcs - {ev.key} && heap'[e] == 1 {
      assert e in heap;
    }
  }

  lemma HoldTimerIgnored(c: Config, heap: multiset<ReleaseEvent>, h: Hash, s: HtlcSet, ev: ReleaseEvent)
    requires SetTimers(c, heap, h, s) && s.completed.Some? && HoldFor(ev, h) && ev in heap
    ensures SetTimers(c, heap - multiset{ev}, h, s)
  {
  }

  lemma FiredTimers(c: Config, env: Environment, s: State, ev: ReleaseEvent)
    requires TimersInv(c, s.sets, s.heap) && SetsInv(c, env, s.sets, s.db) && ev in s.heap
    ensures TimersInv(c, SetsAfter(env, s, Fired(ev)), s.heap - multiset{ev})
  {
    hide SetsInv, HtlcSet.IsComplete, SetTimers;
    var sets', heap' := SetsAfter(env, s, Fired(ev)), s.heap - multiset{ev};
    forall h | h in sets' ensures SetTimers(c, heap', h, sets'[h]) {
      if h != ev.hash {
        OtherTimers(c, s.heap, heap', h, s.sets[h]);
      } else {
        CompletedIsComplete(c, env, s, h);
        if s.sets[h].IsComplete() {
          HoldTimerIgnored(c, s.heap, h, s.sets[h], ev);
        } else {
          ShrunkTimers(c, s.heap, h, s.sets[h], ev);
        }
      }
    }
  }

  lemma ShrunkTimers(c: Config, heap: multiset<ReleaseEvent>, h: Hash, set0: HtlcSet, ev: ReleaseEvent)
    requires SetTimers(c, heap, h, set0) && set0.completed.None? && HoldFor(ev, h) && ev in heap
    ensures SetTimers(c, heap - multiset{ev}, h, set0.(htlcs := set0.htlcs - {ev.key}, since := set0.since - {ev.key}))
  {
    hide HoldsMatch, AllHeld, NoAcceptTimer;
    HoldTimerFired(heap, h, set0.htlcs.Keys, ev);
    assert (set0.htlcs - {ev.key}).Keys == set0.htlcs.Keys - {ev.key};
  }

  // ----- Steps that start a set without timers -----

  /** A new set is started only while no timer for its hash is pending. */
  ghost predicate StartsUntimed(c: Config, env: Environment, s: State, e: Event) {
    var change := ChangeOf(c, env, s, e);
    (change.Held? || change.Completed?) && env(change.key).hash !in s.sets ==> NoTimers(s.heap, env(change.key).hash)
  }

  lemma SetChanged(c: Config, sets: map<Hash, HtlcSet>, heap: multiset<ReleaseEvent>, heap': multiset<ReleaseEvent>,
                   h: Hash, s: HtlcSet)
    requires TimersInv(c, sets, heap) && SetTimers(c, heap', h, s)
    requires forall ev: ReleaseEvent :: ev.hash != h ==> heap[ev] == heap'[ev]
    ensures TimersInv(c, sets[h := s], heap')
  {
    hide SetTimers;
    var sets' := sets[h := s];
    forall h' | h' in sets' ensures SetTimers(c, heap', h', sets'[h']) {
      if h' != h {
        OtherTimers(c, heap, heap', h', sets[h']);
      }
    }
  }

  lemma SetGone(c: Config, sets: map<Hash, HtlcSet>, heap: multiset<ReleaseEvent>, heap': multiset<ReleaseEvent>,
                h: Hash)
    requires TimersInv(c, sets, heap)
    requires forall ev: ReleaseEvent :: ev.hash != h ==> heap[ev] == heap'[ev]
    ensures TimersInv(c, sets - {h}, heap')
  {
    hide SetTimers;
    var sets' := sets - {h};
    forall h' | h' in sets' ensures SetTimers(c, heap', h', sets'[h']) {
      OtherTimers(c, heap, heap', h', sets[h']);
    }
  }

  /** The change is one that an enabled event can cause. */
  lemma AcceptedChange(c: Config, env: Environment, s: State, e: Event)
    requires Inv(c, env, s) && EnvOk(c, env)
    requires ChangeOf(c, env, s, e).Held? || ChangeOf(c, env, s, e).Completed?
    ensures var change := ChangeOf(c, env, s, e);
            && Acceptable(c, s, change.key, env(change.key), change.invoice)
            && (change.Completed? <==> Extended(s, change.key, env(change.key), change.invoice).IsComplete())
            && env(change.key).hash !in s.db.invoices
  {
    hide Inv, EnvOk, Decide, HtlcSet.IsComplete, Extended, Acceptable;
    assert e.Arrive?;
    var invoice := Decide(c, s, e.key, env(e.key), e.height).invoice;
    AcceptFacts(c, env, s, e.key, e.height, invoice);
    NotStored(c, s, e.key, env(e.key), invoice);
  }

  lemma NotStored(c: Config, s: State, k: HtlcKey, htlc: Htlc, invoice: StatelessInvoice)
    requires Acceptable(c, s, k, htlc, invoice)
    ensures htlc.hash !in s.db.invoices
  {
  }

  /** What kind of event causes which change. */
  lemma ChangeCause(c: Config, env: Environment, s: State, e: Event)
    requires Enabled(c, env, s, e)
    ensures var change := ChangeOf(c, env, s, e);
            && (change.Fired? ==> Due(s, change.event))
            && (change.Removed? && !change.settled ==> CancelsSet(s, e))
            && (e.Advance? ==> change.Same?)
  {
    hide SettleReply, Decide, Extended, ProcessHtlc, HtlcSet.IsComplete, SetIdOf;
  }

  lemma JoinKeepsTimers(c: Config, env: Environment, s: State, k: HtlcKey, invoice: StatelessInvoice, change: Change)
    requires TimersInv(c, s.sets, s.heap)
    requires SetsInv(c, env, s.sets, s.db) && EnvOk(c, env) && Acceptable(c, s, k, env(k), invoice)
    requires env(k).hash !in s.sets ==> NoTimers(s.heap, env(k).hash)
    requires change == (if Extended(s, k, env(k), invoice).IsComplete() then Completed(k, invoice, false) else Held(k,
               invoice))
    ensures TimersInv(c, SetsAfter(env, s, change), HeapAfter(c, env, s, change))
  {
    hide TimersInv, SetsInv, EnvOk, Joined, Extended, SetTimers, HtlcSet.IsComplete, Acceptable, NoTimers;
    JoinedTimers(c, env, s, k, invoice, change);
    SetChanged(c, s.sets, s.heap, HeapAfter(c, env, s, change), env(k).hash, Joined(s, k, env(k), invoice));
  }

  lemma ChangeKeepsTimers(c: Config, env: Environment, s: State, e: Event)
    requires Inv(c, env, s) && EnvOk(c, env) && Enabled(c, env, s, e)
    requires TimersInv(c, s.sets, s.heap) && StartsUntimed(c, env, s, e)
    ensures TimersInv(c, SetsAfter(env, s, ChangeOf(c, env, s, e)), HeapAfter(c, env, s, ChangeOf(c, env, s, e)))
  {
    hide Inv, EnvOk, TimersInv, SetsInv, SubsInv, Joined, Extended, HtlcSet.IsComplete, Acceptable, ChangeOf, NoTimers,
      Enabled, Without;
    var change := ChangeOf(c, env, s, e);
    InvHasSets(c, env, s);
    ChangeCause(c, env, s, e);
    match change
    case Same =>
    case Held(k, invoice) =>
      AcceptedChange(c, env, s, e);
      JoinKeepsTimers(c, env, s, k, invoice, change);
    case Completed(k, invoice, settled) =>
      AcceptedChange(c, env, s, e);
      if settled {
        SetGone(c, s.sets, s.heap, HeapAfter(c, env, s, change), env(k).hash);
      } else {
        JoinKeepsTimers(c, env, s, k, invoice, change);
      }
    case Removed(h, _) => SetGone(c, s.sets, s.heap, s.heap, h);
    case Fired(ev) => FiredTimers(c, env, s, ev);
    case Lost => NoSetsNoTimers(c);
  }

  lemma NoSetsNoTimers(c: Config)
    ensures TimersInv(c, map[], multiset{})
  {
  }

  lemma UntimedStep(c: Config, env: Environment, s: State, e: Event)
    requires Inv(c, env, s) && EnvOk(c, env) && Enabled(c, env, s, e)
    requires TimersInv(c, s.sets, s.heap) && StartsUntimed(c, env, s, e)
    ensures !Panics(s, e)
    ensures TimersInv(c, Step(c, env, s, e).sets, Step(c, env, s, e).heap)
  {
    hide Inv, EnvOk, TimersInv, SetsAfter, HeapAfter, StartsUntimed, ChangeOf, Process, Release, HandleSettle,
      HandleCancel, Mark;
    NoPanic(c, env, s, e);
    if e.CrashDuring? {
      NoSetsNoTimers(c);
    } else {
      StepEffect(c, env, s, e);
      ChangeKeepsTimers(c, env, s, e);
    }
  }

  lemma NoPanic(c: Config, env: Environment, s: State, e: Event)
    requires Inv(c, env, s) && Enabled(c, env, s, e) && TimersInv(c, s.sets, s.heap)
    ensures !Panics(s, e)
  {
    hide Inv, AllHeld, NoAcceptTimer, OneAcceptTimer, HtlcSet.IsComplete;
    if e.Tick? && e.event.HtlcRelease? && e.event.hash in s.sets {
      assert SetTimers(c, s.heap, e.event.hash, s.sets[e.event.hash]);
      assert HoldFor(e.event, e.event.hash);
    }
  }

  // ----- Runs without cancels -----

  /** An operator cancel takes effect in this step. */
  ghost predicate CancelsSet(s: State, e: Event) {
    e.CancelRequest? && CancelReply(s, e.hash, e.id, e.choice) == Ok
  }

  ghost predicate CancelFree(states: seq<State>, events: seq<Event>)
    requires |states| == |events| + 1
  {
    forall i {:trigger events[i]} :: 0 <= i < |events| ==> !CancelsSet(states[i], events[i])
  }

  /** Timers are pending only for hashes in memory or in the database, no hold timer is further
      away than the hold duration, and those of a complete set fire before its accept timer. */
  ghost predicate QuietInv(c: Config, s: State) {
    && (forall ev :: ev in s.heap ==> ev.hash in s.sets || ev.hash in s.db.invoices)
    && (forall ev :: ev in s.heap && ev.HtlcRelease? ==> ev.releaseTime <= s.now + c.holdDuration)
    && (forall ev :: ev in s.heap && ev.HtlcRelease? && ev.hash in s.sets && s.sets[ev.hash].completed.Some? ==>
          ev.releaseTime < s.sets[ev.hash].completed.value.at + c.acceptTimeout)
  }

  lemma QuietIsUntimed(c: Config, env: Environment, s: State, e: Event)
    requires Inv(c, env, s) && EnvOk(c, env) && QuietInv(c, s)
    ensures StartsUntimed(c, env, s, e)
  {
    hide Inv, EnvOk, ChangeOf, Acceptable, Extended, HtlcSet.IsComplete;
    var change := ChangeOf(c, env, s, e);
    if change.Held? || change.Completed? {
      AcceptedChange(c, env, s, e);
    }
  }

  /** This is the only pending timer of its hash. */
  ghost predicate OnlyTimer(heap: multiset<ReleaseEvent>, ev: ReleaseEvent) {
    heap[ev] == 1 && forall other :: other in heap && other.hash == ev.hash ==> other == ev
  }

  lemma OnlyTimerFired(heap: multiset<ReleaseEvent>, ev: ReleaseEvent)
    requires OnlyTimer(heap, ev)
    ensures NoTimers(heap - multiset{ev}, ev.hash)
  {
    assert forall other :: other in heap - multiset{ev} ==> other in heap;
  }

  /** An accept timer at the top of the heap is the last timer of its hash. */
  lemma TimeoutIsLast(c: Config, s: State, ev: ReleaseEvent)
    requires TimersInv(c, s.sets, s.heap) && QuietInv(c, s) && Due(s, ev)
    requires ev.AcceptTimeout? && ev.hash in s.sets
    ensures OnlyTimer(s.heap, ev)
  {
    hide AllHeld;
    var set0 := s.sets[ev.hash];
    assert SetTimers(c, s.heap, ev.hash, set0);
    assert AcceptFor(ev, ev.hash);
    assert set0.completed.Some? && s.heap[ev] == 1;
    assert forall other :: other in s.heap && other.hash == ev.hash ==> AcceptFor(other, ev.hash);
  }

  /** The hold timer of the only htlc of a set is the last timer of its hash. */
  lemma LastHoldIsLast(c: Config, s: State, ev: ReleaseEvent)
    requires TimersInv(c, s.sets, s.heap) && ev in s.heap && ev.HtlcRelease? && ev.hash in s.sets
    requires s.sets[ev.hash].completed.None? && s.sets[ev.hash].htlcs - {ev.key} == map[]
    ensures OnlyTimer(s.heap, ev)
  {
    hide AllHeld, OneAcceptTimer;
    var htlcs := s.sets[ev.hash].htlcs;
    assert SetTimers(c, s.heap, ev.hash, s.sets[ev.hash]);
    assert HoldFor(ev, ev.hash);
    assert forall k :: k in htlcs ==> k in htlcs - {ev.key} || k == ev.key;
    assert forall other :: other in s.heap && other.hash == ev.hash ==>
             !AcceptFor(other, ev.hash) && HoldFor(other, ev.hash);
  }

  lemma FiredQuiet(c: Config, env: Environment, s: State, ev: ReleaseEvent, s': State)
    requires TimersInv(c, s.sets, s.heap) && QuietInv(c, s) && Due(s, ev) && SetsInv(c, env, s.sets, s.db)
    requires HasEffect(c, env, s, Fired(ev), s') && s'.now == s.now
    ensures QuietInv(c, s')
  {
    hide TimersInv, SetsInv, HtlcSet.IsComplete;
    assert forall e :: e in s'.heap ==> e in s.heap;
    if ev.hash in s.sets {
      CompletedIsComplete(c, env, s, ev.hash);
    }
    forall e | e in s'.heap ensures e.hash in s'.sets || e.hash in s'.db.invoices {
      if e.hash == ev.hash && ev.hash in s.sets && ev.hash !in s'.sets {
        if ev.AcceptTimeout? {
          TimeoutIsLast(c, s, ev);
        } else {
          LastHoldIsLast(c, s, ev);
        }
        OnlyTimerFired(s.heap, ev);
      }
    }
  }

  /** An htlc is held: its timer is near, and its set is not complete. */
  lemma HeldQuiet(c: Config, env: Environment, s: State, k: HtlcKey, invoice: StatelessInvoice, s': State)
    requires QuietInv(c, s) && Joined(s, k, env(k), invoice).completed.None?
    requires HasEffect(c, env, s, Held(k, invoice), s') && s'.now == s.now
    ensures QuietInv(c, s')
  {
    hide Joined, HtlcSet.IsComplete;
    var new0 := HtlcRelease(env(k).hash, HoldUntil(c, s.now, invoice.expiry), k);
    assert forall ev :: ev in s'.heap ==> ev in s.heap || ev == new0;
  }

  /** A set is complete: its hold timers are nearer than its accept timer. */
  lemma CompletedQuiet(c: Config, env: Environment, s: State, k: HtlcKey, invoice: StatelessInvoice, settled: bool,
                       s': State)
    requires QuietInv(c, s) && c.acceptTimeout > c.holdDuration
    requires Joined(s, k, env(k), invoice).completed == Some(Completion(s.completions, s.now))
    requires HasEffect(c, env, s, Completed(k, invoice, settled), s') && s'.now == s.now
    ensures QuietInv(c, s')
  {
    hide Joined, HtlcSet.IsComplete;
    var new0 := AcceptTimeout(env(k).hash, s.now + c.acceptTimeout);
    assert forall ev :: ev in s'.heap ==> ev in s.heap || ev == new0;
  }

  lemma JoinedQuiet(c: Config, env: Environment, s: State, e: Event, s': State)
    requires Inv(c, env, s) && EnvOk(c, env) && QuietInv(c, s) && c.acceptTimeout > c.holdDuration
    requires ChangeOf(c, env, s, e).Held? || ChangeOf(c, env, s, e).Completed?
    requires HasEffect(c, env, s, ChangeOf(c, env, s, e), s') && s'.now == s.now
    ensures QuietInv(c, s')
  {
    hide Inv, EnvOk, ChangeOf, Acceptable, HtlcSet.IsComplete, HasEffect, QuietInv, SetsInv, SubsInv, Extended;
    var change := ChangeOf(c, env, s, e);
    AcceptedChange(c, env, s, e);
    InvHasSets(c, env, s);
    OnlyIncompleteGrows(c, env, s, change.key, change.invoice);
    if change.Held? {
      HeldQuiet(c, env, s, change.key, change.invoice, s');
    } else {
      CompletedQuiet(c, env, s, change.key, change.invoice, change.settled, s');
    }
  }

  lemma QuietStep(c: Config, env: Environment, s: State, e: Event)
    requires Inv(c, env, s) && EnvOk(c, env) && Enabled(c, env, s, e)
    requires TimersInv(c, s.sets, s.heap) && QuietInv(c, s) && c.acceptTimeout > c.holdDuration && !CancelsSet(s, e)
    ensures QuietInv(c, Step(c, env, s, e))
  {
    hide Inv, EnvOk, TimersInv, SetsInv, SubsInv, QuietInv, CancelsSet, ChangeOf, Step, Enabled, Due, Joined, Without;
    var s' := Step(c, env, s, e);
    if e.CrashDuring? {
      CrashQuiet(c, env, s, e);
    } else {
      var change := ChangeOf(c, env, s, e);
      StepEffect(c, env, s, e);
      ChangeCause(c, env, s, e);
      InvHasSets(c, env, s);
      match change
      case Same =>
        TimeMoves(c, env, s, e);
        SameQuiet(c, s, s');
      case Held(_, _) => JoinedQuiet(c, env, s, e, s');
      case Completed(_, _, _) => JoinedQuiet(c, env, s, e, s');
      case Removed(h, settled) => RemovedQuiet(c, env, s, h, s');
      case Fired(ev) => FiredQuiet(c, env, s, ev, s');
      case Lost => NothingPending(c, s');
    }
  }

  lemma TimeMoves(c: Config, env: Environment, s: State, e: Event)
    requires Enabled(c, env, s, e)
    ensures e.Advance? ==> s.now <= e.to
  {
  }

  lemma NothingPending(c: Config, s: State)
    requires s.heap == multiset{}
    ensures QuietInv(c, s)
  {
  }

  lemma CrashQuiet(c: Config, env: Environment, s: State, e: Event)
    requires e.CrashDuring?
    ensures QuietInv(c, Step(c, env, s, e)) && Step(c, env, s, e).sets == map[] && Step(c, env, s, e).heap == multiset{}
  {
    hide Process, Release, HandleSettle, HandleCancel, Mark, AddSubscriber;
  }

  lemma SameQuiet(c: Config, s: State, s': State)
    requires QuietInv(c, s) && s'.sets == s.sets && s'.heap == s.heap && s.now <= s'.now
    requires forall h :: h in s.db.invoices ==> h in s'.db.invoices
    ensures QuietInv(c, s')
  {
  }

  lemma RemovedQuiet(c: Config, env: Environment, s: State, h: Hash, s': State)
    requires QuietInv(c, s) && HasEffect(c, env, s, Removed(h, true), s') && s'.now == s.now
    ensures QuietInv(c, s')
  {
  }

  lemma {:induction false} QuietRun(c: Config, env: Environment, states: seq<State>, events: seq<Event>, i: nat)
    requires IsRun(c, env, states, events) && EnvOk(c, env) && CancelFree(states, events) && i < |states|
    requires c.acceptTimeout > c.holdDuration
    ensures TimersInv(c, states[i].sets, states[i].heap) && QuietInv(c, states[i])
  {
    hide Step, Enabled, Inv, EnvOk, StartsUntimed, CancelsSet, QuietInv, TimersInv;
    if i == 0 {
      NoSetsNoTimers(c);
      NothingPending(c, states[0]);
    } else {
      QuietRun(c, env, states, events, i - 1);
      RunKeepsInv(c, env, states, events, i - 1);
      QuietIsUntimed(c, env, states[i - 1], events[i - 1]);
      UntimedStep(c, env, states[i - 1], events[i - 1]);
      QuietStep(c, env, states[i - 1], events[i - 1]);
    }
  }

  /** In every run without operator cancels, and with an accept timeout longer than the hold
      duration, no release tick panics; the timers of every set are as SetTimers says; and no
      timer is pending for a hash that is neither in memory nor in the database. */
  lemma TimerSafety(c: Config, env: Environment, states: seq<State>, events: seq<Event>, i: nat)
    requires IsRun(c, env, states, events) && EnvOk(c, env) && CancelFree(states, events) && i < |states|
    requires c.acceptTimeout > c.holdDuration
    ensures i < |events| ==> !Panics(states[i], events[i])
    ensures forall h :: h in states[i].sets ==> SetTimers(c, states[i].heap, h, states[i].sets[h])
    ensures forall h :: h !in states[i].sets && h !in states[i].db.invoices ==> NoTimers(states[i].heap, h)
  {
    hide Step, Inv, EnvOk;
    QuietRun(c, env, states, events, i);
    RunKeepsInv(c, env, states, events, i);
    if i < |events| {
      NoPanic(c, env, states[i], events[i]);
    }
  }
}
