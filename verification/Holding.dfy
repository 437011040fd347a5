/** Bounded holding: when due timers fire before time passes them, no htlc is held for longer than
    the hold duration and the accept timeout together. */
module Holding {
  import opened Types
  import opened StatelessData
  import opened Registry
  import opened RegistryInvariants
  import opened Timing
  import opened Timers

  /** The clock does not pass a pending timer. */
  ghost predicate Timely(s: State, e: Event) {
    e.Advance? ==> forall ev :: ev in s.heap ==> e.to <= ev.releaseTime
  }

  function ExpiryOf(c: Config, s: HtlcSet): Time {
    DecodeStatelessData(c.privKey, s.paymentAddr).expiry
  }

  /** A hold timer for the htlc is pending, no later than the deadline. */
  ghost predicate HeldUntil(heap: multiset<ReleaseEvent>, h: Hash, k: HtlcKey, deadline: Time) {
    exists ev :: ev in heap && HoldFor(ev, h) && ev.key == k && ev.releaseTime <= deadline
  }

  /** The deadline of an htlc in an incomplete set: the hold duration after it was accepted or the
      expiry of the invoice, whichever comes first. */
  function Deadline(c: Config, s: HtlcSet, k: HtlcKey): (d: Time)
    requires k in s.since
    ensures d <= s.since[k] + c.holdDuration && d <= ExpiryOf(c, s)
    ensures d == s.since[k] + c.holdDuration || d == ExpiryOf(c, s)
  {
    var held, expiry := s.since[k] + c.holdDuration, ExpiryOf(c, s);
    if held <= expiry then held else expiry
  }

  /** The hold timer of an htlc is started for its deadline. */
  lemma HoldUntilDeadline(c: Config, s: HtlcSet, k: HtlcKey, now: Time)
    requires k in s.since && s.since[k] == now
    ensures HoldUntil(c, now, ExpiryOf(c, s)) == Deadline(c, s, k)
  {
    hide ExpiryOf;
  }

  lemma SameDeadline(c: Config, s: HtlcSet, s': HtlcSet, k: HtlcKey)
    requires k in s.since && k in s'.since && s.since[k] == s'.since[k] && s.paymentAddr == s'.paymentAddr
    ensures Deadline(c, s, k) == Deadline(c, s', k)
  {
  }

  ghost predicate SetDeadlines(c: Config, heap: multiset<ReleaseEvent>, h: Hash, s: HtlcSet) {
    && s.since.Keys == s.htlcs.Keys
    && (s.completed.None? ==> forall k :: k in s.since ==> HeldUntil(heap, h, k, Deadline(c, s, k)))
    && (s.completed.Some? ==>
          && AcceptTimeout(h, s.completed.value.at + c.acceptTimeout) in heap
          && forall k :: k in s.since ==> s.completed.value.at <= s.since[k] + c.holdDuration)
  }

  ghost predicate HoldingInv(c: Config, s: State) {
    && (forall ev :: ev in s.heap ==> s.now <= ev.releaseTime)
    && (forall h :: h in s.sets ==> SetDeadlines(c, s.heap, h, s.sets[h]))
  }

  /** More timers, or other timers, do no harm. */
  lemma DeadlinesKept(c: Config, heap: multiset<ReleaseEvent>, heap': multiset<ReleaseEvent>, h: Hash, s: HtlcSet)
    requires SetDeadlines(c, heap, h, s)
    requires forall ev :: ev in heap && ev.hash == h ==> ev in heap'
    ensures SetDeadlines(c, heap', h, s)
  {
    hide HoldUntil, DecodeStatelessData;
    if s.completed.None? {
      forall k | k in s.since ensures HeldUntil(heap', h, k, Deadline(c, s, k)) {
        var ev :| ev in heap && HoldFor(ev, h) && ev.key == k && ev.releaseTime <= Deadline(c, s, k);
        assert ev in heap';
      }
    }
  }

  lemma {:induction false} OtherSetsKept(c: Config, s: State, s': State, h: Hash)
    requires HoldingInv(c, s)
    requires forall h' :: h' in s'.sets && h' != h ==> h' in s.sets && s'.sets[h'] == s.sets[h']
    requires forall ev :: ev in s.heap && ev.hash != h ==> ev in s'.heap
    requires h in s'.sets ==> SetDeadlines(c, s'.heap, h, s'.sets[h])
    requires forall ev :: ev in s'.heap ==> s'.now <= ev.releaseTime
    ensures HoldingInv(c, s')
  {
    hide SetDeadlines;
    forall h' | h' in s'.sets ensures SetDeadlines(c, s'.heap, h', s'.sets[h']) {
      if h' != h {
        DeadlinesKept(c, s.heap, s'.heap, h', s.sets[h']);
      }
    }
  }

  // ----- Adding an htlc -----

  /** The fields of the set that an htlc joins. */
  lemma JoinedFields(c: Config, env: Environment, s: State, k: HtlcKey, invoice: StatelessInvoice)
    requires SetsInv(c, env, s.sets, s.db) && EnvOk(c, env) && Acceptable(c, s, k, env(k), invoice)
    ensures var set1 := Joined(s, k, env(k), invoice);
            var h := env(k).hash;
            && set1.since == (if h in s.sets then s.sets[h].since else map[])[k := s.now]
            && set1.htlcs.Keys == (if h in s.sets then s.sets[h].htlcs.Keys else {}) + {k}
            && set1.completed == (if Extended(s, k, env(k), invoice).IsComplete()
                                  then Some(Completion(s.completions, s.now)) else None)
            && ExpiryOf(c, set1) == invoice.expiry && s.now <= invoice.expiry
            && (h in s.sets ==>
                  && s.sets[h].completed.None? && k !in s.sets[h].htlcs
                  && s.sets[h].paymentAddr == set1.paymentAddr)
  {
    hide SetsInv, EnvOk, HtlcSet.IsComplete, Acceptable;
    OnlyIncompleteGrows(c, env, s, k, invoice);
    NewKey(c, s, k, env(k), invoice);
    if env(k).hash in s.sets {
      CompletedIsComplete(c, env, s, env(k).hash);
    }
  }

  lemma HeldDeadlines(c: Config, env: Environment, s: State, k: HtlcKey, invoice: StatelessInvoice, set1: HtlcSet,
                      heap': multiset<ReleaseEvent>)
    requires HoldingInv(c, s) && set1.completed.None? && s.now <= invoice.expiry == ExpiryOf(c, set1)
    requires set1.since == (if env(k).hash in s.sets then s.sets[env(k).hash].since else map[])[k := s.now]
    requires set1.htlcs.Keys == (if env(k).hash in s.sets then s.sets[env(k).hash].htlcs.Keys else {}) + {k}
    requires env(k).hash in s.sets ==>
               && s.sets[env(k).hash].completed.None? && k !in s.sets[env(k).hash].htlcs
               && s.sets[env(k).hash].paymentAddr == set1.paymentAddr
    requires heap' == s.heap + multiset{HtlcRelease(env(k).hash, HoldUntil(c, s.now, invoice.expiry), k)}
    ensures SetDeadlines(c, heap', env(k).hash, set1)
  {
    hide Deadline, ExpiryOf, HoldUntil;
    var h := env(k).hash;
    var new0 := HtlcRelease(h, HoldUntil(c, s.now, invoice.expiry), k);
    if h in s.sets {
      assert SetDeadlines(c, s.heap, h, s.sets[h]);
    }
    forall k' | k' in set1.since ensures HeldUntil(heap', h, k', Deadline(c, set1, k')) {
      if k' == k {
        HoldUntilDeadline(c, set1, k, s.now);
        assert new0 in heap' && HoldFor(new0, h);
      } else {
        SameDeadline(c, s.sets[h], set1, k');
        assert HeldUntil(s.heap, h, k', Deadline(c, s.sets[h], k'));
        var ev :| ev in s.heap && HoldFor(ev, h) && ev.key == k' && ev.releaseTime <= Deadline(c, s.sets[h], k');
        assert ev in heap';
      }
    }
  }

  lemma CompletedDeadlines(c: Config, env: Environment, s: State, k: HtlcKey, set1: HtlcSet,
                           heap': multiset<ReleaseEvent>)
    requires HoldingInv(c, s) && set1.completed == Some(Completion(s.completions, s.now))
    requires set1.since == (if env(k).hash in s.sets then s.sets[env(k).hash].since else map[])[k := s.now]
    requires set1.htlcs.Keys == (if env(k).hash in s.sets then s.sets[env(k).hash].htlcs.Keys else {}) + {k}
    requires env(k).hash in s.sets ==> s.sets[env(k).hash].completed.None?
    requires heap' == s.heap + multiset{AcceptTimeout(env(k).hash, s.now + c.acceptTimeout)}
    ensures SetDeadlines(c, heap', env(k).hash, set1)
  {
    hide DecodeStatelessData;
    var h := env(k).hash;
    if h in s.sets {
      assert SetDeadlines(c, s.heap, h, s.sets[h]);
    }
    forall k' | k' in set1.since ensures s.now <= set1.since[k'] + c.holdDuration {
      if k' != k {
        assert HeldUntil(s.heap, h, k', Deadline(c, s.sets[h], k'));
        var ev :| ev in s.heap && HoldFor(ev, h) && ev.key == k' && ev.releaseTime <= Deadline(c, s.sets[h], k');
        assert s.now <= ev.releaseTime;
      }
    }
  }

  lemma JoinKeepsHolding(c: Config, env: Environment, s: State, k: HtlcKey, invoice: StatelessInvoice, change: Change,
                         s': State)
    requires HoldingInv(c, s)
    requires SetsInv(c, env, s.sets, s.db) && EnvOk(c, env) && Acceptable(c, s, k, env(k), invoice)
    requires change == (if Extended(s, k, env(k), invoice).IsComplete()
                        then Completed(k, invoice, change.Completed? && change.settled) else Held(k, invoice))
    requires HasEffect(c, env, s, change, s') && s'.now == s.now
    ensures HoldingInv(c, s')
  {
    hide SetsInv, EnvOk, Acceptable, HtlcSet.IsComplete, SetDeadlines, Joined, Extended, DecodeStatelessData, ExpiryOf;
    var set1 := Joined(s, k, env(k), invoice);
    JoinedFields(c, env, s, k, invoice);
    if change.Held? {
      HeldDeadlines(c, env, s, k, invoice, set1, s'.heap);
    } else {
      CompletedDeadlines(c, env, s, k, set1, s'.heap);
    }
    OtherSetsKept(c, s, s', env(k).hash);
  }

  // ----- Firing a timer -----

  lemma ShrunkDeadlines(c: Config, heap: multiset<ReleaseEvent>, h: Hash, set0: HtlcSet, ev: ReleaseEvent)
    requires SetDeadlines(c, heap, h, set0) && set0.completed.None? && HoldFor(ev, h)
    ensures SetDeadlines(c, heap - multiset{ev}, h,
              set0.(htlcs := set0.htlcs - {ev.key}, since := set0.since - {ev.key}))
  {
    hide DecodeStatelessData, HoldUntil;
    var set1 := set0.(htlcs := set0.htlcs - {ev.key}, since := set0.since - {ev.key});
    forall k | k in set1.since ensures HeldUntil(heap - multiset{ev}, h, k, Deadline(c, set1, k)) {
      assert HeldUntil(heap, h, k, Deadline(c, set0, k));
      var e :| e in heap && HoldFor(e, h) && e.key == k && e.releaseTime <= Deadline(c, set0, k);
      assert e in heap - multiset{ev};
    }
  }

  lemma FiredKeepsHolding(c: Config, env: Environment, s: State, ev: ReleaseEvent, s': State)
    requires HoldingInv(c, s) && SetsInv(c, env, s.sets, s.db)
    requires HasEffect(c, env, s, Fired(ev), s') && s'.now == s.now
    ensures HoldingInv(c, s')
  {
    hide SetsInv, HtlcSet.IsComplete, SetDeadlines, DecodeStatelessData;
    var h := ev.hash;
    if h in s'.sets {
      CompletedIsComplete(c, env, s, h);
      assert ev.HtlcRelease?;
      if s.sets[h].IsComplete() {
        AcceptKept(c, s.heap, h, s.sets[h], ev);
      } else {
        ShrunkDeadlines(c, s.heap, h, s.sets[h], ev);
      }
    }
    OtherSetsKept(c, s, s', h);
  }

  lemma AcceptKept(c: Config, heap: multiset<ReleaseEvent>, h: Hash, s: HtlcSet, ev: ReleaseEvent)
    requires SetDeadlines(c, heap, h, s) && s.completed.Some? && ev.HtlcRelease?
    ensures SetDeadlines(c, heap - multiset{ev}, h, s)
  {
  }

  // ----- Every step -----

  lemma SameHolding(c: Config, s: State, s': State)
    requires HoldingInv(c, s) && s'.sets == s.sets && s'.heap == s.heap
    requires forall ev :: ev in s.heap ==> s'.now <= ev.releaseTime
    ensures HoldingInv(c, s')
  {
  }

  lemma NothingHeld(c: Config, s: State)
    requires s.sets == map[] && s.heap == multiset{}
    ensures HoldingInv(c, s)
  {
  }

  lemma StepHolding(c: Config, env: Environment, s: State, e: Event)
    requires Inv(c, env, s) && EnvOk(c, env) && Enabled(c, env, s, e)
    requires HoldingInv(c, s) && Timely(s, e)
    ensures HoldingInv(c, Step(c, env, s, e))
  {
    hide Inv, EnvOk, SetsInv, SubsInv, ChangeOf, Step, Enabled, Due, Joined, Without, SetDeadlines, Acceptable,
      HtlcSet.IsComplete, Extended;
    var s' := Step(c, env, s, e);
    if e.CrashDuring? {
      CrashQuiet(c, env, s, e);
      NothingHeld(c, s');
    } else {
      var change := ChangeOf(c, env, s, e);
      StepEffect(c, env, s, e);
      ChangeCause(c, env, s, e);
      InvHasSets(c, env, s);
      match change
      case Same => SameHolding(c, s, s');
      case Held(k, invoice) =>
        AcceptedChange(c, env, s, e);
        JoinKeepsHolding(c, env, s, k, invoice, change, s');
      case Completed(k, invoice, settled) =>
        AcceptedChange(c, env, s, e);
        JoinKeepsHolding(c, env, s, k, invoice, change, s');
      case Removed(h, settled) => OtherSetsKept(c, s, s', h);
      case Fired(ev) => FiredKeepsHolding(c, env, s, ev, s');
      case Lost => NothingHeld(c, s');
    }
  }

  ghost predicate TimelyRun(states: seq<State>, events: seq<Event>)
    requires |states| == |events| + 1
  {
    forall i {:trigger events[i]} :: 0 <= i < |events| ==> Timely(states[i], events[i])
  }

  lemma {:induction false} RunHolding(c: Config, env: Environment, states: seq<State>, events: seq<Event>, i: nat)
    requires IsRun(c, env, states, events) && EnvOk(c, env) && TimelyRun(states, events) && i < |states|
    ensures HoldingInv(c, states[i])
  {
    hide Step, Enabled, Inv, EnvOk, HoldingInv, Timely;
    if i == 0 {
      NothingHeld(c, states[0]);
    } else {
      RunHolding(c, env, states, events, i - 1);
      RunKeepsInv(c, env, states, events, i - 1);
      StepHolding(c, env, states[i - 1], events[i - 1]);
    }
  }

  /** In every timely run, with or without cancels and crashes: an htlc of an incomplete set has a
      pending timer no later than its deadline, a complete set has its accept timer, and no htlc
      is still held when the hold duration and the accept timeout have passed. */
  lemma BoundedHolding(c: Config, env: Environment, states: seq<State>, events: seq<Event>, i: nat, h: Hash, k: HtlcKey)
    requires IsRun(c, env, states, events) && EnvOk(c, env) && TimelyRun(states, events) && i < |states|
    requires h in states[i].sets && k in states[i].sets[h].htlcs
    ensures var s, set0 := states[i], states[i].sets[h];
            && k in set0.since
            && s.now <= set0.since[k] + c.holdDuration + c.acceptTimeout
            && (!set0.IsComplete() ==>
                  && s.now <= set0.since[k] + c.holdDuration && s.now <= ExpiryOf(c, set0)
                  && exists ev :: ev in s.heap && HoldFor(ev, h) && ev.key == k &&
                       ev.releaseTime <= set0.since[k] + c.holdDuration && ev.releaseTime <= ExpiryOf(c, set0))
            && (set0.IsComplete() ==>
                  set0.completed.Some? && AcceptTimeout(h, set0.completed.value.at + c.acceptTimeout) in s.heap)
  {
    hide Step, Enabled, Inv, EnvOk, SetsInv, SubsInv, HtlcSet.IsComplete, DecodeStatelessData;
    var s, set0 := states[i], states[i].sets[h];
    RunHolding(c, env, states, events, i);
    RunKeepsInv(c, env, states, events, i);
    InvHasSets(c, env, s);
    CompletedIsComplete(c, env, s, h);
    assert SetDeadlines(c, s.heap, h, set0);
  }
}
