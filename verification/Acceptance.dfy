/** Complete sets: they are frozen until they are resolved, and every accept subscriber is told of
    each of them exactly once, with its id. */
module Acceptance {
  import opened Types
  import opened SetId
  import opened StatelessData
  import opened Persistence
  import opened Amounts
  import opened Mux
  import opened Registry
  import opened RegistryInvariants
  import opened Settlement

  // ----- A complete set does not change -----

  lemma TickFrozen(s: State, ev: ReleaseEvent, order: seq<HtlcKey>, h: Hash)
    requires h in s.sets && s.sets[h].IsComplete() && h in Release(s, ev, order).sets
    ensures Release(s, ev, order).sets[h] == s.sets[h]
  {
    hide HtlcSet.IsComplete, DeleteAll, Emitted, Ordered;
    if ev.AcceptTimeout? && ev.hash in s.sets {
      DeleteAllEffect(Popped(s, ev), ev.hash, order, Fail(AcceptTimedOut));
    }
  }

  /** Whatever step is taken, a complete set is either gone afterwards or the same. */
  lemma CompleteSetFrozen(c: Config, env: Environment, s: State, e: Event, h: Hash)
    requires Inv(c, env, s) && EnvOk(c, env) && Enabled(c, env, s, e)
    requires h in s.sets && s.sets[h].IsComplete()
    ensures h in Step(c, env, s, e).sets ==> Step(c, env, s, e).sets[h] == s.sets[h]
  {
    hide Inv, EnvOk, Process, DeleteAll, CommitAndSettle, Mark, ProcessHtlc, Inserted, Emitted, Ordered, SettleReply,
      CancelReply;
    match e
    case Arrive(k, height, choice) => ArrivalFrozen(c, env, s, k, height, choice, h);
    case Tick(ev, choice) =>
      hide Release;
      if h in Release(s, ev, choice.keyOrder).sets {
        TickFrozen(s, ev, choice.keyOrder, h);
      }
    case SettleRequest(h', id, choice) =>
      if SettleReply(c, s, h', id, choice) == Ok && h' in s.sets {
        CommitAndSettleEffect(s, h', choice.keyOrder);
      }
    case CancelRequest(h', id, choice) =>
      if CancelReply(s, h', id, choice) == Ok {
        CancelKnowsSet(s, h', id, choice);
        DeleteAllEffect(s, h', choice.keyOrder, Fail(InvoiceNotOpen));
      }
    case _ =>
  }

  /** An arrival touches no other set than that of its own hash. */
  lemma ArrivalIsLocal(c: Config, env: Environment, s: State, k: HtlcKey, height: int32, choice: Choice, h: Hash)
    requires h != env(k).hash && h in s.sets
    ensures var s' := Process(c, env, s, k, height, choice); h in s'.sets && s'.sets[h] == s.sets[h]
  {
    hide Decide, CommitAndSettle, Taken, Admits, HtlcSet.IsComplete, Extended, Subscribed;
    if choice.getOk && Decide(c, s, k, env(k), height).Accept? {
      var invoice := Decide(c, s, k, env(k), height).invoice;
      TakenFrame(c, s, k, env(k), invoice, choice);
      CommitIsLocal(Taken(c, s, k, env(k), invoice, choice), env(k).hash, choice.keyOrder, h);
    }
  }

  lemma CommitIsLocal(s: State, h: Hash, order: seq<HtlcKey>, other: Hash)
    requires h in s.sets && other in s.sets && h != other
    ensures other in CommitAndSettle(s, h, order).sets && CommitAndSettle(s, h, order).sets[other] == s.sets[other]
  {
    hide CommitAndSettle, Inserted, Emitted, Ordered;
    CommitAndSettleEffect(s, h, order);
  }

  lemma ArrivalFrozen(c: Config, env: Environment, s: State, k: HtlcKey, height: int32, choice: Choice, h: Hash)
    requires Inv(c, env, s) && EnvOk(c, env)
    requires h in s.sets && s.sets[h].IsComplete()
    ensures var s' := Process(c, env, s, k, height, choice); h in s'.sets ==> s'.sets[h] == s.sets[h]
  {
    hide Inv, EnvOk, Decide, HtlcSet.IsComplete, Hold, Complete, CommitAndSettle, Acceptable, SetsInv, SubsInv;
    if h != env(k).hash {
      ArrivalIsLocal(c, env, s, k, height, choice, h);
    } else if Decide(c, s, k, env(k), height).Accept? {
      var invoice := Decide(c, s, k, env(k), height).invoice;
      AcceptFacts(c, env, s, k, height, invoice);
      InvHasSets(c, env, s);
      OnlyIncompleteGrows(c, env, s, k, invoice);
      assert false;
    }
  }

  /** As long as it stays in memory, a complete set keeps its htlcs and its id. */
  lemma {:induction false} FrozenUntilResolved(c: Config, env: Environment, states: seq<State>, events: seq<Event>,
                                               i: nat, j: nat, h: Hash)
    requires IsRun(c, env, states, events) && EnvOk(c, env) && i <= j < |states|
    requires h in states[i].sets && states[i].sets[h].IsComplete()
    requires forall m :: i <= m <= j ==> h in states[m].sets
    ensures states[j].sets[h] == states[i].sets[h]
  {
    hide Step, Enabled, Inv, EnvOk, HtlcSet.IsComplete;
    if i < j {
      FrozenUntilResolved(c, env, states, events, i, j - 1, h);
      RunKeepsInv(c, env, states, events, j - 1);
      CompleteSetFrozen(c, env, states[j - 1], events[j - 1], h);
    }
  }

  // ----- Notices -----

  /** Nobody is told twice of the same completion. */
  ghost predicate NoticesInv(notices: seq<Notice>, completions: nat) {
    && (forall p :: 0 <= p < |notices| ==> notices[p].serial < completions)
    && (forall p, q :: 0 <= p < q < |notices| ==>
          notices[p].subscriber != notices[q].subscriber || notices[p].serial != notices[q].serial)
  }

  /** What is known of the completion of one set. */
  ghost predicate CompletionInv(h: Hash, s: HtlcSet, subscribers: set<nat>, nextSubscriber: nat, notices: seq<Notice>,
                                completions: nat)
    requires s.completed.Some?
  {
    var serial := s.completed.value.serial;
    && serial < completions
    && (forall p :: 0 <= p < |notices| && notices[p].serial == serial ==>
          notices[p].hash == h && notices[p].id == s.Id() && notices[p].subscriber <= nextSubscriber)
    && (forall sub :: sub in subscribers ==> Notice(sub, serial, h, s.Id()) in notices)
  }

  ghost predicate ToldInv(s: State) {
    && (forall sub :: sub in s.subscribers ==> sub <= s.nextSubscriber)
    && (forall h :: h in s.sets && s.sets[h].completed.Some? ==>
          CompletionInv(h, s.sets[h], s.subscribers, s.nextSubscriber, s.notices, s.completions))
  }

  ghost predicate AcceptInv(s: State) {
    NoticesInv(s.notices, s.completions) && ToldInv(s)
  }

  lemma FewerSets(s: State, s': State)
    requires AcceptInv(s)
    requires s'.subscribers == s.subscribers && s'.nextSubscriber == s.nextSubscriber
    requires s'.notices == s.notices && s'.completions == s.completions
    requires forall h :: h in s'.sets && s'.sets[h].completed.Some? ==> h in s.sets && s'.sets[h] == s.sets[h]
    ensures AcceptInv(s')
  {
    hide CompletionInv;
  }

  lemma NoSets(s: State)
    requires NoticesInv(s.notices, s.completions)
    ensures AcceptInv(Crashed(s))
  {
  }

  // ----- Completions -----

  lemma NoticesForShape(s: State, order: seq<nat>, h: Hash, serial: nat, id: SetID)
    ensures var more := NoticesFor(s, order, h, serial, id);
            && (forall p :: 0 <= p < |more| ==>
                  more[p].serial == serial && more[p].hash == h && more[p].id == id &&
                    more[p].subscriber in s.subscribers)
            && (forall p, q :: 0 <= p < q < |more| ==> more[p].subscriber != more[q].subscriber)
            && (forall sub :: sub in s.subscribers ==> Notice(sub, serial, h, id) in more)
  {
    hide Ordered, SetIdOf;
    var subscribers := Ordered(order, s.subscribers);
    var more := NoticesFor(s, order, h, serial, id);
    forall sub | sub in s.subscribers ensures Notice(sub, serial, h, id) in more {
      assert sub in subscribers;
      var i :| 0 <= i < |subscribers| && subscribers[i] == sub;
      assert more[i] == Notice(sub, serial, h, id);
    }
  }

  lemma AppendNotices(notices: seq<Notice>, completions: nat, more: seq<Notice>, completions': nat)
    requires NoticesInv(notices, completions) && completions <= completions'
    requires forall p :: 0 <= p < |more| ==> more[p].serial < completions'
    requires forall p, q :: 0 <= p < q < |more| ==>
               more[p].subscriber != more[q].subscriber || more[p].serial != more[q].serial
    requires forall p, q :: 0 <= p < |notices| && 0 <= q < |more| ==>
               notices[p].subscriber != more[q].subscriber || notices[p].serial != more[q].serial
    ensures NoticesInv(notices + more, completions')
  {
    var all := notices + more;
    forall p, q | 0 <= p < q < |all| ensures all[p].subscriber != all[q].subscriber || all[p].serial != all[q].serial {
      if p >= |notices| {
        assert all[p] == more[p - |notices|] && all[q] == more[q - |notices|];
      }
    }
  }

  /** Notices about other completions do not concern a set. */
  lemma OtherCompletion(h: Hash, s: HtlcSet, subscribers: set<nat>, nextSubscriber: nat, notices: seq<Notice>,
                        completions: nat, more: seq<Notice>, completions': nat)
    requires s.completed.Some? && CompletionInv(h, s, subscribers, nextSubscriber, notices, completions)
    requires completions <= completions'
    requires forall p :: 0 <= p < |more| ==> more[p].serial != s.completed.value.serial
    ensures CompletionInv(h, s, subscribers, nextSubscriber, notices + more, completions')
  {
    hide SetIdOf;
    var all := notices + more;
    forall p | 0 <= p < |all| && all[p].serial == s.completed.value.serial
      ensures all[p].hash == h && all[p].id == s.Id() && all[p].subscriber <= nextSubscriber
    {
      assert p < |notices|;
    }
  }

  lemma CompleteTells(c: Config, s: State, k: HtlcKey, htlc: Htlc, set1: HtlcSet, order: seq<nat>)
    requires AcceptInv(s)
    ensures AcceptInv(Complete(c, s, k, htlc, set1, order).(arrivals := s.arrivals + 1))
  {
    hide SetIdOf, NoticesFor, Subscribed;
    var h, serial := htlc.hash, s.completions;
    var more := NoticesFor(s, order, h, serial, set1.Id());
    var s' := Complete(c, s, k, htlc, set1, order).(arrivals := s.arrivals + 1);
    NoticesForShape(s, order, h, serial, set1.Id());
    AppendNotices(s.notices, s.completions, more, s.completions + 1);
    forall h' | h' in s'.sets && s'.sets[h'].completed.Some?
      ensures CompletionInv(h', s'.sets[h'], s'.subscribers, s'.nextSubscriber, s'.notices, s'.completions)
    {
      if h' != h {
        OtherCompletion(h', s.sets[h'], s.subscribers, s.nextSubscriber, s.notices, s.completions, more,
          s.completions + 1);
      } else {
        assert s'.sets[h].Id() == set1.Id();
        NewCompletion(s, h, set1, more);
      }
    }
  }

  lemma NewCompletion(s: State, h: Hash, set1: HtlcSet, more: seq<Notice>)
    requires AcceptInv(s)
    requires forall p :: 0 <= p < |more| ==>
               more[p].serial == s.completions && more[p].hash == h && more[p].id == set1.Id() &&
                 more[p].subscriber in s.subscribers
    requires forall sub :: sub in s.subscribers ==> Notice(sub, s.completions, h, set1.Id()) in more
    ensures var set2 := set1.(completed := Some(Completion(s.completions, s.now)));
            CompletionInv(h, set2, s.subscribers, s.nextSubscriber, s.notices + more, s.completions + 1)
  {
    hide SetIdOf;
    var all := s.notices + more;
    forall p | 0 <= p < |all| && all[p].serial == s.completions
      ensures all[p].hash == h && all[p].id == set1.Id() && all[p].subscriber <= s.nextSubscriber
    {
      assert p >= |s.notices|;
      assert all[p] == more[p - |s.notices|];
    }
  }

  // ----- Subscribers -----

  /** Completions have different serial numbers. */
  ghost predicate SerialsDistinct(s: State) {
    forall h, h' :: h in s.sets && h' in s.sets && s.sets[h].completed.Some? && s.sets[h'].completed.Some? ==>
      s.sets[h].completed.value.serial == s.sets[h'].completed.value.serial ==> h == h'
  }

  /** What a new subscriber is told on subscription. */
  lemma AcceptedNoticesShape(c: Config, env: Environment, s: State, hashes: seq<Hash>)
    requires Inv(c, env, s) && Enumerates(hashes, CompleteHashes(s))
    ensures var more := AcceptedNotices(s, s.nextSubscriber + 1, hashes);
            && |more| == |hashes|
            && (forall i :: 0 <= i < |hashes| ==>
                  && hashes[i] in s.sets && s.sets[hashes[i]].completed.Some?
                  && more[i] == Notice(s.nextSubscriber + 1, s.sets[hashes[i]].completed.value.serial, hashes[i],
                    s.sets[hashes[i]].Id()))
  {
    hide SetIdOf, MemberInv, SubsInv, StoreInv, LogInv, DecodeStatelessData, Sum;
    forall i | 0 <= i < |hashes| ensures hashes[i] in s.sets && s.sets[hashes[i]].completed.Some? {
      assert hashes[i] in CompleteHashes(s);
      assert SetInv(c, env, hashes[i], s.sets[hashes[i]]);
    }
  }

  lemma SubscribeNotices(s: State, hashes: seq<Hash>, more: seq<Notice>)
    requires AcceptInv(s) && SerialsDistinct(s) && NoDuplicates(hashes) && |more| == |hashes|
    requires forall i :: 0 <= i < |hashes| ==>
               && hashes[i] in s.sets && s.sets[hashes[i]].completed.Some?
               && more[i] == Notice(s.nextSubscriber + 1, s.sets[hashes[i]].completed.value.serial, hashes[i],
                 s.sets[hashes[i]].Id())
    ensures NoticesInv(s.notices + more, s.completions)
  {
    hide SetIdOf;
    forall i | 0 <= i < |more| ensures more[i].serial < s.completions {
      assert CompletionInv(hashes[i], s.sets[hashes[i]], s.subscribers, s.nextSubscriber, s.notices, s.completions);
    }
    forall p, q | 0 <= p < |s.notices| && 0 <= q < |more|
      ensures s.notices[p].subscriber != more[q].subscriber || s.notices[p].serial != more[q].serial
    {
      assert CompletionInv(hashes[q], s.sets[hashes[q]], s.subscribers, s.nextSubscriber, s.notices, s.completions);
    }
    AppendNotices(s.notices, s.completions, more, s.completions);
  }

  /** The new subscriber is told of a complete set; the others have been told before. */
  lemma SubscribeCompletion(s: State, hashes: seq<Hash>, more: seq<Notice>, h: Hash, i: nat)
    requires SerialsDistinct(s) && |more| == |hashes| && i < |hashes| && hashes[i] == h
    requires forall j :: 0 <= j < |hashes| ==>
               && hashes[j] in s.sets && s.sets[hashes[j]].completed.Some?
               && more[j] == Notice(s.nextSubscriber + 1, s.sets[hashes[j]].completed.value.serial, hashes[j],
                 s.sets[hashes[j]].Id())
    requires CompletionInv(h, s.sets[h], s.subscribers, s.nextSubscriber, s.notices, s.completions)
    ensures CompletionInv(h, s.sets[h], s.subscribers + {s.nextSubscriber + 1}, s.nextSubscriber + 1, s.notices + more,
              s.completions)
  {
    hide SetIdOf;
    var all := s.notices + more;
    var serial := s.sets[h].completed.value.serial;
    forall p | 0 <= p < |all| && all[p].serial == serial
      ensures all[p].hash == h && all[p].id == s.sets[h].Id() && all[p].subscriber <= s.nextSubscriber + 1
    {
      if p >= |s.notices| {
        assert all[p] == more[p - |s.notices|];
      }
    }
    assert all[|s.notices| + i] == Notice(s.nextSubscriber + 1, serial, h, s.sets[h].Id());
  }

  lemma SubscribeTells(c: Config, env: Environment, s: State, order: seq<Hash>)
    requires Inv(c, env, s) && AcceptInv(s) && SerialsDistinct(s)
    ensures AcceptInv(AddSubscriber(s, order))
  {
    hide SetsInv, SubsInv, Inv, SetIdOf, CompletionInv, Ordered, HtlcSet.IsComplete;
    var hashes := Ordered(order, CompleteHashes(s));
    var more := AcceptedNotices(s, s.nextSubscriber + 1, hashes);
    var s' := AddSubscriber(s, order);
    assert s'.notices == s.notices + more;
    AcceptedNoticesShape(c, env, s, hashes);
    SubscribeNotices(s, hashes, more);
    forall h | h in s'.sets && s'.sets[h].completed.Some?
      ensures CompletionInv(h, s'.sets[h], s'.subscribers, s'.nextSubscriber, s'.notices, s'.completions)
    {
      InvHasSets(c, env, s);
      CompletedIsComplete(c, env, s, h);
      assert h in hashes;
      var i :| 0 <= i < |hashes| && hashes[i] == h;
      SubscribeCompletion(s, hashes, more, h, i);
    }
  }

  // ----- Every step -----

  ghost predicate FullInv(s: State) {
    AcceptInv(s) && SerialsDistinct(s)
  }

  lemma ShrinkKeeps(s: State, s': State)
    requires FullInv(s)
    requires s'.subscribers == s.subscribers && s'.nextSubscriber == s.nextSubscriber
    requires s'.notices == s.notices && s'.completions == s.completions
    requires forall h :: h in s'.sets && s'.sets[h].completed.Some? ==> h in s.sets && s'.sets[h] == s.sets[h]
    ensures FullInv(s')
  {
    hide AcceptInv;
    FewerSets(s, s');
  }

  lemma CompleteKeeps(c: Config, s: State, k: HtlcKey, htlc: Htlc, set1: HtlcSet, order: seq<nat>)
    requires FullInv(s)
    ensures FullInv(Complete(c, s, k, htlc, set1, order).(arrivals := s.arrivals + 1))
  {
    hide SetIdOf, NoticesFor, Subscribed;
    CompleteTells(c, s, k, htlc, set1, order);
    var s' := Complete(c, s, k, htlc, set1, order).(arrivals := s.arrivals + 1);
    forall h | h in s.sets && s.sets[h].completed.Some? ensures s.sets[h].completed.value.serial < s.completions {
      assert CompletionInv(h, s.sets[h], s.subscribers, s.nextSubscriber, s.notices, s.completions);
    }
  }

  lemma ProcessTells(c: Config, env: Environment, s: State, k: HtlcKey, height: int32, choice: Choice)
    requires Inv(c, env, s) && EnvOk(c, env) && FullInv(s)
    ensures FullInv(Process(c, env, s, k, height, choice))
  {
    hide Inv, EnvOk, FullInv, Decide, CommitAndSettle, Subscribed, Admits, HtlcSet.IsComplete, Extended, Taken,
      Inserted, Emitted, Ordered;
    var s' := Process(c, env, s, k, height, choice);
    if choice.getOk && Decide(c, s, k, env(k), height).Accept? {
      var invoice := Decide(c, s, k, env(k), height).invoice;
      var s1 := Taken(c, s, k, env(k), invoice, choice);
      TakenTells(c, env, s, k, height, choice, invoice);
      if s' != s1 {
        CommitAndSettleEffect(s1, env(k).hash, choice.keyOrder);
        ShrinkKeeps(s1, s');
      }
    } else {
      ShrinkKeeps(s, s');
    }
  }

  lemma TakenTells(
    c: Config, env: Environment, s: State, k: HtlcKey, height: int32, choice: Choice, invoice: StatelessInvoice)
    requires Inv(c, env, s) && EnvOk(c, env) && FullInv(s) && Decide(c, s, k, env(k), height) == Accept(invoice)
    ensures FullInv(Taken(c, s, k, env(k), invoice, choice))
  {
    hide Inv, EnvOk, FullInv, Decide, NoticesFor, Subscribed, HtlcSet.IsComplete, Extended, Acceptable, SetsInv,
      SubsInv,
      Complete, HtlcSet.Id;
    AcceptFacts(c, env, s, k, height, invoice);
    InvHasSets(c, env, s);
    OnlyIncompleteGrows(c, env, s, k, invoice);
    var set1 := Extended(s, k, env(k), invoice);
    if set1.IsComplete() {
      CompleteKeeps(c, s, k, env(k), set1, choice.subscriberOrder);
    } else {
      ShrinkKeeps(s, Taken(c, s, k, env(k), invoice, choice));
    }
  }

  lemma CrashKeeps(s: State)
    requires NoticesInv(s.notices, s.completions)
    ensures FullInv(Crashed(s))
  {
    NoSets(s);
  }

  lemma FullHasNotices(s: State)
    requires FullInv(s)
    ensures NoticesInv(s.notices, s.completions)
  {
  }

  lemma UnsubscribeTells(s: State, id: nat)
    requires FullInv(s)
    ensures FullInv(RemoveSubscriber(s, id))
  {
    hide SetIdOf;
    var s' := RemoveSubscriber(s, id);
    forall h | h in s'.sets && s'.sets[h].completed.Some?
      ensures CompletionInv(h, s'.sets[h], s'.subscribers, s'.nextSubscriber, s'.notices, s'.completions)
    {
      assert CompletionInv(h, s.sets[h], s.subscribers, s.nextSubscriber, s.notices, s.completions);
    }
  }

  lemma TickTells(c: Config, env: Environment, s: State, ev: ReleaseEvent, order: seq<HtlcKey>)
    requires Inv(c, env, s) && FullInv(s)
    ensures FullInv(Release(s, ev, order))
  {
    hide Inv, SetsInv, SubsInv, FullInv, DeleteAll, HtlcSet.IsComplete, Emitted, Ordered;
    var s' := Release(s, ev, order);
    if ev.AcceptTimeout? && ev.hash in s.sets {
      DeleteAllEffect(Popped(s, ev), ev.hash, order, Fail(AcceptTimedOut));
      ShrinkKeeps(s, s');
    } else if ev.HtlcRelease? && ReleasePanics(s, ev.hash, ev.key) {
      FullHasNotices(s);
      CrashKeeps(Popped(s, ev));
    } else {
      if ev.hash in s.sets {
        InvHasSets(c, env, s);
        CompletedIsComplete(c, env, s, ev.hash);
      }
      ShrinkKeeps(s, s');
    }
  }

  lemma HandlersTell(c: Config, env: Environment, s: State, e: Event)
    requires Inv(c, env, s) && EnvOk(c, env) && FullInv(s) && !e.CrashDuring?
    ensures FullInv(Step(c, env, s, e))
  {
    hide Inv, EnvOk, FullInv, Process, Release, DeleteAll, CommitAndSettle, AddSubscriber, RemoveSubscriber, Crashed,
      Mark;
    var s' := Step(c, env, s, e);
    FullHasNotices(s);
    match e
    case Arrive(k, height, choice) => ProcessTells(c, env, s, k, height, choice);
    case Tick(ev, choice) => TickTells(c, env, s, ev, choice.keyOrder);
    case SettleRequest(h, id, choice) =>
      CrashKeeps(s);
      if SettleReply(c, s, h, id, choice) == Ok && h in s.sets {
        CommitAndSettleEffect(s, h, choice.keyOrder);
        ShrinkKeeps(s, s');
      }
    case CancelRequest(h, id, choice) =>
      CrashKeeps(s);
      if CancelReply(s, h, id, choice) == Ok {
        DeleteAllEffect(s, h, choice.keyOrder, Fail(InvoiceNotOpen));
        ShrinkKeeps(s, s');
      }
    case Subscribe(choice) => SubscribeKeeps(c, env, s, choice.hashOrder);
    case Unsubscribe(id) => UnsubscribeTells(s, id);
    case Advance(to) => ShrinkKeeps(s, s');
    case MarkFinal(k, settled) => ShrinkKeeps(s, s');
    case Crash => CrashKeeps(s);
  }

  lemma SubscribeKeeps(c: Config, env: Environment, s: State, order: seq<Hash>)
    requires Inv(c, env, s) && FullInv(s)
    ensures FullInv(AddSubscriber(s, order))
  {
    hide Inv, AcceptInv;
    SubscribeTells(c, env, s, order);
  }

  /** A crash while subscribers are being told leaves a prefix of the notices. */
  lemma NoticesPrefix(notices: seq<Notice>, completions: nat, n: nat)
    requires NoticesInv(notices, completions) && n <= |notices|
    ensures NoticesInv(notices[..n], completions)
  {
  }

  lemma StepTells(c: Config, env: Environment, s: State, e: Event)
    requires Inv(c, env, s) && EnvOk(c, env) && Enabled(c, env, s, e) && FullInv(s)
    ensures FullInv(Step(c, env, s, e))
  {
    hide Inv, EnvOk, FullInv, Process, Release, HandleSettle, HandleCancel, AddSubscriber, Crashed;
    if e.CrashDuring? {
      var s' := Step(c, env, s, e.during);
      HandlersTell(c, env, s, e.during);
      FullHasNotices(s');
      match e.point
      case WhileNotifying(n) =>
        var upTo := if |s.notices| + n <= |s'.notices| then |s.notices| + n else |s'.notices|;
        NoticesPrefix(s'.notices, s'.completions, upTo);
        CrashKeeps(s'.(db := s.db, log := s.log, notices := s'.notices[..upTo]));
      case WhileResolving(n) =>
        var upTo := if |s.log| + n <= |s'.log| then |s.log| + n else |s'.log|;
        CrashKeeps(s'.(log := s'.log[..upTo]));
    } else {
      HandlersTell(c, env, s, e);
    }
  }

  lemma {:induction false} RunTells(c: Config, env: Environment, states: seq<State>, events: seq<Event>, i: nat)
    requires IsRun(c, env, states, events) && EnvOk(c, env) && i < |states|
    ensures FullInv(states[i])
  {
    hide Step, Enabled, Inv, EnvOk;
    if i > 0 {
      RunTells(c, env, states, events, i - 1);
      RunKeepsInv(c, env, states, events, i - 1);
      StepTells(c, env, states[i - 1], events[i - 1]);
    }
  }

  /** In every reachable state, every current subscriber has been told of every complete set
      exactly once, with the id of the set; and all that anybody was ever told of this completion
      is that hash and that id. */
  lemma ToldExactlyOnce(c: Config, env: Environment, states: seq<State>, events: seq<Event>, i: nat, h: Hash, sub: nat)
    requires IsRun(c, env, states, events) && EnvOk(c, env) && i < |states|
    requires h in states[i].sets && states[i].sets[h].IsComplete() && sub in states[i].subscribers
    ensures states[i].sets[h].completed.Some?
    ensures var s := states[i];
            var notice := Notice(sub, s.sets[h].completed.value.serial, h, s.sets[h].Id());
            && notice in s.notices
            && (forall p, q :: 0 <= p < q < |s.notices| ==> s.notices[p] != notice || s.notices[q] != notice)
            && (forall p :: 0 <= p < |s.notices| && s.notices[p].serial == notice.serial ==>
              s.notices[p] == notice.(subscriber := s.notices[p].subscriber))
  {
    hide SetsInv, SubsInv, Step, Enabled, Inv, EnvOk, HtlcSet.IsComplete, SetIdOf;
    var s := states[i];
    RunTells(c, env, states, events, i);
    RunKeepsInv(c, env, states, events, i);
    InvHasSets(c, env, s);
    CompletedIsComplete(c, env, s, h);
    assert CompletionInv(h, s.sets[h], s.subscribers, s.nextSubscriber, s.notices, s.completions);
  }

  // ----- Sets that are stored -----

  /** The arrival completes a set, whether or not it is then settled automatically. */
  ghost predicate Completes(c: Config, env: Environment, s: State, e: Event) {
    && e.Arrive? && e.choice.getOk && Decide(c, s, e.key, env(e.key), e.height).Accept?
    && Extended(s, e.key, env(e.key), Decide(c, s, e.key, env(e.key), e.height).invoice).IsComplete()
  }

  ghost function CompletedSet(c: Config, env: Environment, s: State, e: Event): HtlcSet
    requires Completes(c, env, s, e)
  {
    Extended(s, e.key, env(e.key), Decide(c, s, e.key, env(e.key), e.height).invoice)
  }

  lemma CompletionNotices(c: Config, env: Environment, s: State, e: Event)
    requires Completes(c, env, s, e)
    ensures Step(c, env, s, e).notices
            == s.notices + NoticesFor(s, e.choice.subscriberOrder, env(e.key).hash, s.completions,
              CompletedSet(c, env, s, e).Id())
  {
    hide Decide, Extended, HtlcSet.IsComplete, CommitAndSettle, NoticesFor, Subscribed, Admits, SetIdOf, Emitted,
      Ordered, Inserted;
    var set1 := CompletedSet(c, env, s, e);
    var s1 := Complete(c, s, e.key, env(e.key), set1, e.choice.subscriberOrder).(arrivals := s.arrivals + 1);
    CommitAndSettleEffect(s1, env(e.key).hash, e.choice.keyOrder);
  }

  /** Whenever a set becomes complete, in auto-settle mode too, every subscriber receives exactly one
      notice in that step, with a new serial number, the hash and the id of the complete set; and
      nobody else receives any. */
  lemma ToldOnCompletion(c: Config, env: Environment, states: seq<State>, events: seq<Event>, i: nat, sub: nat)
    requires IsRun(c, env, states, events) && EnvOk(c, env) && i < |events| && Completes(c, env, states[i], events[i])
    ensures var s, s', set1 := states[i], states[i + 1], CompletedSet(c, env, states[i], events[i]);
            && |s.notices| <= |s'.notices| && s'.notices[..|s.notices|] == s.notices
            && (forall p :: 0 <= p < |s.notices| ==> s.notices[p].serial != s.completions)
            && (forall p :: |s.notices| <= p < |s'.notices| ==>
                  s'.notices[p] == Notice(s'.notices[p].subscriber, s.completions, env(events[i].key).hash, set1.Id()))
            && (sub in s.subscribers <==>
                  exists p :: |s.notices| <= p < |s'.notices| && s'.notices[p].subscriber == sub)
            && (forall p, q :: |s.notices| <= p < q < |s'.notices| ==>
              s'.notices[p].subscriber != s'.notices[q].subscriber)
  {
    hide Step, Enabled, Inv, EnvOk, Decide, Extended, HtlcSet.IsComplete, SetIdOf, NoticesFor;
    var s, s', e := states[i], states[i + 1], events[i];
    var set1, h := CompletedSet(c, env, s, e), env(e.key).hash;
    var more := NoticesFor(s, e.choice.subscriberOrder, h, s.completions, set1.Id());
    CompletionNotices(c, env, s, e);
    NoticesForShape(s, e.choice.subscriberOrder, h, s.completions, set1.Id());
    RunTells(c, env, states, events, i);
    NewNotices(s.notices, more, s'.notices);
    if sub in s.subscribers {
      var j :| 0 <= j < |more| && more[j] == Notice(sub, s.completions, h, set1.Id());
      assert s'.notices[|s.notices| + j].subscriber == sub;
    }
  }

  lemma NewNotices(notices: seq<Notice>, more: seq<Notice>, all: seq<Notice>)
    requires all == notices + more
    ensures |notices| <= |all| && all[..|notices|] == notices
    ensures forall p :: |notices| <= p < |all| ==> all[p] == more[p - |notices|]
  {
  }

  /** The subscriber was told of this completion once, and with this hash and id. */
  ghost predicate ToldOnce(notices: seq<Notice>, notice: Notice) {
    exists p :: 0 <= p < |notices| && notices[p] == notice && forall q :: 0 <= q < |notices| && q != p ==>
      notices[q].subscriber != notice.subscriber || notices[q].serial != notice.serial
  }

  lemma TellsOnce(notices: seq<Notice>, completions: nat, notice: Notice)
    requires NoticesInv(notices, completions) && notice in notices
    ensures ToldOnce(notices, notice)
  {
    var p :| 0 <= p < |notices| && notices[p] == notice;
  }

  /** The completion that a step stores: the one that the arrival brings about, or the one of the
      set that the settle request is for. */
  function StoredSerial(s: State, e: Event, h: Hash): nat {
    var handled := if e.CrashDuring? then e.during else e;
    if handled.Arrive? then s.completions else SerialOf(s, h)
  }

  lemma AutoStoreTells(c: Config, env: Environment, s: State, e: Event, sub: nat)
    requires Inv(c, env, s) && EnvOk(c, env) && FullInv(s) && Enabled(c, env, s, e) && e.Arrive? && sub in s.subscribers
    requires env(e.key).hash !in s.db.invoices && env(e.key).hash in Step(c, env, s, e).db.invoices
    ensures var s', h := Step(c, env, s, e), env(e.key).hash;
            ToldOnce(s'.notices, Notice(sub, s.completions, h, SetIdOf(KeysOf(s'.db, h))))
  {
    hide Inv, EnvOk, Process, FullInv, SetIdOf, ToldOnce, Completes, NoticesFor, ProcessHtlc;
    var s', h := Step(c, env, s, e), env(e.key).hash;
    StoreIsCompletion(c, env, s, e);
    var set1 := CompletedSet(c, env, s, e);
    var more := NoticesFor(s, e.choice.subscriberOrder, h, s.completions, set1.Id());
    CompletionNotices(c, env, s, e);
    NoticesForShape(s, e.choice.subscriberOrder, h, s.completions, set1.Id());
    AutoSettleStoresAnnounced(c, env, s, e.key, e.height, e.choice);
    var j :| 0 <= j < |more| && more[j] == Notice(sub, s.completions, h, set1.Id());
    assert s'.notices[|s.notices| + j] == more[j];
    HandlersTell(c, env, s, e);
    FullHasNotices(s');
    TellsOnce(s'.notices, s'.completions, Notice(sub, s.completions, h, set1.Id()));
  }

  lemma StoreIsCompletion(c: Config, env: Environment, s: State, e: Event)
    requires e.Arrive? && env(e.key).hash !in s.db.invoices && env(e.key).hash in Step(c, env, s, e).db.invoices
    ensures Completes(c, env, s, e)
  {
    hide Decide, Extended, HtlcSet.IsComplete, CommitAndSettle, NoticesFor, Subscribed, Admits;
  }

  lemma SettleStoreTells(c: Config, env: Environment, s: State, e: Event, sub: nat)
    requires Inv(c, env, s) && EnvOk(c, env) && FullInv(s) && e.SettleRequest? && sub in s.subscribers
    requires SettleReply(c, s, e.hash, e.id, e.choice) == Ok && e.hash in s.sets
    ensures var s' := CommitAndSettle(s, e.hash, e.choice.keyOrder);
            ToldOnce(s'.notices, Notice(sub, SerialOf(s, e.hash), e.hash, SetIdOf(KeysOf(s'.db, e.hash))))
  {
    hide SetsInv, SubsInv, Inv, EnvOk, CommitAndSettle, SetIdOf, ToldOnce, HtlcSet.IsComplete, Inserted, Emitted,
      Ordered, Admits;
    var h, set0 := e.hash, s.sets[e.hash];
    InvHasSets(c, env, s);
    CompletedIsComplete(c, env, s, h);
    CommitConsistent(c, env, s, h, e.choice.keyOrder);
    CommitAndSettleEffect(s, h, e.choice.keyOrder);
    assert CompletionInv(h, set0, s.subscribers, s.nextSubscriber, s.notices, s.completions);
    TellsOnce(s.notices, s.completions, Notice(sub, set0.completed.value.serial, h, set0.Id()));
  }

  lemma ArrivalStores(c: Config, env: Environment, s: State, k: HtlcKey, height: int32, choice: Choice)
    requires Inv(c, env, s) && EnvOk(c, env) && ProcessHtlc(c.policy, env(k)).ToRegistry?
    ensures forall h :: h in Process(c, env, s, k, height, choice).db.invoices ==>
              h in s.db.invoices || h == env(k).hash
  {
    hide Inv, EnvOk, Decide, CommitAndSettle, NoticesFor, Subscribed, Admits, HtlcSet.IsComplete, Extended, Emitted,
      Ordered, SetIdOf, ProcessHtlc;
    if choice.getOk && Decide(c, s, k, env(k), height).Accept? {
      var set1 := Extended(s, k, env(k), Decide(c, s, k, env(k), height).invoice);
      var s1 := Complete(c, s, k, env(k), set1, choice.subscriberOrder).(arrivals := s.arrivals + 1);
      CommitAndSettleEffect(s1, env(k).hash, choice.keyOrder);
      ExtendedHash(c, env, s, k, height);
    }
  }

  lemma ExtendedHash(c: Config, env: Environment, s: State, k: HtlcKey, height: int32)
    requires Inv(c, env, s) && EnvOk(c, env) && Decide(c, s, k, env(k), height).Accept?
    ensures Sha256(Extended(s, k, env(k), Decide(c, s, k, env(k), height).invoice).preimage) == env(k).hash
  {
    hide EnvOk, Decide, SubsInv, StoreInv, LogInv, MemberInv, DecodeStatelessData, HtlcSet.IsComplete;
    AcceptFacts(c, env, s, k, height, Decide(c, s, k, env(k), height).invoice);
    if env(k).hash in s.sets {
      assert SetInv(c, env, env(k).hash, s.sets[env(k).hash]);
    }
  }

  lemma TickStores(s: State, ev: ReleaseEvent, order: seq<HtlcKey>)
    ensures Release(s, ev, order).db == s.db
  {
    hide DeleteAll, HtlcSet.IsComplete, Emitted, Ordered;
    if ev.AcceptTimeout? && ev.hash in s.sets {
      DeleteAllEffect(Popped(s, ev), ev.hash, order, Fail(AcceptTimedOut));
    }
  }

  lemma SettleStores(c: Config, env: Environment, s: State, h: Hash, order: seq<HtlcKey>)
    requires Inv(c, env, s) && h in s.sets
    ensures forall h' :: h' in CommitAndSettle(s, h, order).db.invoices ==> h' in s.db.invoices || h' == h
  {
    hide SubsInv, StoreInv, LogInv, MemberInv, CommitAndSettle, Emitted, Ordered, DecodeStatelessData,
      HtlcSet.IsComplete;
    CommitAndSettleEffect(s, h, order);
    assert SetInv(c, env, h, s.sets[h]);
  }

  /** A hash gets stored only by the arrival that completes its set or by a settle request. */
  lemma StoreCause(c: Config, env: Environment, s: State, e: Event, h: Hash)
    requires Inv(c, env, s) && EnvOk(c, env) && Enabled(c, env, s, e) && !e.CrashDuring?
    requires h !in s.db.invoices && h in Step(c, env, s, e).db.invoices
    ensures (e.Arrive? && env(e.key).hash == h)
         || (e.SettleRequest? && e.hash == h && h in s.sets && SettleReply(c, s, h, e.id, e.choice) == Ok
             && Step(c, env, s, e) == CommitAndSettle(s, h, e.choice.keyOrder))
  {
    hide Inv, EnvOk, Process, Release, DeleteAll, CommitAndSettle, Mark, ProcessHtlc, SettleReply, CancelReply;
    match e
    case Arrive(k, height, choice) => ArrivalStores(c, env, s, k, height, choice);
    case Tick(ev, choice) => TickStores(s, ev, choice.keyOrder);
    case SettleRequest(h', id, choice) =>
      if SettleReply(c, s, h', id, choice) == Ok && h' in s.sets {
        SettleStores(c, env, s, h', choice.keyOrder);
      }
    case CancelRequest(h', id, choice) =>
      if CancelReply(s, h', id, choice) == Ok {
        CancelKnowsSet(s, h', id, choice);
        DeleteAllEffect(s, h', choice.keyOrder, Fail(InvoiceNotOpen));
      }
    case MarkFinal(k, settled) => MarkFrame(s.db, k, settled);
    case _ =>
  }

  lemma HandlerStoreTells(c: Config, env: Environment, s: State, e: Event, h: Hash, sub: nat)
    requires Inv(c, env, s) && EnvOk(c, env) && FullInv(s) && Enabled(c, env, s, e) && !e.CrashDuring?
    requires sub in s.subscribers
    requires h !in s.db.invoices && h in Step(c, env, s, e).db.invoices
    ensures var s' := Step(c, env, s, e);
            ToldOnce(s'.notices, Notice(sub, StoredSerial(s, e, h), h, SetIdOf(KeysOf(s'.db, h))))
  {
    hide Inv, EnvOk, FullInv, Step, Enabled, CommitAndSettle, SetIdOf, ToldOnce, SettleReply;
    StoreCause(c, env, s, e, h);
    if e.Arrive? {
      AutoStoreTells(c, env, s, e, sub);
    } else {
      SettleStoreTells(c, env, s, e, sub);
    }
  }

  /** Whenever a hash is stored, be it on request, automatically or just before a crash, every
      subscriber has been told of that very completion exactly once, with the id that the stored
      htlcs have. */
  lemma StoredWasAnnounced(c: Config, env: Environment, states: seq<State>, events: seq<Event>, i: nat, h: Hash,
                           sub: nat)
    requires IsRun(c, env, states, events) && EnvOk(c, env) && i < |events| && sub in states[i].subscribers
    requires h !in states[i].db.invoices && h in states[i + 1].db.invoices
    ensures var s, s' := states[i], states[i + 1];
            ToldOnce(s'.notices, Notice(sub, StoredSerial(s, events[i], h), h, SetIdOf(KeysOf(s'.db, h))))
  {
    hide Inv, EnvOk, FullInv, Process, Release, HandleSettle, HandleCancel, AddSubscriber, Mark, SetIdOf, ToldOnce,
      ProcessHtlc, Due;
    RunTells(c, env, states, events, i);
    RunKeepsInv(c, env, states, events, i);
    var e := events[i];
    HandlerStoreTells(c, env, states[i], if e.CrashDuring? then e.during else e, h, sub);
  }
}
