/** Why timer safety needs its two conditions: for every configuration there is a run that makes a
    stale hold timer fire on a newer set, once the accept timeout is not longer than the hold
    duration, or the operator cancels a set. */
module TimerLimits {
  import opened Types
  import opened SetId
  import opened ByteOrder
  import opened StatelessData
  import opened Persistence
  import opened Amounts
  import opened Mux
  import opened Registry
  import opened RegistryInvariants
  import opened Timers
  import opened Punctuality

  // ----- An invoice of value two, paid in parts of one -----

  function Zeros(): (r: seq<byte>)
    ensures |r| == 16
  {
    seq(16, _ => 0)
  }

  /** Late enough for all the timers of the runs below. */
  function Expiry(c: Config): Time {
    ((c.holdDuration + c.acceptTimeout) / SECOND + 1) * SECOND
  }

  function Addr(c: Config): PaymentAddr {
    AddressBytes(Zeros(), 2, Expiry(c))
  }

  function PaymentHash(c: Config): Hash {
    Sha256(Hmac(c.privKey, Addr(c)))
  }

  function Part(c: Config): Htlc {
    Htlc(PaymentHash(c), 0xffff_ffff_ffff_ffff, 1, 0xffff_ffff, 0xffff_ffff,
         Decoded(Payload(1, 0xffff_ffff, Some(Mpp(2, Addr(c))))))
  }

  function Parts(c: Config): Environment {
    _ => Part(c)
  }

  function Key(n: uint64): HtlcKey {
    HtlcKey(seq(33, _ => 0), 0, n)
  }

  lemma PartFacts(c: Config)
    ensures ProcessHtlc(c.policy, Part(c)) == ToRegistry(Part(c).onion.payload)
    ensures DecodeStatelessData(c.privKey, Addr(c)) == StatelessInvoice(2, Expiry(c), Hmac(c.privKey, Addr(c)))
    ensures Expiry(c) > c.holdDuration + c.acceptTimeout
    ensures !ExpiresTooSoon(c, Part(c), 0)
  {
    hide Uint64;
    assert Unix(Expiry(c)) == (c.holdDuration + c.acceptTimeout) / SECOND + 1;
    assert Expiry(c) % SECOND == 0;
    StatelessRoundTrip(c.privKey, Zeros(), 2, Expiry(c));
  }

  lemma PartsOk(c: Config)
    ensures EnvOk(c, Parts(c))
  {
    PartFacts(c);
  }

  // ----- Scenes -----

  function Ones(keys: set<HtlcKey>): map<HtlcKey, int> {
    map k | k in keys :: 1
  }

  ghost predicate Holds(c: Config, s: State, keys: set<HtlcKey>) {
    if keys == {} then PaymentHash(c) !in s.sets
    else PaymentHash(c) in s.sets && s.sets[PaymentHash(c)].value == 2 && s.sets[PaymentHash(c)].htlcs == Ones(keys)
  }

  /** Each of the htlcs has an arrival that waits for its resolution. */
  ghost predicate Awaited(s: State, keys: set<HtlcKey>) {
    forall k :: k in keys ==> k in s.subs && s.subs[k] != []
  }

  /** Nothing is stored, somebody is listening, and memory holds these htlcs and timers. */
  ghost predicate Scene(c: Config, s: State, keys: set<HtlcKey>, heap: multiset<ReleaseEvent>, now: Time) {
    s.db == EMPTY_DB && s.subscribers != {} && s.now == now && s.heap == heap && Holds(c, s, keys) && Awaited(s, keys)
  }

  const ANY: Choice := Choice(true, false, [], [], [])

  function Offer(k: HtlcKey): Event {
    Arrive(k, 0, ANY)
  }

  lemma SumOne(k: HtlcKey)
    ensures Sum(map[k := 1]) == 1
  {
    SumAdd(map[], k, 1);
    assert map[][k := 1] == map[k := 1];
  }

  lemma SumTwo(k: HtlcKey, k': HtlcKey)
    requires k != k'
    ensures Sum(map[k := 1][k' := 1]) == 2
  {
    SumOne(k);
    SumAdd(map[k := 1], k', 1);
  }

  function Invoice(c: Config): StatelessInvoice {
    StatelessInvoice(2, Expiry(c), Hmac(c.privKey, Addr(c)))
  }

  /** A part is accepted as long as the set is incomplete and the invoice has not expired. */
  lemma PartAccepted(c: Config, s: State, k: HtlcKey, keys: set<HtlcKey>, heap: multiset<ReleaseEvent>, now: Time)
    requires Scene(c, s, keys, heap, now) && now <= Expiry(c)
    requires k !in keys && (keys == {} || exists k0 :: keys == {k0})
    ensures Decide(c, s, k, Part(c), 0) == Accept(Invoice(c))
  {
    hide DecodeStatelessData, ProcessHtlc, ExpiresTooSoon, Addr, Expiry;
    PartFacts(c);
    if keys != {} {
      var k0 :| keys == {k0};
      SumOne(k0);
      assert Ones({k0}) == map[k0 := 1];
    }
  }

  /** The first part of a set is held. */
  lemma FirstPart(c: Config, s: State, k: HtlcKey, heap: multiset<ReleaseEvent>, now: Time)
    requires Scene(c, s, {}, heap, now) && now + c.holdDuration <= Expiry(c)
    ensures Scene(c, Step(c, Parts(c), s, Offer(k)), {k},
              heap + multiset{HtlcRelease(PaymentHash(c), now + c.holdDuration, k)}, now)
  {
    hide Decide, Addr, Expiry;
    PartAccepted(c, s, k, {}, heap, now);
    SumOne(k);
    var set1 := Extended(s, k, Part(c), Invoice(c));
    assert set1.htlcs == map[k := 1] == Ones({k});
  }

  lemma CompletedStep(c: Config, s: State, k: HtlcKey)
    requires Decide(c, s, k, Part(c), 0) == Accept(Invoice(c)) && Extended(s, k, Part(c), Invoice(c)).IsComplete()
    ensures Step(c, Parts(c), s, Offer(k))
            == Complete(c, s, k, Part(c), Extended(s, k, Part(c), Invoice(c)), []).(arrivals := s.arrivals + 1)
  {
    hide Decide, Extended, HtlcSet.IsComplete, Complete, CommitAndSettle, Part, Invoice, Admits;
  }

  /** The second part completes the set. */
  lemma SecondPart(c: Config, s: State, k: HtlcKey, k': HtlcKey, heap: multiset<ReleaseEvent>, now: Time)
    requires Scene(c, s, {k}, heap, now) && now <= Expiry(c) && k != k'
    ensures Scene(c, Step(c, Parts(c), s, Offer(k')), {k, k'},
              heap + multiset{AcceptTimeout(PaymentHash(c), now + c.acceptTimeout)}, now)
  {
    hide Decide, Addr, Expiry, NoticesFor, HtlcSet.Id, Step;
    PartAccepted(c, s, k', {k}, heap, now);
    SumTwo(k, k');
    var set1 := Extended(s, k', Part(c), Invoice(c));
    assert Ones({k}) == map[k := 1];
    assert set1.htlcs == map[k := 1][k' := 1] == Ones({k, k'});
    CompletedStep(c, s, k');
  }

  /** The accept timer removes the set and leaves the hold timers behind. */
  lemma TimedOut(c: Config, s: State, keys: set<HtlcKey>, heap: multiset<ReleaseEvent>, at: Time, now: Time)
    requires keys != {} && Scene(c, s, keys, heap, now)
    ensures Scene(c, Step(c, Parts(c), s, Tick(AcceptTimeout(PaymentHash(c), at), ANY)), {},
              heap - multiset{AcceptTimeout(PaymentHash(c), at)}, now)
  {
    hide DeleteAll, Addr, Emitted, Ordered;
    DeleteAllEffect(Popped(s, AcceptTimeout(PaymentHash(c), at)), PaymentHash(c), [], Fail(AcceptTimedOut));
  }

  function Cancel(c: Config, id: SetID): Event {
    CancelRequest(PaymentHash(c), id, ANY)
  }

  /** A cancel removes the set and leaves all its timers behind. */
  lemma Cancelled(c: Config, s: State, k: HtlcKey, k': HtlcKey, heap: multiset<ReleaseEvent>, now: Time)
    requires k != k' && Scene(c, s, {k, k'}, heap, now)
    ensures var e := Cancel(c, SetIdOf({k, k'}));
            CancelsSet(s, e) && Scene(c, Step(c, Parts(c), s, e), {}, heap, now)
  {
    hide DeleteAll, Addr, Emitted, Ordered, SetIdOf;
    SumTwo(k, k');
    assert Ones({k, k'}) == map[k := 1][k' := 1];
    assert Ones({k, k'}).Keys == {k, k'};
    DeleteAllEffect(s, PaymentHash(c), [], Fail(InvoiceNotOpen));
  }

  lemma Waited(c: Config, s: State, keys: set<HtlcKey>, heap: multiset<ReleaseEvent>, now: Time, to: Time)
    requires Scene(c, s, keys, heap, now)
    ensures Scene(c, Step(c, Parts(c), s, Advance(to)), keys, heap, to)
  {
    hide Addr;
  }

  // ----- Runs -----

  /** A run is continued with one more event. */
  lemma OneEventMore(c: Config, states: seq<State>, events: seq<Event>, e: Event)
    requires IsRun(c, Parts(c), states, events) && Enabled(c, Parts(c), states[|events|], e)
    ensures IsRun(c, Parts(c), states + [Step(c, Parts(c), states[|events|], e)], events + [e])
    ensures CancelFree(states, events) && !CancelsSet(states[|events|], e) ==>
              CancelFree(states + [Step(c, Parts(c), states[|events|], e)], events + [e])
  {
    hide Step, Enabled, CancelsSet;
    RunGrows(c, states, events, e, Step(c, Parts(c), states[|events|], e));
  }

  lemma RunGrows(c: Config, states: seq<State>, events: seq<Event>, e: Event, s': State)
    requires IsRun(c, Parts(c), states, events) && Enabled(c, Parts(c), states[|events|], e)
    requires s' == Step(c, Parts(c), states[|events|], e)
    ensures IsRun(c, Parts(c), states + [s'], events + [e])
    ensures CancelFree(states, events) && !CancelsSet(states[|events|], e) ==> CancelFree(states + [s'], events + [e])
  {
    hide Step, Enabled, CancelsSet;
  }

  /** A run whose last event is enabled can be continued; scenes are all that matters. */
  ghost predicate Reaches(c: Config, states: seq<State>, events: seq<Event>, keys: set<HtlcKey>,
                          heap: multiset<ReleaseEvent>, now: Time) {
    IsRun(c, Parts(c), states, events) && Scene(c, states[|events|], keys, heap, now)
  }

  ghost function Next(c: Config, states: seq<State>, events: seq<Event>, e: Event): seq<State>
    requires |states| == |events| + 1
  {
    states + [Step(c, Parts(c), states[|events|], e)]
  }

  lemma OfferEnabled(c: Config, s: State, k: HtlcKey)
    ensures Enabled(c, Parts(c), s, Offer(k)) && !CancelsSet(s, Offer(k))
  {
    PartFacts(c);
  }

  /** Somebody subscribes. */
  lemma Start(c: Config) returns (states: seq<State>, events: seq<Event>)
    ensures Reaches(c, states, events, {}, multiset{}, 0) && CancelFree(states, events)
  {
    hide CompleteHashes, Addr;
    states, events := [Initial(0)], [];
    OneEventMore(c, states, events, Subscribe(ANY));
    states, events := Next(c, states, events, Subscribe(ANY)), events + [Subscribe(ANY)];
  }

  /** The first of two parts has arrived. */
  lemma HeldRun(c: Config) returns (states: seq<State>, events: seq<Event>)
    ensures Reaches(c, states, events, {Key(1)}, multiset{HtlcRelease(PaymentHash(c), c.holdDuration, Key(1))}, 0)
    ensures CancelFree(states, events)
  {
    hide Step, Enabled, Scene, CancelsSet, PaymentHash, Expiry, Addr, Key;
    PartFacts(c);
    states, events := Start(c);
    FirstPart(c, states[|events|], Key(1), multiset{}, 0);
    OfferEnabled(c, states[|events|], Key(1));
    OneEventMore(c, states, events, Offer(Key(1)));
    states, events := Next(c, states, events, Offer(Key(1))), events + [Offer(Key(1))];
    var held := multiset{HtlcRelease(PaymentHash(c), c.holdDuration, Key(1))};
    assert multiset{} + held == held;
  }

  /** Two parts complete the set: one hold timer and the accept timer are pending. */
  lemma CompleteRun(c: Config) returns (states: seq<State>, events: seq<Event>)
    ensures var h := PaymentHash(c);
            Reaches(c, states, events, {Key(1), Key(2)},
                    multiset{HtlcRelease(h, c.holdDuration, Key(1)), AcceptTimeout(h, c.acceptTimeout)}, 0)
    ensures CancelFree(states, events)
  {
    hide Step, Enabled, Scene, CancelsSet, PaymentHash, Expiry, Addr, Key;
    var h := PaymentHash(c);
    PartFacts(c);
    states, events := HeldRun(c);
    var held := multiset{HtlcRelease(h, c.holdDuration, Key(1))};
    KeysDiffer(1, 2);
    SecondPart(c, states[|events|], Key(1), Key(2), held, 0);
    OfferEnabled(c, states[|events|], Key(2));
    OneEventMore(c, states, events, Offer(Key(2)));
    states, events := Next(c, states, events, Offer(Key(2))), events + [Offer(Key(2))];
    assert held + multiset{AcceptTimeout(h, c.acceptTimeout)}
        == multiset{HtlcRelease(h, c.holdDuration, Key(1)), AcceptTimeout(h, c.acceptTimeout)};
  }

  lemma KeysDiffer(m: uint64, n: uint64)
    requires m != n
    ensures Key(m) != Key(n)
  {
    assert Key(m).htlcID != Key(n).htlcID;
  }

  /** The set is gone but the hold timer of its first part is still pending. Another part starts a
      new set, and the timer fires on it. */
  lemma StaleTimer(c: Config, before: seq<State>, past: seq<Event>, heap: multiset<ReleaseEvent>, now: Time)
    returns (states: seq<State>, events: seq<Event>)
    requires Reaches(c, before, past, {}, heap, now) && 0 <= now <= c.holdDuration && now + c.holdDuration <= Expiry(c)
    requires HtlcRelease(PaymentHash(c), c.holdDuration, Key(1)) in heap
    requires forall ev :: ev in heap ==> c.holdDuration <= ev.releaseTime
    ensures IsRun(c, Parts(c), states, events) && |events| == |past| + 3 && past <= events && before <= states
    ensures forall i {:trigger events[i]} :: |past| <= i < |events| ==> !CancelsSet(states[i], events[i])
    ensures Panics(states[|past| + 2], events[|past| + 2])
    ensures CancelFree(before, past) ==> CancelFree(states, events)
  {
    hide Step, Enabled, Scene, CancelsSet, PaymentHash, Expiry, Key, Addr, Panics;
    var h := PaymentHash(c);
    var stale := HtlcRelease(h, c.holdDuration, Key(1));
    states, events := before, past;
    FirstPart(c, states[|events|], Key(3), heap, now);
    OfferEnabled(c, states[|events|], Key(3));
    OneEventMore(c, states, events, Offer(Key(3)));
    states, events := Next(c, states, events, Offer(Key(3))), events + [Offer(Key(3))];
    var heap' := heap + multiset{HtlcRelease(h, now + c.holdDuration, Key(3))};
    Waited(c, states[|events|], {Key(3)}, heap', now, c.holdDuration);
    AdvanceEnabled(c, states[|events|], {Key(3)}, heap', now, c.holdDuration);
    OneEventMore(c, states, events, Advance(c.holdDuration));
    states, events := Next(c, states, events, Advance(c.holdDuration)), events + [Advance(c.holdDuration)];
    assert forall ev :: ev in heap' ==> ev in heap || ev == HtlcRelease(h, now + c.holdDuration, Key(3));
    TickPanics(c, states[|events|], heap', stale);
    OneEventMore(c, states, events, Tick(stale, ANY));
    states, events := Next(c, states, events, Tick(stale, ANY)), events + [Tick(stale, ANY)];
  }

  lemma AdvanceEnabled(c: Config, s: State, keys: set<HtlcKey>, heap: multiset<ReleaseEvent>, now: Time, to: Time)
    requires Scene(c, s, keys, heap, now) && now <= to
    ensures Enabled(c, Parts(c), s, Advance(to)) && !CancelsSet(s, Advance(to))
  {
    hide Addr;
  }

  lemma TickPanics(c: Config, s: State, heap: multiset<ReleaseEvent>, ev: ReleaseEvent)
    requires Scene(c, s, {Key(3)}, heap, ev.releaseTime) && ev in heap
    requires forall other :: other in heap ==> ev.releaseTime <= other.releaseTime
    requires ev.HtlcRelease? && ev.hash == PaymentHash(c) && ev.key == Key(1)
    ensures Enabled(c, Parts(c), s, Tick(ev, ANY)) && Panics(s, Tick(ev, ANY)) && !CancelsSet(s, Tick(ev, ANY))
  {
    hide Addr;
    SumOne(Key(3));
    assert Ones({Key(3)}) == map[Key(3) := 1];
    assert Key(1).htlcID != Key(3).htlcID;
  }

  // ----- The two conditions -----

  /** With an accept timeout that is not longer than the hold duration, a run without cancels can panic. */
  lemma TimeoutRunPanics(c: Config) returns (states: seq<State>, events: seq<Event>)
    requires c.acceptTimeout <= c.holdDuration
    ensures EnvOk(c, Parts(c)) && IsRun(c, Parts(c), states, events) && CancelFree(states, events)
    ensures |events| > 0 && Panics(states[|events| - 1], events[|events| - 1])
  {
    hide Step, Enabled, Scene, CancelsSet, PaymentHash, Expiry, EnvOk;
    var h := PaymentHash(c);
    PartsOk(c);
    PartFacts(c);
    states, events := CompleteRun(c);
    var hold, accept := HtlcRelease(h, c.holdDuration, Key(1)), AcceptTimeout(h, c.acceptTimeout);
    var heap := multiset{hold, accept};
    var keys := {Key(1), Key(2)};
    Waited(c, states[|events|], keys, heap, 0, c.acceptTimeout);
    AdvanceEnabled(c, states[|events|], keys, heap, 0, c.acceptTimeout);
    OneEventMore(c, states, events, Advance(c.acceptTimeout));
    states, events := Next(c, states, events, Advance(c.acceptTimeout)), events + [Advance(c.acceptTimeout)];
    TimedOut(c, states[|events|], keys, heap, c.acceptTimeout, c.acceptTimeout);
    AcceptDue(c, states[|events|], keys, heap, accept);
    OneEventMore(c, states, events, Tick(accept, ANY));
    states, events := Next(c, states, events, Tick(accept, ANY)), events + [Tick(accept, ANY)];
    assert heap - multiset{accept} == multiset{hold};
    states, events := StaleTimer(c, states, events, multiset{hold}, c.acceptTimeout);
  }

  lemma AcceptDue(c: Config, s: State, keys: set<HtlcKey>, heap: multiset<ReleaseEvent>, ev: ReleaseEvent)
    requires Scene(c, s, keys, heap, ev.releaseTime) && ev in heap
    requires forall other :: other in heap ==> ev.releaseTime <= other.releaseTime
    ensures Enabled(c, Parts(c), s, Tick(ev, ANY)) && !CancelsSet(s, Tick(ev, ANY))
  {
    hide Addr;
  }

  /** With a longer accept timeout, one operator cancel is enough. */
  lemma CancelRunPanics(c: Config) returns (states: seq<State>, events: seq<Event>, cancel: nat)
    requires c.acceptTimeout > c.holdDuration
    ensures EnvOk(c, Parts(c)) && IsRun(c, Parts(c), states, events) && cancel < |events|
    ensures CancelsSet(states[cancel], events[cancel])
    ensures forall i {:trigger events[i]} :: 0 <= i < |events| && i != cancel ==> !CancelsSet(states[i], events[i])
    ensures Panics(states[|events| - 1], events[|events| - 1])
  {
    hide Step, Enabled, Scene, CancelsSet, Panics, PaymentHash, Expiry, EnvOk, Key, Addr, SetIdOf;
    var h := PaymentHash(c);
    PartsOk(c);
    PartFacts(c);
    var before, past := CompleteRun(c);
    cancel := |past|;
    var hold, accept := HtlcRelease(h, c.holdDuration, Key(1)), AcceptTimeout(h, c.acceptTimeout);
    var heap := multiset{hold, accept};
    var e := Cancel(c, SetIdOf({Key(1), Key(2)}));
    KeysDiffer(1, 2);
    Cancelled(c, before[cancel], Key(1), Key(2), heap, 0);
    CancelEnabled(c, before[cancel], e);
    OneEventMore(c, before, past, e);
    states, events := StaleTimer(c, Next(c, before, past, e), past + [e], heap, 0);
    OneCancel(before, past, Next(c, before, past, e), past + [e], states, events);
  }

  lemma OneCancel(before: seq<State>, past: seq<Event>, before': seq<State>, past': seq<Event>, states: seq<State>,
                  events: seq<Event>)
    requires |before| == |past| + 1 && |before'| == |past'| + 1 && |states| == |events| + 1
    requires |past| < |past'| <= |events|
    requires past <= past' <= events && before <= before' <= states && CancelFree(before, past)
    requires forall i {:trigger events[i]} :: |past| < i < |events| ==> !CancelsSet(states[i], events[i])
    ensures forall i {:trigger events[i]} :: 0 <= i < |events| && i != |past| ==> !CancelsSet(states[i], events[i])
    ensures states[|past|] == before[|past|] && events[|past|] == past'[|past|]
  {
    hide CancelsSet;
    forall i {:trigger events[i]} | 0 <= i < |events| && i != |past| ensures !CancelsSet(states[i], events[i]) {
      if i < |past| {
        assert events[i] == past[i] && states[i] == before[i];
      }
    }
  }

  lemma CancelEnabled(c: Config, s: State, e: Event)
    requires e.CancelRequest?
    ensures Enabled(c, Parts(c), s, e)
  {
  }

  /** No run without cancels panics. */
  ghost predicate SafeWithoutCancels(c: Config) {
    forall env: Environment, states, events, i ::
      EnvOk(c, env) && IsRun(c, env, states, events) && CancelFree(states, events) && 0 <= i < |events| ==>
        !Panics(states[i], events[i])
  }

  /** Exactly the configurations with an accept timeout longer than the hold duration are safe. */
  lemma SafeConfigurations(c: Config)
    ensures SafeWithoutCancels(c) <==> c.acceptTimeout > c.holdDuration
  {
    hide Step, Enabled, EnvOk, CancelFree, Panics;
    if c.acceptTimeout > c.holdDuration {
      forall env: Environment, states, events, i |
        EnvOk(c, env) && IsRun(c, env, states, events) && CancelFree(states, events) && 0 <= i < |events|
        ensures !Panics(states[i], events[i])
      {
        TimerSafety(c, env, states, events, i);
      }
    } else {
      var states, events := TimeoutRunPanics(c);
    }
  }

  // ----- Early failures after a cancel -----

  /** A hold timer without a set does nothing. */
  lemma StaleHoldIgnored(c: Config, s: State, heap: multiset<ReleaseEvent>, ev: ReleaseEvent, now: Time)
    requires Scene(c, s, {}, heap, now) && ev.HtlcRelease? && ev.hash == PaymentHash(c)
    ensures Scene(c, Step(c, Parts(c), s, Tick(ev, ANY)), {}, heap - multiset{ev}, now)
  {
    hide Addr, HtlcSet.IsComplete;
  }

  /** The htlc belongs to an incomplete set. */
  ghost predicate IsPartial(env: Environment, s: State, k: HtlcKey) {
    var h := env(k).hash;
    h in s.sets && k in s.sets[h].htlcs && !s.sets[h].IsComplete()
  }

  /** A step fails an htlc of an incomplete set with an accept timeout. */
  ghost predicate FailsEarly(env: Environment, s: State, s': State) {
    exists p :: |s.log| <= p < |s'.log| && s'.log[p].resolution == Fail(AcceptTimedOut) &&
      IsPartial(env, s, s'.log[p].key)
  }

  /** Such a failure is not in time. */
  lemma PartialIsEarly(c: Config, env: Environment, s: State, k: HtlcKey)
    requires IsPartial(env, s, k)
    ensures !FailedInTime(c, env, s, k)
  {
    hide HtlcSet.IsComplete;
  }

  lemma OnlyKey(keys: seq<HtlcKey>, k: HtlcKey)
    requires Enumerates(keys, {k})
    ensures keys == [k]
  {
    var first := if |keys| > 0 then keys[0] else k;
    var second := if |keys| > 1 then keys[1] else k;
    assert k in keys;
    assert forall i :: 0 <= i < |keys| ==> keys[i] in keys;
    assert first == second;
  }

  lemma AcceptTimerFailsPart(c: Config, s: State, k: HtlcKey, heap: multiset<ReleaseEvent>, at: Time, now: Time)
    requires Scene(c, s, {k}, heap, now)
    ensures FailsEarly(Parts(c), s, Step(c, Parts(c), s, Tick(AcceptTimeout(PaymentHash(c), at), ANY)))
  {
    hide DeleteAll, Addr, Ordered, PaymentHash;
    var h, ev, res := PaymentHash(c), AcceptTimeout(PaymentHash(c), at), Fail(AcceptTimedOut);
    PartHash(c, k);
    SumOne(k);
    assert Ones({k}) == map[k := 1];
    assert s.sets[h].htlcs.Keys == {k};
    DeleteAllEffect(Popped(s, ev), h, [], res);
    OnlyKey(Ordered([], {k}), k);
    assert [k][..0] == [];
    assert Emitted(s.subs, [k], res) == Entries(s.subs[k], k, res);
    var s' := Step(c, Parts(c), s, Tick(ev, ANY));
    assert s'.log[|s.log|] == Entry(s.subs[k][0], k, res);
  }

  lemma PartHash(c: Config, k: HtlcKey)
    ensures Parts(c)(k).hash == PaymentHash(c)
  {
  }

  /** From here on there is no cancel. */
  ghost predicate NoMoreCancels(before: seq<State>, past: seq<Event>, states: seq<State>, events: seq<Event>) {
    && |before| == |past| + 1 && |states| == |events| + 1 && past <= events && before <= states
    && forall i {:trigger events[i]} :: |past| <= i < |events| ==> !CancelsSet(states[i], events[i])
  }

  lemma OneMoreWithoutCancel(c: Config, before: seq<State>, past: seq<Event>, states: seq<State>, events: seq<Event>,
                             e: Event)
    requires NoMoreCancels(before, past, states, events) && !CancelsSet(states[|events|], e)
    requires Enabled(c, Parts(c), states[|events|], e)
    ensures NoMoreCancels(before, past, Next(c, states, events, e), events + [e]) && |past| <= |events|
  {
    hide CancelsSet, Step, Enabled;
  }

  lemma OfferAndWait(c: Config, before: seq<State>, past: seq<Event>, heap: multiset<ReleaseEvent>)
    returns (states: seq<State>, events: seq<Event>, heap': multiset<ReleaseEvent>)
    requires Reaches(c, before, past, {}, heap, 0) && c.acceptTimeout <= c.holdDuration
    requires heap == multiset{HtlcRelease(PaymentHash(c), c.holdDuration, Key(1)),
               AcceptTimeout(PaymentHash(c), c.acceptTimeout)}
    ensures Reaches(c, states, events, {Key(3)}, heap', c.acceptTimeout) && NoMoreCancels(before, past, states, events)
    ensures Due(states[|events|], AcceptTimeout(PaymentHash(c), c.acceptTimeout))
  {
    hide Step, Enabled, Scene, CancelsSet, PaymentHash, Expiry, Key, Addr, NoMoreCancels;
    var h := PaymentHash(c);
    PartFacts(c);
    states, events := before, past;
    NoCancelYet(before, past);
    FirstPart(c, states[|events|], Key(3), heap, 0);
    OfferEnabled(c, states[|events|], Key(3));
    OneEventMore(c, states, events, Offer(Key(3)));
    OneMoreWithoutCancel(c, before, past, states, events, Offer(Key(3)));
    states, events := Next(c, states, events, Offer(Key(3))), events + [Offer(Key(3))];
    heap' := heap + multiset{HtlcRelease(h, c.holdDuration, Key(3))};
    Waited(c, states[|events|], {Key(3)}, heap', 0, c.acceptTimeout);
    AdvanceEnabled(c, states[|events|], {Key(3)}, heap', 0, c.acceptTimeout);
    OneEventMore(c, states, events, Advance(c.acceptTimeout));
    OneMoreWithoutCancel(c, before, past, states, events, Advance(c.acceptTimeout));
    states, events := Next(c, states, events, Advance(c.acceptTimeout)), events + [Advance(c.acceptTimeout)];
    SceneTimers(c, states[|events|], {Key(3)}, heap', c.acceptTimeout);
  }

  lemma NoCancelYet(before: seq<State>, past: seq<Event>)
    requires |before| == |past| + 1
    ensures NoMoreCancels(before, past, before, past)
  {
  }

  lemma WaitAndOffer(c: Config, before: seq<State>, past: seq<Event>, heap: multiset<ReleaseEvent>, hold: ReleaseEvent)
    returns (states: seq<State>, events: seq<Event>, heap': multiset<ReleaseEvent>)
    requires Reaches(c, before, past, {}, heap, 0) && c.acceptTimeout > c.holdDuration
    requires hold == HtlcRelease(PaymentHash(c), c.holdDuration, Key(1))
    requires heap == multiset{hold, AcceptTimeout(PaymentHash(c), c.acceptTimeout)}
    ensures Reaches(c, states, events, {Key(3)}, heap', c.acceptTimeout) && NoMoreCancels(before, past, states, events)
    ensures Due(states[|events|], AcceptTimeout(PaymentHash(c), c.acceptTimeout))
  {
    hide Step, Enabled, Scene, CancelsSet, PaymentHash, Expiry, Key, Addr, NoMoreCancels;
    var h, accept := PaymentHash(c), AcceptTimeout(PaymentHash(c), c.acceptTimeout);
    PartFacts(c);
    states, events := before, past;
    NoCancelYet(before, past);
    Waited(c, states[|events|], {}, heap, 0, c.acceptTimeout);
    AdvanceEnabled(c, states[|events|], {}, heap, 0, c.acceptTimeout);
    OneEventMore(c, states, events, Advance(c.acceptTimeout));
    OneMoreWithoutCancel(c, before, past, states, events, Advance(c.acceptTimeout));
    states, events := Next(c, states, events, Advance(c.acceptTimeout)), events + [Advance(c.acceptTimeout)];
    StaleHoldIgnored(c, states[|events|], heap, hold, c.acceptTimeout);
    TickEnabled(c, states[|events|], {}, heap, hold, c.acceptTimeout);
    OneEventMore(c, states, events, Tick(hold, ANY));
    OneMoreWithoutCancel(c, before, past, states, events, Tick(hold, ANY));
    states, events := Next(c, states, events, Tick(hold, ANY)), events + [Tick(hold, ANY)];
    assert heap - multiset{hold} == multiset{accept};
    FirstPart(c, states[|events|], Key(3), multiset{accept}, c.acceptTimeout);
    OfferEnabled(c, states[|events|], Key(3));
    OneEventMore(c, states, events, Offer(Key(3)));
    OneMoreWithoutCancel(c, before, past, states, events, Offer(Key(3)));
    states, events := Next(c, states, events, Offer(Key(3))), events + [Offer(Key(3))];
    heap' := multiset{accept} + multiset{HtlcRelease(h, c.acceptTimeout + c.holdDuration, Key(3))};
    SceneTimers(c, states[|events|], {Key(3)}, heap', c.acceptTimeout);
  }

  lemma SceneTimers(c: Config, s: State, keys: set<HtlcKey>, heap: multiset<ReleaseEvent>, now: Time)
    requires Scene(c, s, keys, heap, now)
    ensures s.heap == heap && s.now == now && (keys == {} ==> PaymentHash(c) !in s.sets)
  {
  }

  lemma TickEnabled(c: Config, s: State, keys: set<HtlcKey>, heap: multiset<ReleaseEvent>, ev: ReleaseEvent, now: Time)
    requires Scene(c, s, keys, heap, now) && ev in heap && ev.releaseTime <= now
    requires forall other :: other in heap ==> ev.releaseTime <= other.releaseTime
    ensures Enabled(c, Parts(c), s, Tick(ev, ANY)) && !CancelsSet(s, Tick(ev, ANY))
  {
    hide Addr;
  }

  /** The run in which an operator cancels a complete set, up to the cancel. */
  lemma CancelledRun(c: Config) returns (states: seq<State>, events: seq<Event>, cancel: nat)
    ensures var h := PaymentHash(c);
            Reaches(c, states, events, {},
              multiset{HtlcRelease(h, c.holdDuration, Key(1)), AcceptTimeout(h, c.acceptTimeout)}, 0)
    ensures |events| == cancel + 1 && CancelsSet(states[cancel], events[cancel])
    ensures CancelFree(states[..cancel + 1], events[..cancel])
  {
    hide Step, Enabled, Scene, CancelsSet, PaymentHash, Expiry, Key, Addr, SetIdOf;
    var h := PaymentHash(c);
    var before, past := CompleteRun(c);
    cancel := |past|;
    var heap := multiset{HtlcRelease(h, c.holdDuration, Key(1)), AcceptTimeout(h, c.acceptTimeout)};
    var e := Cancel(c, SetIdOf({Key(1), Key(2)}));
    KeysDiffer(1, 2);
    Cancelled(c, before[cancel], Key(1), Key(2), heap, 0);
    CancelEnabled(c, before[cancel], e);
    OneEventMore(c, before, past, e);
    states, events := Next(c, before, past, e), past + [e];
    assert states[..cancel + 1] == before && events[..cancel] == past;
  }

  /** For every configuration there is a run with exactly one operator cancel in which the accept
      timer of the cancelled set fails an htlc of a newer set that is not complete: failInvoice does
      not ask whether the set is the one that the timer was started for. */
  lemma CancelRunFailsEarly(c: Config) returns (states: seq<State>, events: seq<Event>, cancel: nat)
    ensures EnvOk(c, Parts(c)) && IsRun(c, Parts(c), states, events) && cancel + 1 < |events|
    ensures CancelsSet(states[cancel], events[cancel])
    ensures forall i {:trigger events[i]} :: 0 <= i < |events| && i != cancel ==> !CancelsSet(states[i], events[i])
    ensures var last, h := |events| - 1, PaymentHash(c);
            && h !in states[cancel + 1].sets
            && events[last] == Tick(AcceptTimeout(h, c.acceptTimeout), ANY)
            && AcceptTimeout(h, c.acceptTimeout) in states[cancel + 1].heap
            && FailsEarly(Parts(c), states[last], states[last + 1])
  {
    hide Step, Scene, PaymentHash, Expiry, EnvOk, Key, Addr, FailsEarly, Due, CancelsSet, NoMoreCancels, Holds;
    PartsOk(c);
    var h := PaymentHash(c);
    var before, past;
    before, past, cancel := CancelledRun(c);
    var hold, accept := HtlcRelease(h, c.holdDuration, Key(1)), AcceptTimeout(h, c.acceptTimeout);
    SceneTimers(c, before[cancel + 1], {}, multiset{hold, accept}, 0);
    var heap;
    if c.acceptTimeout <= c.holdDuration {
      states, events, heap := OfferAndWait(c, before, past, multiset{hold, accept});
    } else {
      states, events, heap := WaitAndOffer(c, before, past, multiset{hold, accept}, hold);
    }
    var s, e := states[|events|], Tick(accept, ANY);
    AcceptTimerFailsPart(c, s, Key(3), heap, c.acceptTimeout, c.acceptTimeout);
    TickCancelsNothing(s, e);
    OneEventMore(c, states, events, e);
    OneMoreWithoutCancel(c, before, past, states, events, e);
    states, events := Next(c, states, events, e), events + [e];
    CancelStands(before, past, states, events, cancel);
  }

  lemma TickCancelsNothing(s: State, e: Event)
    requires e.Tick?
    ensures !CancelsSet(s, e)
  {
  }

  lemma CancelStands(before: seq<State>, past: seq<Event>, states: seq<State>, events: seq<Event>, cancel: nat)
    requires NoMoreCancels(before, past, states, events) && |past| == cancel + 1
    requires CancelsSet(before[cancel], past[cancel])
    requires CancelFree(before[..cancel + 1], past[..cancel])
    ensures CancelsSet(states[cancel], events[cancel]) && states[cancel + 1] == before[cancel + 1]
    ensures forall i {:trigger events[i]} :: 0 <= i < |events| && i != cancel ==> !CancelsSet(states[i], events[i])
  {
    hide CancelsSet;
    assert events[cancel] == past[cancel] && states[cancel] == before[cancel];
    forall i {:trigger events[i]} | 0 <= i < |events| && i != cancel ensures !CancelsSet(states[i], events[i]) {
      if i < cancel {
        assert events[i] == past[..cancel][i] && states[i] == before[..cancel + 1][i];
      }
    }
  }

  // ----- Early failures without a cancel -----

  /** Two parts complete the set, the second one after a delay. */
  lemma DelayedRun(c: Config, delay: nat) returns (states: seq<State>, events: seq<Event>)
    requires delay <= Expiry(c)
    ensures var h := PaymentHash(c);
            Reaches(c, states, events, {Key(1), Key(2)},
                    multiset{HtlcRelease(h, c.holdDuration, Key(1)), AcceptTimeout(h, delay + c.acceptTimeout)}, delay)
    ensures CancelFree(states, events)
  {
    hide Step, Enabled, Scene, CancelsSet, PaymentHash, Expiry, Addr, Key;
    var h := PaymentHash(c);
    states, events := HeldRun(c);
    var held := multiset{HtlcRelease(h, c.holdDuration, Key(1))};
    Waited(c, states[|events|], {Key(1)}, held, 0, delay);
    AdvanceEnabled(c, states[|events|], {Key(1)}, held, 0, delay);
    OneEventMore(c, states, events, Advance(delay));
    states, events := Next(c, states, events, Advance(delay)), events + [Advance(delay)];
    KeysDiffer(1, 2);
    SecondPart(c, states[|events|], Key(1), Key(2), held, delay);
    OfferEnabled(c, states[|events|], Key(2));
    OneEventMore(c, states, events, Offer(Key(2)));
    states, events := Next(c, states, events, Offer(Key(2))), events + [Offer(Key(2))];
    assert held + multiset{AcceptTimeout(h, delay + c.acceptTimeout)}
        == multiset{HtlcRelease(h, c.holdDuration, Key(1)), AcceptTimeout(h, delay + c.acceptTimeout)};
  }

  /** The first part of a set is accepted now. */
  lemma FirstPartSince(c: Config, s: State, k: HtlcKey, heap: multiset<ReleaseEvent>, now: Time)
    requires Scene(c, s, {}, heap, now) && now + c.holdDuration <= Expiry(c)
    ensures AcceptedAt(c, Step(c, Parts(c), s, Offer(k)), k, now)
  {
    hide Decide, Addr, Expiry;
    PartAccepted(c, s, k, {}, heap, now);
    SumOne(k);
    var set1 := Extended(s, k, Part(c), Invoice(c));
    assert set1.htlcs == map[k := 1] == Ones({k});
  }

  ghost predicate AcceptedAt(c: Config, s: State, k: HtlcKey, at: Time) {
    var h := PaymentHash(c);
    h in s.sets && k in s.sets[h].since && s.sets[h].since[k] == at && s.sets[h].paymentAddr == Addr(c)
  }

  lemma StillAcceptedAt(c: Config, s: State, k: HtlcKey, at: Time, to: Time)
    requires AcceptedAt(c, s, k, at)
    ensures AcceptedAt(c, Step(c, Parts(c), s, Advance(to)), k, at)
  {
  }

  /** A hold timer that an earlier set left behind fails the htlc before its deadline. */
  lemma HoldTimerFailsEarly(c: Config, s: State, k: HtlcKey, heap: multiset<ReleaseEvent>, at: Time, ev: ReleaseEvent)
    requires Scene(c, s, {k}, heap, ev.releaseTime) && AcceptedAt(c, s, k, at)
    requires ev.HtlcRelease? && ev.hash == PaymentHash(c) && ev.key == k
    requires ev.releaseTime < at + c.holdDuration <= Expiry(c)
    ensures FailsBeforeDeadline(c, Parts(c), s, Step(c, Parts(c), s, Tick(ev, ANY)))
  {
    hide Addr, PaymentHash, Expiry, DecodeStatelessData;
    PartHash(c, k);
    PartFacts(c);
    SumOne(k);
    assert Ones({k}) == map[k := 1];
    var s' := Step(c, Parts(c), s, Tick(ev, ANY));
    assert s'.log[|s.log|] == Entry(s.subs[k][0], k, Fail(MppTimeout));
    assert BeforeDeadline(c, Parts(c), s, k);
  }

  /** For every configuration with a positive hold duration that is not shorter than the accept
      timeout, a run without cancels in which a part that is offered again is failed too early. */
  lemma TimeoutRunFailsEarly(c: Config) returns (states: seq<State>, events: seq<Event>)
    requires c.acceptTimeout <= c.holdDuration && c.holdDuration > 0
    ensures EnvOk(c, Parts(c)) && IsRun(c, Parts(c), states, events) && CancelFree(states, events) && |events| > 0
    ensures FailsBeforeDeadline(c, Parts(c), states[|events| - 1], states[|events|])
  {
    hide Step, Enabled, Scene, CancelsSet, PaymentHash, Expiry, EnvOk, Key, Addr, AcceptedAt, FailsBeforeDeadline;
    PartsOk(c);
    PartFacts(c);
    var h, delay := PaymentHash(c), if c.acceptTimeout == 0 then 1 else 0;
    var at := delay + c.acceptTimeout;
    var hold, accept := HtlcRelease(h, c.holdDuration, Key(1)), AcceptTimeout(h, at);
    var keys, heap := {Key(1), Key(2)}, multiset{hold, accept};
    states, events := DelayedRun(c, delay);
    Waited(c, states[|events|], keys, heap, delay, at);
    AdvanceEnabled(c, states[|events|], keys, heap, delay, at);
    OneEventMore(c, states, events, Advance(at));
    states, events := Next(c, states, events, Advance(at)), events + [Advance(at)];
    TimedOut(c, states[|events|], keys, heap, at, at);
    AcceptDue(c, states[|events|], keys, heap, accept);
    OneEventMore(c, states, events, Tick(accept, ANY));
    states, events := Next(c, states, events, Tick(accept, ANY)), events + [Tick(accept, ANY)];
    assert heap - multiset{accept} == multiset{hold};
    states, events := OfferAgain(c, states, events, hold, at);
  }

  lemma OfferAgain(c: Config, before: seq<State>, past: seq<Event>, hold: ReleaseEvent, at: Time)
    returns (states: seq<State>, events: seq<Event>)
    requires Reaches(c, before, past, {}, multiset{hold}, at) && CancelFree(before, past)
    requires hold == HtlcRelease(PaymentHash(c), c.holdDuration, Key(1)) && 0 < at <= c.holdDuration
    requires at + c.holdDuration <= Expiry(c)
    ensures IsRun(c, Parts(c), states, events) && CancelFree(states, events) && |events| > 0
    ensures FailsBeforeDeadline(c, Parts(c), states[|events| - 1], states[|events|])
  {
    hide Step, Enabled, Scene, CancelsSet, PaymentHash, Expiry, Key, Addr, AcceptedAt, FailsBeforeDeadline;
    var k, heap' := Key(1), multiset{hold} + multiset{HtlcRelease(PaymentHash(c), at + c.holdDuration, Key(1))};
    states, events := before, past;
    FirstPart(c, states[|events|], k, multiset{hold}, at);
    FirstPartSince(c, states[|events|], k, multiset{hold}, at);
    OfferEnabled(c, states[|events|], k);
    OneEventMore(c, states, events, Offer(k));
    states, events := Next(c, states, events, Offer(k)), events + [Offer(k)];
    Waited(c, states[|events|], {k}, heap', at, c.holdDuration);
    StillAcceptedAt(c, states[|events|], k, at, c.holdDuration);
    AdvanceEnabled(c, states[|events|], {k}, heap', at, c.holdDuration);
    OneEventMore(c, states, events, Advance(c.holdDuration));
    states, events := Next(c, states, events, Advance(c.holdDuration)), events + [Advance(c.holdDuration)];
    HoldTimerFailsEarly(c, states[|events|], k, heap', at, hold);
    AcceptDue(c, states[|events|], {k}, heap', hold);
    OneEventMore(c, states, events, Tick(hold, ANY));
    states, events := Next(c, states, events, Tick(hold, ANY)), events + [Tick(hold, ANY)];
  }

  /** No run without cancels fails an htlc with an mpp timeout before its deadline. */
  ghost predicate PunctualWithoutCancels(c: Config) {
    forall env: Environment, states, events, i ::
      EnvOk(c, env) && IsRun(c, env, states, events) && CancelFree(states, events) && 0 <= i < |events| ==>
        !FailsBeforeDeadline(c, env, states[i], states[i + 1])
  }

  /** Exactly the configurations with an accept timeout longer than the hold duration, or without
      any hold duration, are punctual. */
  lemma PunctualConfigurations(c: Config)
    ensures PunctualWithoutCancels(c) <==> c.acceptTimeout > c.holdDuration || c.holdDuration == 0
  {
    hide Step, Enabled, EnvOk, CancelFree, FailsBeforeDeadline;
    if c.acceptTimeout > c.holdDuration || c.holdDuration == 0 {
      forall env: Environment, states, events, i |
        EnvOk(c, env) && IsRun(c, env, states, events) && CancelFree(states, events) && 0 <= i < |events|
        ensures !FailsBeforeDeadline(c, env, states[i], states[i + 1])
      {
        NotBeforeDeadline(c, env, states, events, i);
      }
    } else {
      var states, events := TimeoutRunFailsEarly(c);
      var i := |events| - 1;
      assert FailsBeforeDeadline(c, Parts(c), states[i], states[i + 1]);
    }
  }
}
