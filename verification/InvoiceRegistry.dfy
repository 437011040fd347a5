/** The invoice registry: the handlers of its event loop, working in place on the sets, the hodl
    subscriptions, the release heap and the database. Every handler does what the step machine
    does, and the event loop makes runs of it. */
module InvoiceRegistry {
  import opened Types
  import opened SetId
  import opened StatelessData
  import opened Persistence
  import opened Persister
  import opened Mux
  import Spec = Registry
  import opened Registry
  import opened HtlcSets
  import opened SubscriptionManager

  lemma NotifyNone(s: State, res: Resolution)
    ensures NotifyAll(s, [], res) == s
  {
  }

  lemma NotifyOneMore(s: State, keys: seq<HtlcKey>, k: HtlcKey, res: Resolution)
    ensures NotifyAll(s, keys + [k], res) == Notify(NotifyAll(s, keys, res), k, res)
  {
    assert (keys + [k])[..|keys|] == keys;
  }

  /** The order of the release heap: earlier events first. */
  predicate Less(a: ReleaseEvent, b: ReleaseEvent) {
    a.releaseTime < b.releaseTime
  }

  /** The top of the heap. */
  method Top(heap: multiset<ReleaseEvent>) returns (top: ReleaseEvent)
    requires heap != multiset{}
    ensures top in heap && forall other :: other in heap ==> !Less(other, top)
  {
    top :| top in heap;
    var rest := heap[top := 0];
    while rest != multiset{}
      invariant rest <= heap && top in heap
      invariant forall other :: other in heap && other !in rest ==> !Less(other, top)
      decreases |rest|
    {
      var event :| event in rest;
      if Less(event, top) {
        top := event;
      }
      rest := rest[event := 0];
    }
  }

  lemma NoNotices(s: State, id: nat)
    ensures AcceptedNotices(s, id, []) == []
    ensures forall h :: h in CompleteHashes(s) ==> h in s.sets
  {
  }

  lemma OneNoticeMore(s: State, id: nat, hashes: seq<Hash>, h: Hash)
    requires h in s.sets
    ensures AcceptedNotices(s, id, hashes + [h])
            == AcceptedNotices(s, id, hashes) + [Notice(id, SerialOf(s, h), h, s.sets[h].Id())]
  {
  }

  /** A stored invoice without htlcs, which process reports as an error. */
  ghost predicate Unsettled(db: Db, hash: Hash) {
    hash in db.invoices && KeysOf(db, hash) == {}
  }

  /** How an htlc that pays to a stored invoice is resolved. */
  ghost function StoredResolution(db: Db, hash: Hash, k: HtlcKey): Resolution {
    if hash in db.invoices && k in KeysOf(db, hash) then Settle(db.invoices[hash].preimage, true)
    else Fail(InvoiceNotOpen)
  }

  lemma ProcessStored(c: Config, env: Environment, s: State, k: HtlcKey, height: int32, choice: Choice)
    ensures var arrived := s.(arrivals := s.arrivals + 1);
            && (!choice.getOk || Unsettled(s.db, env(k).hash) ==> Process(c, env, s, k, height, choice) == arrived)
            && (choice.getOk && env(k).hash in s.db.invoices && !Unsettled(s.db, env(k).hash) ==>
                  Process(c, env, s, k, height, choice)
                  == Resolve(arrived, s.arrivals, k, StoredResolution(s.db, env(k).hash, k)))
  {
    hide DecideOpen, Extended, Hold, Complete, CommitAndSettle;
    assert HtlcsOf(s.db, env(k).hash).Keys == KeysOf(s.db, env(k).hash);
    assert HtlcsOf(s.db, env(k).hash) == map[] <==> KeysOf(s.db, env(k).hash) == {};
  }

  /** What process does with an htlc whose hash is not in the database. */
  ghost function OpenArrival(c: Config, s: State, k: HtlcKey, htlc: Htlc, height: int32, choice: Choice): State {
    var arrived := s.(arrivals := s.arrivals + 1);
    match DecideOpen(c, s, k, htlc, height)
    case Reject(outcome) => Resolve(arrived, s.arrivals, k, Fail(outcome))
    case ReAccept => arrived.(subs := Subscribed(s.subs, k, s.arrivals))
    case Accept(invoice) => AcceptedArrival(c, s, k, htlc, invoice, choice)
    case _ => arrived
  }

  lemma ProcessOpen(c: Config, env: Environment, s: State, k: HtlcKey, height: int32, choice: Choice)
    requires choice.getOk && env(k).hash !in s.db.invoices
    ensures Process(c, env, s, k, height, choice) == OpenArrival(c, s, k, env(k), height, choice)
  {
    hide Extended, Hold, CommitAndSettle, NoticesFor, Subscribed, HtlcSet.Id, NewSetTotal, DecodeStatelessData,
      HasRecentSubscribers, ExpiresTooSoon;
  }

  lemma ArrivalsIrrelevant(c: Config, s: State, k: HtlcKey, htlc: Htlc, height: int32)
    ensures DecideOpen(c, s.(arrivals := s.arrivals + 1), k, htlc, height) == DecideOpen(c, s, k, htlc, height)
  {
    hide ToInt64, ToUint64, DecodeStatelessData;
  }

  lemma SameExtension(s: State, k: HtlcKey, htlc: Htlc, invoice: StatelessInvoice)
    ensures Extended(s.(arrivals := s.arrivals + 1), k, htlc, invoice) == Extended(s, k, htlc, invoice)
  {
  }

  /** The htlc was added and its callback is waiting. */
  ghost function Joined(s: State, k: HtlcKey, htlc: Htlc, set1: HtlcSet): State {
    s.(sets := s.sets[htlc.hash := set1], subs := Subscribed(s.subs, k, s.arrivals), arrivals := s.arrivals + 1)
  }

  /** The state after the set with hash `h` was found complete. */
  ghost function Announced(c: Config, s: State, h: Hash, set1: HtlcSet, order: seq<nat>): State {
    s.(sets := s.sets[h := set1.(completed := Some(Completion(s.completions, s.now)))],
       heap := s.heap + multiset{AcceptTimeout(h, s.now + c.acceptTimeout)},
       notices := s.notices + NoticesFor(s, order, h, s.completions, set1.Id()),
       completions := s.completions + 1)
  }

  lemma SameNotices(s: State, s': State, order: seq<nat>, h: Hash, serial: nat, id: SetID)
    requires s.subscribers == s'.subscribers
    ensures NoticesFor(s, order, h, serial, id) == NoticesFor(s', order, h, serial, id)
  {
  }

  lemma CompletedFrom(c: Config, s: State, k: HtlcKey, htlc: Htlc, set1: HtlcSet, order: seq<nat>)
    ensures Announced(c, Joined(s, k, htlc, set1), htlc.hash, set1, order)
            == Complete(c, s, k, htlc, set1, order).(arrivals := s.arrivals + 1)
  {
    hide NoticesFor, Subscribed, HtlcSet.Id;
    SameNotices(s, Joined(s, k, htlc, set1), order, htlc.hash, s.completions, set1.Id());
    var set2 := set1.(completed := Some(Completion(s.completions, s.now)));
    assert s.sets[htlc.hash := set1][htlc.hash := set2] == s.sets[htlc.hash := set2];
  }

  lemma NoticesInOrder(s: State, order: seq<nat>, h: Hash, serial: nat, id: SetID)
    requires Enumerates(order, s.subscribers)
    ensures NoticesFor(s, order, h, serial, id) == NoticesTo(order, h, serial, id)
  {
  }

  class InvoiceRegistry {
    const cfg: Config
    const cdb: PostgresPersister
    const sets: HtlcSetsImpl
    const subscriptionManager: Manager
    /** Callbacks of waiting arrivals; a callback is identified by the number of its arrival. */
    var hodlSubscriptions: map<HtlcKey, seq<nat>>
    var autoReleaseHeap: multiset<ReleaseEvent>
    /** The clock, and what the registry has done so far: resolutions handed to callbacks, notices
        handed to subscribers, arrivals numbered and sets completed. */
    var now: Time
    var log: seq<Entry>
    var notices: seq<Notice>
    var arrivals: nat
    var completions: nat

    ghost predicate Valid()
      reads this, sets
    {
      sets.Valid() && subscriptionManager.gracePeriod == cfg.gracePeriod
    }

    ghost function Repr(): set<object>
      reads this, sets
    {
      {this, cdb, sets, subscriptionManager} + sets.Objects()
    }

    ghost function View(): State
      reads Repr()
    {
      State(sets.View(), hodlSubscriptions, autoReleaseHeap,
            subscriptionManager.acceptSubscriptions, subscriptionManager.nextSubscriberId,
            subscriptionManager.lastSubscriberRemovedAt,
            cdb.Tables(), now, log, notices, arrivals, completions)
    }

    constructor (cfg: Config, now: Time)
      ensures Valid() && this.cfg == cfg && View() == Initial(now)
      ensures fresh(Repr())
    {
      this.cfg := cfg;
      cdb := new PostgresPersister();
      sets := new HtlcSetsImpl();
      subscriptionManager := new Manager(cfg.gracePeriod);
      hodlSubscriptions, autoReleaseHeap := map[], multiset{};
      this.now, log, notices, arrivals, completions := now, [], [], 0, 0;
    }

    lemma SetView(h: Hash)
      ensures h in View().sets <==> h in sets.sets
      ensures h in sets.sets ==> View().sets[h] == sets.sets[h].View() && View().sets[h].htlcs == sets.sets[h].htlcs
    {
    }

    lemma SetKeys()
      ensures View().sets.Keys == sets.sets.Keys
    {
    }

    lemma SetSerial(h: Hash)
      requires h in sets.sets
      ensures SerialOf(View(), h) == (if sets.sets[h].completed.Some? then sets.sets[h].completed.value.serial else 0)
      ensures forall s: State :: s.sets == View().sets ==> SerialOf(s, h) == SerialOf(View(), h)
    {
    }

    // ----- Subscriptions of arrivals -----

    /** hodlSubscribe */
    method HodlSubscribe(callback: nat, key: HtlcKey)
      modifies this`hodlSubscriptions
      ensures hodlSubscriptions == Subscribed(old(hodlSubscriptions), key, callback)
    {
      var subscriptions := if key in hodlSubscriptions then hodlSubscriptions[key] else [];
      subscriptions := subscriptions + [callback];
      hodlSubscriptions := hodlSubscriptions[key := subscriptions];
    }

    /** notifyHodlSubscribers */
    method NotifyHodlSubscribers(key: HtlcKey, res: Resolution)
      modifies this`hodlSubscriptions, this`log
      ensures View() == Notify(old(View()), key, res)
    {
      if key !in hodlSubscriptions {
        return;
      }
      var subscribers := hodlSubscriptions[key];
      var i := 0;
      while i < |subscribers|
        invariant 0 <= i <= |subscribers|
        invariant log == old(log) + Entries(subscribers, key, res)[..i]
        modifies this`log
      {
        log := log + [Entry(subscribers[i], key, res)];
        i := i + 1;
      }
      assert Entries(subscribers, key, res)[..i] == Entries(subscribers, key, res);
      hodlSubscriptions := hodlSubscriptions - {key};
    }

    /** Notify the subscribers of each of the keys, in some order. */
    method NotifyEach(keys: set<HtlcKey>, res: Resolution) returns (ghost order: seq<HtlcKey>)
      modifies this`hodlSubscriptions, this`log
      ensures Enumerates(order, keys)
      ensures View() == NotifyAll(old(View()), order, res)
    {
      hide Notify, NotifyAll;
      order := [];
      NotifyNone(View(), res);
      var rest := keys;
      while rest != {}
        invariant rest <= keys
        invariant Enumerates(order, keys - rest)
        invariant View() == NotifyAll(old(View()), order, res)
        modifies this`hodlSubscriptions, this`log
      {
        var key :| key in rest;
        NotifyHodlSubscribers(key, res);
        NotifyOneMore(old(View()), order, key, res);
        order := order + [key];
        rest := rest - {key};
      }
      assert keys - rest == keys;
    }

    /** deleteAll with a callback that notifies the subscribers of each htlc. */
    method DeleteAll(s: HtlcSetImpl, res: Resolution) returns (ghost order: seq<HtlcKey>)
      requires Valid() && s.Hash() in sets.sets && sets.sets[s.Hash()] == s
      modifies this`hodlSubscriptions, this`log, sets
      ensures Valid() && Repr() <= old(Repr())
      ensures View() == Spec.DeleteAll(old(View()), s.Hash(), order, res)
    {
      hide NotifyAll, HtlcSetsImpl.View, HtlcSetImpl.View;
      assert View().sets[s.Hash()].htlcs == s.htlcs by {
        SetView(s.Hash());
      }
      order := NotifyEach(s.htlcs.Keys, res);
      sets.Delete(s.Hash());
    }

    // ----- Requests -----

    /** getAcceptedSet: a complete set with this id, or else what the database knows. */
    method GetAcceptedSet(hash: Hash, setID: SetID, getOk: bool) returns (s: HtlcSetImpl?, reply: Reply)
      requires Valid()
      ensures reply == CancelReply(View(), hash, setID, Choice(getOk, true, [], [], []))
      ensures reply == Ok <==> s != null
      ensures s != null ==> hash in sets.sets && hash in View().sets && s == sets.sets[hash]
    {
      hide SetIdOf, HtlcSetsImpl.View, HtlcSetImpl.View, HtlcSet.IsComplete;
      if hash !in sets.sets {
        var r := cdb.Get(getOk, hash);
        SetView(hash);
        if !r.Found? {
          return null, if r.NotFound? then ErrInvoiceNotFound else Stopped;
        }
        var keys := Elements(r.htlcs.Keys);
        SetIdOfEnumeration(keys, r.htlcs.Keys);
        var dbSetID := NewSetID(keys);
        SetView(hash);
        return null, if setID != dbSetID then ErrInvoiceNotFound else ErrSettleRequested;
      }
      var id := sets.sets[hash].IsComplete();
      SetView(hash);
      if id != Some(setID) {
        return null, ErrInvoiceNotFound;
      }
      s, reply := sets.sets[hash], Ok;
    }

    /** The process ends and is started again: memory is lost. */
    method Restart()
      requires Valid()
      modifies Repr()
      ensures Valid() && Repr() <= old(Repr())
      ensures View() == Crashed(old(View()))
    {
      sets.sets := map[];
      hodlSubscriptions, autoReleaseHeap := map[], multiset{};
      subscriptionManager.acceptSubscriptions := {};
      subscriptionManager.nextSubscriberId := 0;
      subscriptionManager.lastSubscriberRemovedAt := None;
    }

    /** handleCancelRequest. An error of the database ends the process. */
    method HandleCancelRequest(hash: Hash, setID: SetID, getOk: bool) returns (reply: Reply, ghost choice: Choice)
      requires Valid()
      modifies Repr()
      ensures Valid() && Repr() <= old(Repr()) && choice.getOk == getOk
      ensures reply == CancelReply(old(View()), hash, setID, choice)
      ensures View() == HandleCancel(old(View()), hash, setID, choice)
    {
      hide ReplyFromDb, Spec.Accepted, Spec.DeleteAll, HtlcSetsImpl.View, HtlcSetImpl.View;
      choice := Choice(getOk, true, [], [], []);
      var s;
      s, reply := GetAcceptedSet(hash, setID, getOk);
      if reply == Stopped {
        Restart();
      } else if s != null {
        var order := DeleteAll(s, Fail(InvoiceNotOpen));
        choice := choice.(keyOrder := order);
      }
    }

    /** markSettleRequested: store the invoice and the htlcs of the set. */
    method MarkSettleRequested(s: HtlcSetImpl, commitOk: bool) returns (ok: bool)
      requires Valid() && s.Hash() in sets.sets && sets.sets[s.Hash()] == s
      modifies cdb
      ensures ok <==> commitOk && Admits(old(View()), s.Hash())
      ensures var set0 := s.View();
              View() == if ok
                        then old(View()).(db := Inserted(old(View()).db, set0.preimage, set0.value, set0.htlcs))
                        else old(View())
    {
      hide RowsAdmitted, Inserted, HtlcSetsImpl.View;
      SetView(s.Hash());
      ok := cdb.RequestSettle(commitOk, s.params.preimage, s.params.value, s.htlcs);
      assert cdb as object !in sets.Objects();
      assert sets.View() == old(sets.View());
      ghost var set0 := s.View();
      assert ok ==> View().db == Inserted(old(View()).db, set0.preimage, set0.value, set0.htlcs);
    }

    /** requestSettle: release the preimage for every htlc of the set. */
    method RequestSettle(s: HtlcSetImpl) returns (ghost order: seq<HtlcKey>)
      requires Valid() && s.Hash() in sets.sets && sets.sets[s.Hash()] == s
      modifies this`hodlSubscriptions, this`log, sets
      ensures Valid() && Repr() <= old(Repr())
      ensures View() == Spec.DeleteAll(old(View()), s.Hash(), order, Settle(s.params.preimage, false))
    {
      order := DeleteAll(s, Settle(s.params.preimage, false));
    }

    /** The set is stored and then settled, or nothing happens. */
    method StoreAndSettle(s: HtlcSetImpl, commitOk: bool) returns (ok: bool, ghost order: seq<HtlcKey>)
      requires Valid() && s.Hash() in sets.sets && sets.sets[s.Hash()] == s
      modifies this`hodlSubscriptions, this`log, sets, cdb
      ensures Valid() && Repr() <= old(Repr())
      ensures ok <==> commitOk && Admits(old(View()), s.Hash())
      ensures View() == if ok then CommitAndSettle(old(View()), s.Hash(), order) else old(View())
    {
      hide Inserted, Admits, Spec.DeleteAll, HtlcSetsImpl.View;
      order := [];
      SetView(s.Hash());
      ok := MarkSettleRequested(s, commitOk);
      if ok {
        order := RequestSettle(s);
      }
    }

    /** handleSettleRequest */
    method HandleSettleRequest(hash: Hash, setID: SetID, getOk: bool, commitOk: bool)
      returns (reply: Reply, ghost choice: Choice)
      requires Valid()
      modifies Repr()
      ensures Valid() && Repr() <= old(Repr()) && choice.getOk == getOk && choice.commitOk == commitOk
      ensures reply == SettleReply(cfg, old(View()), hash, setID, choice)
      ensures View() == HandleSettle(cfg, old(View()), hash, setID, choice)
    {
      hide ReplyFromDb, Spec.Accepted, CommitAndSettle, Admits, HtlcSetsImpl.View, HtlcSetImpl.View;
      choice := Choice(getOk, commitOk, [], [], []);
      var s;
      s, reply := GetAcceptedSet(hash, setID, getOk);
      if s == null {
        if reply == Stopped {
          Restart();
        } else if reply == ErrSettleRequested {
          reply := Ok;
        }
        return;
      }
      if cfg.autoSettle {
        reply := ErrAutoSettling;
        return;
      }
      var ok, order := StoreAndSettle(s, commitOk);
      choice := choice.(keyOrder := order);
      if !ok {
        Restart();
        reply := Stopped;
      }
    }

    // ----- Timers -----

    /** Delete an htlc, and its set when it was the last one. */
    method RemoveHtlc(s: HtlcSetImpl, key: HtlcKey)
      requires Valid() && s.Hash() in sets.sets && s == sets.sets[s.Hash()] && key in s.htlcs
      modifies s, sets
      ensures Valid() && Repr() <= old(Repr())
      ensures s.View() == old(s.View()).(htlcs := old(s.htlcs) - {key}, since := old(s.since) - {key})
      ensures View() == old(View()).(
                sets := if s.htlcs == map[]
                  then old(View()).sets - {s.Hash()} else old(View()).sets[s.Hash() := s.View()])
    {
      hide SetIdOf, HtlcSetsImpl.View, HtlcSet.IsComplete;
      s.DeleteHtlc(key);
      sets.OneShrunk(s.Hash());
    }

    /** cancelSingleHtlc. Deleting an htlc that is not in the set is a panic, which ends the process. */
    method CancelSingleHtlc(hash: Hash, key: HtlcKey) returns (panicked: bool)
      requires Valid()
      modifies Repr()
      ensures Valid() && Repr() <= old(Repr())
      ensures panicked <==> ReleasePanics(old(View()), hash, key)
      ensures View() == CancelSingle(old(View()), hash, key)
    {
      hide SetIdOf, HtlcSetsImpl.View, HtlcSet.IsComplete, Notify;
      panicked := false;
      SetView(hash);
      if hash in sets.sets {
        var s := sets.sets[hash];
        var id := s.IsComplete();
        SetView(hash);
        if id == None {
          if key in s.htlcs {
            RemoveHtlc(s, key);
            NotifyHodlSubscribers(key, Fail(MppTimeout));
          } else {
            Restart();
            panicked := true;
          }
        }
      }
    }

    /** failInvoice */
    method FailInvoice(hash: Hash) returns (ghost order: seq<HtlcKey>)
      requires Valid()
      modifies this`hodlSubscriptions, this`log, sets
      ensures Valid() && Repr() <= old(Repr())
      ensures View() == Spec.FailInvoice(old(View()), hash, order)
    {
      hide Spec.DeleteAll, HtlcSetsImpl.View, HtlcSetImpl.View;
      SetView(hash);
      order := [];
      if hash !in sets.sets {
        return;
      }
      order := DeleteAll(sets.sets[hash], Fail(AcceptTimedOut));
    }

    /** The release tick: when the time of the event at the top of the heap has come, it is popped
        and handled. */
    method ReleaseTick() returns (event: Option<ReleaseEvent>, panicked: bool, ghost order: seq<HtlcKey>)
      requires Valid()
      modifies Repr()
      ensures Valid() && Repr() <= old(Repr())
      ensures event.None? ==> View() == old(View()) && forall ev :: ev in old(autoReleaseHeap) ==> now < ev.releaseTime
      ensures event.Some? ==> Due(old(View()), event.value) && View() == Release(old(View()), event.value, order)
      ensures panicked <==> event.Some? && Panics(old(View()), Tick(event.value, Choice(true, true, order, [], [])))
    {
      hide CancelSingle, Spec.FailInvoice, HtlcSetsImpl.View, HtlcSetImpl.View, HtlcSet.IsComplete;
      event, panicked, order := None, false, [];
      if autoReleaseHeap == multiset{} {
        return;
      }
      var head := Top(autoReleaseHeap);
      if now < head.releaseTime {
        return;
      }
      event := Some(head);
      autoReleaseHeap := autoReleaseHeap - multiset{head};
      ghost var popped := View();
      assert popped == Popped(old(View()), head);
      match head
      case HtlcRelease(hash, _, key) => panicked := CancelSingleHtlc(hash, key);
      case AcceptTimeout(hash, _) => order := FailInvoice(hash);
    }

    // ----- Accept subscribers -----

    /** SubscribeAccept and addAcceptSubscriber: the subscriber is told of all complete sets. */
    method AddAcceptSubscriber() returns (id: nat, ghost order: seq<Hash>)
      requires Valid()
      modifies this`notices, subscriptionManager
      ensures Valid() && Repr() == old(Repr())
      ensures id in subscriptionManager.acceptSubscriptions
      ensures View() == AddSubscriber(old(View()), order)
    {
      hide SetIdOf, HtlcSetsImpl.View, HtlcSetImpl.View, HtlcSet.IsComplete, Enumerates, Ordered, HtlcSet.Id;
      id := subscriptionManager.GenerateSubscriptionId();
      subscriptionManager.AddAcceptSubscription(id);
      sets.Unchanged();
      order := TellAccepted(id);
      sets.Unchanged();
    }

    /** Tell a subscriber of all complete sets. */
    method TellAccepted(id: nat) returns (ghost order: seq<Hash>)
      requires Valid()
      modifies this`notices
      ensures Enumerates(order, CompleteHashes(old(View())))
      ensures notices == old(notices) + AcceptedNotices(old(View()), id, order)
    {
      hide SetIdOf, HtlcSetsImpl.View, HtlcSetImpl.View, HtlcSet.IsComplete, AcceptedNotices, HtlcSet.Id, SerialOf;
      ghost var before := View();
      order := [];
      var rest := sets.sets.Keys;
      NoNotices(before, id);
      SetKeys();
      assert CompleteHashes(before) - rest == {};
      while rest != {}
        invariant rest <= sets.sets.Keys
        invariant sets.View() == before.sets
        invariant Enumerates(order, CompleteHashes(before) - rest)
        invariant notices == old(notices) + AcceptedNotices(before, id, order)
        modifies this`notices
      {
        var hash :| hash in rest;
        var s := sets.sets[hash];
        var setID := s.IsComplete();
        sets.Unchanged();
        SetView(hash);
        rest := rest - {hash};
        if setID.Some? {
          var serial := if s.completed.Some? then s.completed.value.serial else 0;
          assert serial == SerialOf(before, hash) by {
            SetSerial(hash);
          }
          OneNoticeMore(before, id, order, hash);
          notices := notices + [Notice(id, serial, s.Hash(), setID.value)];
          order := order + [hash];
        }
        sets.Unchanged();
      }
      assert CompleteHashes(before) - rest == CompleteHashes(before);
    }

    /** deleteAcceptSubscription */
    method DeleteAcceptSubscription(id: nat)
      requires Valid()
      modifies subscriptionManager
      ensures Valid() && Repr() == old(Repr())
      ensures View() == RemoveSubscriber(old(View()), id)
    {
      hide HtlcSetsImpl.View, HtlcSetImpl.View;
      subscriptionManager.DeleteAcceptSubscription(id, now);
    }

    // ----- Arrivals -----

    /** The checks on an htlc whose hash is not in the database. */
    method CheckOpen(k: HtlcKey, htlc: Htlc, height: int32) returns (d: Decision)
      requires Valid()
      ensures d == DecideOpen(cfg, View(), k, htlc, height)
      ensures d.Reject? || d.ReAccept? || d.Accept?
      ensures d.Accept? ==> Sha256(d.invoice.preimage) == htlc.hash
      ensures d.Accept? && htlc.hash in sets.sets ==> !sets.sets[htlc.hash].Accepted(k)
    {
      hide ToInt64, ToUint64, DecodeStatelessData, HtlcSetsImpl.View, ExpiresTooSoon;
      SetView(htlc.hash);
      var record := MppOf(htlc);
      if record.None? {
        return Reject(HtlcInvoiceTypeMismatch);
      }
      var mpp := record.value;
      if mpp.totalMsat == 0 {
        return Reject(HtlcSetTotalTooLow);
      }
      var invoice := DecodeStatelessData(cfg.privKey, mpp.paymentAddr);
      if Sha256(invoice.preimage) != htlc.hash {
        return Reject(AddressMismatch);
      }
      if mpp.totalMsat != ToUint64(invoice.amtMsat) {
        return Reject(HtlcSetTotalMismatch);
      }
      var setTotal := 0;
      if htlc.hash in sets.sets {
        if sets.sets[htlc.hash].Accepted(k) {
          return ReAccept;
        }
        setTotal := sets.sets[htlc.hash].TotalSetAmt();
        SetView(htlc.hash);
      }
      if invoice.expiry < now {
        return Reject(InvoiceExpired);
      }
      var newSetTotal := ToUint64(ToUint64(setTotal) + htlc.outgoingAmountMsat);
      if newSetTotal > mpp.totalMsat {
        return Reject(HtlcSetOverpayment);
      }
      if ExpiresTooSoon(cfg, htlc, height) {
        return Reject(ExpiryTooSoon);
      }
      if htlc.hash !in sets.sets && !cfg.autoSettle && !subscriptionManager.HasRecentSubscribers(now) {
        return Reject(NoAcceptSubscriber);
      }
      d := Accept(invoice);
    }

    /** Create the in-memory state of the set if it does not exist yet, and add the htlc. */
    method AddToSet(k: HtlcKey, htlc: Htlc, invoice: StatelessInvoice) returns (s: HtlcSetImpl)
      requires Valid() && Sha256(invoice.preimage) == htlc.hash
      requires htlc.hash in sets.sets ==> !sets.sets[htlc.hash].Accepted(k)
      modifies sets, sets.Objects()
      ensures Valid() && fresh(Repr() - old(Repr()))
      ensures htlc.hash in sets.sets && s == sets.sets[htlc.hash] && s.Hash() == htlc.hash
      ensures s.View() == Extended(old(View()), k, htlc, invoice)
      ensures View() == old(View()).(sets := old(View()).sets[htlc.hash := s.View()])
    {
      hide ToInt64, HtlcSetsImpl.View;
      SetView(htlc.hash);
      if htlc.hash !in sets.sets {
        var params := HtlcSetParameters(invoice.preimage, invoice.amtMsat, AddrOf(htlc));
        s := sets.Add(params, k, ToInt64(htlc.outgoingAmountMsat), now);
      } else {
        s := sets.sets[htlc.hash];
        s.AddHtlc(k, ToInt64(htlc.outgoingAmountMsat), now);
        sets.OneChanged(htlc.hash);
      }
    }

    /** History: when and as which completion the set became complete. */
    method NoteCompletion(s: HtlcSetImpl, serial: nat)
      requires Valid() && s.Hash() in sets.sets && s == sets.sets[s.Hash()]
      modifies s`completed
      ensures View() == old(View()).(
                sets := old(View()).sets[s.Hash() := old(s.View()).(completed := Some(Completion(serial, now)))])
    {
      hide HtlcSetsImpl.View, SetIdOf, HtlcSet.IsComplete;
      s.completed := Some(Completion(serial, now));
      sets.OneChanged(s.Hash());
    }

    /** startHtlcTimer */
    method StartHtlcTimer(hash: Hash, k: HtlcKey, releaseTime: Time)
      modifies this`autoReleaseHeap
      ensures View() == old(View()).(heap := old(autoReleaseHeap) + multiset{HtlcRelease(hash, releaseTime, k)})
    {
      hide HtlcSetsImpl.View;
      autoReleaseHeap := autoReleaseHeap + multiset{HtlcRelease(hash, releaseTime, k)};
      sets.Unchanged();
    }

    /** Start the accept timer of a complete set and notify the subscribers. */
    method Announce(hash: Hash, id: SetID) returns (ghost order: seq<nat>)
      modifies this`autoReleaseHeap, this`notices, this`completions
      ensures var before := old(View());
              View() == before.(
                heap := before.heap + multiset{AcceptTimeout(hash, before.now + cfg.acceptTimeout)},
                notices := before.notices + NoticesFor(before, order, hash, before.completions, id),
                completions := before.completions + 1)
    {
      hide HtlcSetsImpl.View, HtlcSetImpl.View, Enumerates, NoticesFor, NoticesTo;
      autoReleaseHeap := autoReleaseHeap + multiset{AcceptTimeout(hash, now + cfg.acceptTimeout)};
      var calls;
      calls, order := subscriptionManager.NotifySubscribers(hash, id, completions);
      NoticesInOrder(old(View()), order, hash, completions, id);
      notices := notices + calls;
      completions := completions + 1;
      sets.Unchanged();
    }

    /** The set is complete. In auto-settle mode it is stored and settled at once. */
    method CompleteSet(s: HtlcSetImpl, id: SetID, commitOk: bool) returns (ghost choice: Choice)
      requires Valid() && s.Hash() in sets.sets && s == sets.sets[s.Hash()] && id == s.View().Id()
      modifies this, cdb, sets, s`completed
      ensures Valid() && Repr() <= old(Repr()) && choice.getOk && choice.commitOk == commitOk
      ensures View() == AutoSettled(cfg, Announced(cfg, old(View()), s.Hash(), old(s.View()), choice.subscriberOrder),
                s.Hash(), choice)
    {
      hide HtlcSetsImpl.View, HtlcSetImpl.View, HtlcSet.IsComplete, HtlcSet.Id, NoticesFor, CommitAndSettle, Admits;
      var order := Announce(s.Hash(), id);
      NoteCompletion(s, completions - 1);
      assert View() == Announced(cfg, old(View()), s.Hash(), old(s.View()), order);
      choice := Choice(true, commitOk, [], order, []);
      if cfg.autoSettle {
        var ok, keyOrder := StoreAndSettle(s, commitOk);
        choice := choice.(keyOrder := keyOrder);
      }
    }

    /** Add an accepted htlc to its set and keep its callback. */
    method Join(k: HtlcKey, htlc: Htlc, invoice: StatelessInvoice, callback: nat, ghost before: State)
      returns (s: HtlcSetImpl)
      requires Valid() && Sha256(invoice.preimage) == htlc.hash
      requires htlc.hash in sets.sets ==> !sets.sets[htlc.hash].Accepted(k)
      requires before.arrivals == callback && View() == before.(arrivals := callback + 1)
      modifies this`hodlSubscriptions, sets, sets.Objects()
      ensures Valid() && fresh(Repr() - old(Repr()))
      ensures htlc.hash in sets.sets && s == sets.sets[htlc.hash] && s.Hash() == htlc.hash
      ensures s.View() == Extended(before, k, htlc, invoice)
      ensures View() == Joined(before, k, htlc, s.View())
    {
      hide Extended, HtlcSetsImpl.View, HtlcSetImpl.View, Subscribed;
      SameExtension(before, k, htlc, invoice);
      s := AddToSet(k, htlc, invoice);
      HodlSubscribe(callback, k);
    }

    /** The htlc was added to its set: hold it, or complete the set. */
    method HoldOrComplete(s: HtlcSetImpl, k: HtlcKey, htlc: Htlc, invoice: StatelessInvoice, commitOk: bool,
                          ghost before: State)
      returns (ghost choice: Choice)
      requires Valid() && htlc.hash in sets.sets && s == sets.sets[htlc.hash]
      requires s.View() == Extended(before, k, htlc, invoice) && View() == Joined(before, k, htlc, s.View())
      modifies this, cdb, sets, s`completed
      ensures Valid() && Repr() <= old(Repr()) && choice.getOk && choice.commitOk == commitOk
      ensures View() == AcceptedArrival(cfg, before, k, htlc, invoice, choice)
    {
      hide Extended, HtlcSetsImpl.View, HtlcSetImpl.View, HtlcSet.IsComplete, HtlcSet.Id, NoticesFor,
        Subscribed, HoldUntil, Announced, Complete, AutoSettled;
      ghost var set1 := s.View();
      var setID := s.IsComplete();
      sets.Unchanged();
      if setID.None? {
        choice := Choice(true, commitOk, [], [], []);
        StartHtlcTimer(htlc.hash, k, HoldUntil(cfg, now, invoice.expiry));
      } else {
        choice := CompleteSet(s, setID.value, commitOk);
        CompletedFrom(cfg, before, k, htlc, set1, choice.subscriberOrder);
      }
    }

    /** The last part of process: add the htlc, hold it or complete the set, and settle the set
        at once in auto-settle mode. */
    method AcceptHtlc(k: HtlcKey, htlc: Htlc, invoice: StatelessInvoice, callback: nat, commitOk: bool,
                      ghost before: State)
      returns (ghost choice: Choice)
      requires Valid() && Sha256(invoice.preimage) == htlc.hash
      requires htlc.hash in sets.sets ==> !sets.sets[htlc.hash].Accepted(k)
      requires before.arrivals == callback && View() == before.(arrivals := callback + 1)
      modifies this, cdb, sets, sets.Objects()
      ensures Valid() && fresh(Repr() - old(Repr())) && choice.getOk && choice.commitOk == commitOk
      ensures View() == AcceptedArrival(cfg, before, k, htlc, invoice, choice)
    {
      hide Extended, HtlcSetsImpl.View, HtlcSetImpl.View, Joined, AcceptedArrival;
      var s := Join(k, htlc, invoice, callback, before);
      choice := HoldOrComplete(s, k, htlc, invoice, commitOk, before);
    }

    /** resolveViaDb: an htlc of a stored invoice is resolved at once. */
    method ResolveViaDb(k: HtlcKey, hash: Hash, callback: nat, getOk: bool) returns (resolved: bool, failed: bool)
      modifies this`log
      ensures failed <==> !getOk || Unsettled(old(View()).db, hash)
      ensures resolved <==> !failed && hash in old(View()).db.invoices
      ensures View() == if resolved
                        then Resolve(old(View()), callback, k, StoredResolution(old(View()).db, hash, k))
                        else old(View())
    {
      hide HtlcSetsImpl.View, HtlcSetImpl.View;
      var r := cdb.Get(getOk, hash);
      resolved := r.Found? && r.htlcs != map[];
      failed := r.Unavailable? || (r.Found? && r.htlcs == map[]);
      if resolved {
        var resolution := if k in r.htlcs then Settle(r.invoice.preimage, true) else Fail(InvoiceNotOpen);
        log := log + [Entry(callback, k, resolution)];
      }
      sets.Unchanged();
    }

    /** The part of process for a hash that is not in the database. */
    method ProcessOpenHtlc(k: HtlcKey, htlc: Htlc, height: int32, callback: nat, commitOk: bool, ghost before: State)
      returns (ghost choice: Choice)
      requires Valid()
      requires before.arrivals == callback && View() == before.(arrivals := callback + 1)
      modifies this, cdb, sets, sets.Objects()
      ensures Valid() && fresh(Repr() - old(Repr())) && choice.getOk && choice.commitOk == commitOk
      ensures View() == OpenArrival(cfg, before, k, htlc, height, choice)
    {
      hide DecideOpen, AcceptedArrival, HtlcSetsImpl.View, HtlcSetImpl.View, Subscribed;
      choice := Choice(true, commitOk, [], [], []);
      ArrivalsIrrelevant(cfg, before, k, htlc, height);
      var d := CheckOpen(k, htlc, height);
      match d
      case Reject(outcome) =>
        log := log + [Entry(callback, k, Fail(outcome))];
        sets.Unchanged();
      case ReAccept =>
        HodlSubscribe(callback, k);
        sets.Unchanged();
      case Accept(invoice) =>
        sets.Unchanged();
        choice := AcceptHtlc(k, htlc, invoice, callback, commitOk, before);
    }

    /** process: one more arrival of the htlc with key `k`. The database is asked first. */
    method Process(env: Environment, k: HtlcKey, height: int32, getOk: bool, commitOk: bool)
      returns (ghost choice: Choice)
      requires Valid()
      modifies Repr()
      ensures Valid() && fresh(Repr() - old(Repr())) && choice.getOk == getOk && choice.commitOk == commitOk
      ensures View() == Spec.Process(cfg, env, old(View()), k, height, choice)
    {
      hide Spec.Process, OpenArrival, HtlcSetsImpl.View, HtlcSetImpl.View, Unsettled, StoredResolution, Resolve;
      ghost var before := View();
      var callback := arrivals;
      arrivals := arrivals + 1;
      sets.Unchanged();
      choice := Choice(getOk, commitOk, [], [], []);
      ProcessStored(cfg, env, before, k, height, choice);
      var resolved, failed := ResolveViaDb(k, env(k).hash, callback, getOk);
      if !resolved && !failed {
        choice := ProcessOpenHtlc(k, env(k), height, callback, commitOk, before);
        ProcessOpen(cfg, env, before, k, height, choice);
      }
    }
  }
}
