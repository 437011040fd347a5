/** The finality pipeline: for every node, a handler that subscribes to the final outcomes of
    htlcs, then looks up the htlcs that are still pending in the database, and then processes
    the events of the subscription. */
module NodeSettledHandler {
  import opened Types
  import opened Persistence
  import opened Persister

  // ----- One final outcome -----

  /** Errors that tell that there is nothing left to do for the htlc. */
  predicate Ignored(e: MarkError) {
    e == HtlcAlreadyFinal || e == HtlcNotFound
  }

  /** A final outcome was recorded or needs no recording; otherwise the handler gives up. */
  predicate Handled(r: MarkResult) {
    r.Marked? || Ignored(r.error)
  }

  /** In consistent tables a report is handled exactly when its htlc is unknown or belongs to an
      invoice that is not settled; in particular when it repeats an outcome of such an invoice. */
  lemma HandledIff(db: Db, k: HtlcKey, settled: bool)
    requires DbInv(db)
    ensures k in db.htlcs ==> db.htlcs[k].hash in db.invoices
    ensures Handled(MarkHtlcFinal(db, k, settled).1) <==>
              k !in db.htlcs || db.invoices[db.htlcs[k].hash].status != Settled
  {
    MarkKeepsInv(db, k, settled);
  }

  /** An outcome is new when the htlc is recorded and has none yet. Any other report changes nothing
      and makes no invoice final. */
  lemma OnlyNewOutcomesCount(db: Db, k: HtlcKey, settled: bool)
    requires DbInv(db)
    ensures var (db', r) := MarkHtlcFinal(db, k, settled);
            if k in db.htlcs && db.htlcs[k].status == SettleRequested
            then r.Marked? && k in db'.htlcs && db'.htlcs[k].status == FinalStatus(settled)
            else db' == db && r.MarkFailed?
  {
    MarkKeepsInv(db, k, settled);
    if k in db.htlcs {
      assert InvoiceInv(db, db.htlcs[k].hash) && k in KeysOf(db, db.htlcs[k].hash);
    }
  }

  // ----- The protocol between lnd, the database and the handlers -----

  /** Where the handler of a node stands. `stream` holds the events not yet received. */
  datatype Handler =
    | Idle
    | Subscribed(stream: seq<Report>)
    | Looking(stream: seq<Report>, todo: set<HtlcKey>)
    | Receiving(stream: seq<Report>)

  /** `final` holds the outcomes that the nodes have stored; the events for those in `unpublished`
      have not been sent yet. */
  datatype System = System(
    db: Db,
    final: map<HtlcKey, bool>,
    unpublished: set<HtlcKey>,
    handlers: map<PubKey, Handler>)

  datatype Action =
    | Finalize(key: HtlcKey, settled: bool)   // lnd stores a final outcome
    | Publish(key: HtlcKey)                   // lnd sends the event for a stored outcome
    | Commit(preimage: Preimage, value: int, htlcs: map<HtlcKey, int>) // RequestSettle
    | Subscribe(node: PubKey)
    | ListPending(node: PubKey)
    | LookUp(node: PubKey, key: HtlcKey)
    | StartReceiving(node: PubKey)
    | Receive(node: PubKey)
    | Fail(node: PubKey)                      // any error exit of subscribeEvents

  function PendingOn(db: Db, node: PubKey): set<HtlcKey> {
    set k | k in db.htlcs && k.node == node && db.htlcs[k].status == SettleRequested
  }

  function Delivered(h: Handler, r: Report): Handler {
    if h.Idle? then h else h.(stream := h.stream + [r])
  }

  /** handleFinalHtlc: record the outcome, and return with an error unless it is handled. */
  function Handle(s: System, node: PubKey, r: Report, next: Handler): System {
    var (db, result) := MarkHtlcFinal(s.db, r.key, r.settled);
    s.(db := db, handlers := s.handlers[node := if Handled(result) then next else Idle])
  }

  ghost predicate Enabled(s: System, a: Action) {
    match a
    case Finalize(key, _) => key !in s.final
    case Publish(key) => key in s.final && key in s.unpublished
    case Commit(preimage, value, htlcs) => htlcs != map[] && RowsAdmitted(s.db, preimage, value, htlcs)
    case Subscribe(node) => node in s.handlers && s.handlers[node].Idle?
    case ListPending(node) => node in s.handlers && s.handlers[node].Subscribed?
    case LookUp(node, key) => node in s.handlers && s.handlers[node].Looking? && key in s.handlers[node].todo
    case StartReceiving(node) => node in s.handlers && s.handlers[node].Looking? && s.handlers[node].todo == {}
    case Receive(node) => node in s.handlers && s.handlers[node].Receiving? && s.handlers[node].stream != []
    case Fail(node) => node in s.handlers
  }

  ghost function Step(s: System, a: Action): System
    requires Enabled(s, a)
  {
    match a
    case Finalize(key, settled) =>
      s.(final := s.final[key := settled], unpublished := s.unpublished + {key})
    case Publish(key) =>
      var handlers := if key.node in s.handlers
                      then s.handlers[key.node := Delivered(s.handlers[key.node], Report(key, s.final[key]))]
                      else s.handlers;
      s.(unpublished := s.unpublished - {key}, handlers := handlers)
    case Commit(preimage, value, htlcs) =>
      s.(db := Inserted(s.db, preimage, value, htlcs))
    case Subscribe(node) =>
      s.(handlers := s.handlers[node := Subscribed([])])
    case ListPending(node) =>
      s.(handlers := s.handlers[node := Looking(s.handlers[node].stream, PendingOn(s.db, node))])
    case LookUp(node, key) =>
      var next := Looking(s.handlers[node].stream, s.handlers[node].todo - {key});
      if key in s.final then Handle(s, node, Report(key, s.final[key]), next)
      else s.(handlers := s.handlers[node := next])
    case StartReceiving(node) =>
      s.(handlers := s.handlers[node := Receiving(s.handlers[node].stream)])
    case Receive(node) =>
      var stream := s.handlers[node].stream;
      Handle(s, node, stream[0], Receiving(stream[1..]))
    case Fail(node) =>
      s.(handlers := s.handlers[node := Idle])
  }

  // ----- What every interleaving keeps -----

  /** Unread events are for htlcs of the node and carry the stored outcome. */
  ghost predicate StreamInv(node: PubKey, stream: seq<Report>, final: map<HtlcKey, bool>) {
    forall r :: r in stream ==> r.key.node == node && r.key in final && r.settled == final[r.key]
  }

  /** The htlcs on the lookup list are recorded htlcs of the node. */
  ghost predicate TodoInv(node: PubKey, todo: set<HtlcKey>, db: Db) {
    forall k :: k in todo ==> k.node == node && k in db.htlcs
  }

  ghost predicate HandlerInv(node: PubKey, h: Handler, final: map<HtlcKey, bool>, db: Db) {
    && (!h.Idle? ==> StreamInv(node, h.stream, final))
    && (h.Looking? ==> TodoInv(node, h.todo, db))
  }

  /** What the database has recorded is what lnd reported. */
  ghost predicate RecordedInv(db: Db, final: map<HtlcKey, bool>) {
    forall k :: k in db.htlcs && db.htlcs[k].status != SettleRequested ==>
      k in final && db.htlcs[k].status == FinalStatus(final[k])
  }

  ghost predicate SystemInv(s: System) {
    && DbInv(s.db) && RecordedInv(s.db, s.final) && s.unpublished <= s.final.Keys
    && forall node :: node in s.handlers ==> HandlerInv(node, s.handlers[node], s.final, s.db)
  }

  /** Later outcomes and rows do not disturb a handler. */
  lemma HandlerFramed(node: PubKey, h: Handler, final: map<HtlcKey, bool>, db: Db, final': map<HtlcKey, bool>, db': Db)
    requires HandlerInv(node, h, final, db)
    requires forall k :: k in final ==> k in final' && final'[k] == final[k]
    requires forall k :: k in db.htlcs ==> k in db'.htlcs
    ensures HandlerInv(node, h, final', db')
  {
  }

  lemma MarkKeepsRecorded(db: Db, final: map<HtlcKey, bool>, r: Report)
    requires DbInv(db) && RecordedInv(db, final) && r.key in final && r.settled == final[r.key]
    ensures RecordedInv(Mark(db, r.key, r.settled), final)
  {
    hide DbInv, Mark;
    MarkFrame(db, r.key, r.settled);
    if r.key in db.htlcs {
      MarkSetsHtlc(db, r.key, r.settled);
    }
  }

  /** The handler of a node takes a report and records it. */
  lemma HandleKeepsSystem(s: System, node: PubKey, r: Report, next: Handler)
    requires SystemInv(s) && node in s.handlers && r.key in s.final && r.settled == s.final[r.key]
    requires HandlerInv(node, next, s.final, s.db)
    ensures SystemInv(Handle(s, node, r, next))
  {
    hide DbInv, MarkHtlcFinal, RecordedInv, HandlerInv;
    var s' := Handle(s, node, r, next);
    MarkKeepsInv(s.db, r.key, r.settled);
    MarkKeepsRecorded(s.db, s.final, r);
    MarkFrame(s.db, r.key, r.settled);
    IdleInv(node, s'.final, s'.db);
    forall other | other in s'.handlers ensures HandlerInv(other, s'.handlers[other], s'.final, s'.db) {
      if other != node {
        HandlerFramed(other, s.handlers[other], s.final, s.db, s'.final, s'.db);
      } else {
        HandlerFramed(node, next, s.final, s.db, s'.final, s'.db);
      }
    }
  }

  lemma IdleInv(node: PubKey, final: map<HtlcKey, bool>, db: Db)
    ensures HandlerInv(node, Idle, final, db)
  {
  }

  lemma FinalizeKeepsSystem(s: System, key: HtlcKey, settled: bool)
    requires SystemInv(s) && key !in s.final
    ensures SystemInv(Step(s, Finalize(key, settled)))
  {
    hide DbInv, HandlerInv;
    var s' := Step(s, Finalize(key, settled));
    forall node | node in s'.handlers ensures HandlerInv(node, s'.handlers[node], s'.final, s'.db) {
      HandlerFramed(node, s.handlers[node], s.final, s.db, s'.final, s'.db);
    }
  }

  lemma CommitKeepsSystem(s: System, preimage: Preimage, value: int, htlcs: map<HtlcKey, int>)
    requires SystemInv(s) && Enabled(s, Commit(preimage, value, htlcs))
    ensures SystemInv(Step(s, Commit(preimage, value, htlcs)))
  {
    var s' := Step(s, Commit(preimage, value, htlcs));
    RequestSettleKeepsInv(s.db, preimage, value, htlcs);
    hide DbInv, HandlerInv;
    forall node | node in s'.handlers ensures HandlerInv(node, s'.handlers[node], s'.final, s'.db) {
      HandlerFramed(node, s.handlers[node], s.final, s.db, s'.final, s'.db);
    }
  }

  lemma LookUpKeepsSystem(s: System, node: PubKey, key: HtlcKey)
    requires SystemInv(s) && Enabled(s, LookUp(node, key))
    ensures SystemInv(Step(s, LookUp(node, key)))
  {
    hide DbInv, RecordedInv, Handle;
    var next := Looking(s.handlers[node].stream, s.handlers[node].todo - {key});
    assert HandlerInv(node, s.handlers[node], s.final, s.db);
    assert HandlerInv(node, next, s.final, s.db);
    if key in s.final {
      HandleKeepsSystem(s, node, Report(key, s.final[key]), next);
    }
  }

  lemma ReceiveKeepsSystem(s: System, node: PubKey)
    requires SystemInv(s) && Enabled(s, Receive(node))
    ensures SystemInv(Step(s, Receive(node)))
  {
    hide DbInv, RecordedInv, Handle;
    var stream := s.handlers[node].stream;
    assert HandlerInv(node, s.handlers[node], s.final, s.db);
    assert stream[0] in stream;
    assert HandlerInv(node, Receiving(stream[1..]), s.final, s.db);
    HandleKeepsSystem(s, node, stream[0], Receiving(stream[1..]));
  }

  /** Receiving a report takes it off the stream and records it. The handler goes on with the next
      report, unless the invoice is already settled, which ends the subscription; and a report that
      is unknown or repeated leaves the database as it is. */
  lemma ReceiveGoesOn(s: System, node: PubKey)
    requires SystemInv(s) && Enabled(s, Receive(node))
    ensures var r, rest, s' := s.handlers[node].stream[0], s.handlers[node].stream[1..], Step(s, Receive(node));
            && (r.key in s.db.htlcs ==> s.db.htlcs[r.key].hash in s.db.invoices)
            && s' == s.(db := s'.db, handlers := s.handlers[node := s'.handlers[node]])
            && s'.handlers[node] == (if r.key !in s.db.htlcs || s.db.invoices[s.db.htlcs[r.key].hash].status != Settled
                                     then Receiving(rest) else Idle)
            && (r.key !in s.db.htlcs || s.db.htlcs[r.key].status.IsFinal() ==> s'.db == s.db)
            && (r.key in s.db.htlcs && !s.db.htlcs[r.key].status.IsFinal() ==>
                  r.key in s'.db.htlcs && s'.db.htlcs[r.key].status == FinalStatus(r.settled))
  {
    hide DbInv, MarkHtlcFinal, RecordedInv, HandlerInv, Handled;
    var r := s.handlers[node].stream[0];
    HandledIff(s.db, r.key, r.settled);
    OnlyNewOutcomesCount(s.db, r.key, r.settled);
  }

  lemma StepKeepsSystem(s: System, a: Action)
    requires SystemInv(s) && Enabled(s, a)
    ensures SystemInv(Step(s, a))
  {
    hide DbInv, RecordedInv, Handle;
    match a
    case Finalize(key, settled) => FinalizeKeepsSystem(s, key, settled);
    case Publish(key) =>
      if key.node in s.handlers {
        assert HandlerInv(key.node, s.handlers[key.node], s.final, s.db);
        assert HandlerInv(key.node, Delivered(s.handlers[key.node], Report(key, s.final[key])), s.final, s.db);
      }
    case Commit(preimage, value, htlcs) => CommitKeepsSystem(s, preimage, value, htlcs);
    case LookUp(node, key) => LookUpKeepsSystem(s, node, key);
    case Receive(node) => ReceiveKeepsSystem(s, node);
    case Subscribe(node) =>
    case ListPending(node) => assert HandlerInv(node, s.handlers[node], s.final, s.db);
    case StartReceiving(node) => assert HandlerInv(node, s.handlers[node], s.final, s.db);
    case Fail(node) =>
  }

  // ----- No outcome is missed -----

  /** The handler would not come across this report any more. */
  ghost predicate Overlooks(h: Handler, r: Report) {
    match h
    case Idle => false
    case Subscribed(_) => false
    case Looking(stream, todo) => r.key !in todo && r !in stream
    case Receiving(stream) => r !in stream
  }

  /** The outcome of a pending htlc of this node is known to lnd, and nothing would bring it here. */
  ghost predicate Missed(s: System, node: PubKey, k: HtlcKey)
    requires node in s.handlers
  {
    && k in PendingOn(s.db, node) && k in s.final && k !in s.unpublished
    && Overlooks(s.handlers[node], Report(k, s.final[k]))
  }

  ghost predicate NoneMissed(s: System) {
    forall node, k :: node in s.handlers ==> !Missed(s, node, k)
  }

  /** For every htlc of a settle request that is already final at lnd, the event is still to be sent
      or unread, or the handler of the node has yet to list the pending htlcs. */
  ghost predicate InTime(s: System, htlcs: map<HtlcKey, int>) {
    forall k :: k in htlcs && k in s.final && k !in s.unpublished && k.node in s.handlers ==>
      match s.handlers[k.node]
      case Idle => true
      case Subscribed(_) => true
      case Looking(stream, _) => Report(k, s.final[k]) in stream
      case Receiving(stream) => Report(k, s.final[k]) in stream
  }

  lemma CommitRows(db: Db, preimage: Preimage, value: int, htlcs: map<HtlcKey, int>, node: PubKey)
    requires DbInv(db) && htlcs != map[] && RowsAdmitted(db, preimage, value, htlcs)
    ensures PendingOn(Inserted(db, preimage, value, htlcs), node)
            == PendingOn(db, node) + set k | k in htlcs && k.node == node
  {
  }

  /** A committed settle request leaves no outcome missed, on any node and in any state of its
      handler, exactly when it is in time. */
  lemma CommitMissesIff(s: System, preimage: Preimage, value: int, htlcs: map<HtlcKey, int>)
    requires SystemInv(s) && NoneMissed(s) && Enabled(s, Commit(preimage, value, htlcs))
    ensures NoneMissed(Step(s, Commit(preimage, value, htlcs))) <==> InTime(s, htlcs)
  {
    hide DbInv, RecordedInv, Inserted;
    var s' := Step(s, Commit(preimage, value, htlcs));
    forall node, k | node in s.handlers
      ensures Missed(s', node, k) <==>
              k in htlcs && k.node == node && k in s.final && k !in s.unpublished &&
                Overlooks(s.handlers[node], Report(k, s.final[k]))
    {
      CommitRows(s.db, preimage, value, htlcs, node);
      assert !Missed(s, node, k);
    }
    forall k | k in htlcs && k.node in s.handlers && k in s.final
      ensures var h, r := s.handlers[k.node], Report(k, s.final[k]);
              Overlooks(h, r) <==> (h.Looking? || h.Receiving?) && r !in h.stream
    {
      assert HandlerInv(k.node, s.handlers[k.node], s.final, s.db);
    }
    if InTime(s, htlcs) {
      assert NoneMissed(s');
    } else {
      var k :| k in htlcs && k in s.final && k !in s.unpublished && k.node in s.handlers &&
        (s.handlers[k.node].Looking? || s.handlers[k.node].Receiving?) &&
          Report(k, s.final[k]) !in s.handlers[k.node].stream;
      assert Missed(s', k.node, k);
    }
  }

  /** After handling a report its htlc is no longer pending, and no other htlc becomes pending. */
  lemma MarkedNotPending(db: Db, r: Report, node: PubKey)
    requires DbInv(db)
    ensures PendingOn(Mark(db, r.key, r.settled), node) == PendingOn(db, node) - {r.key}
  {
    hide DbInv, Mark;
    MarkFrame(db, r.key, r.settled);
    if r.key in db.htlcs {
      MarkSetsHtlc(db, r.key, r.settled);
    }
  }

  /** A report may leave the lookup list or the stream when it is recorded. */
  lemma HandleMissesNothing(s: System, node: PubKey, r: Report, next: Handler)
    requires DbInv(s.db) && NoneMissed(s) && node in s.handlers && r.key in s.final
    requires forall r': Report :: r'.key != r.key && Overlooks(next, r') ==> Overlooks(s.handlers[node], r')
    ensures NoneMissed(Handle(s, node, r, next))
  {
    hide DbInv, MarkHtlcFinal, Handled;
    var s' := Handle(s, node, r, next);
    forall other, k | other in s'.handlers ensures !Missed(s', other, k) {
      MarkedNotPending(s.db, r, other);
      assert !Missed(s, other, k);
    }
  }

  lemma LookUpMissesNothing(s: System, node: PubKey, key: HtlcKey)
    requires DbInv(s.db) && NoneMissed(s) && Enabled(s, LookUp(node, key))
    ensures NoneMissed(Step(s, LookUp(node, key)))
  {
    hide DbInv, Handle;
    var next := Looking(s.handlers[node].stream, s.handlers[node].todo - {key});
    if key in s.final {
      HandleMissesNothing(s, node, Report(key, s.final[key]), next);
    } else {
      var s' := Step(s, LookUp(node, key));
      forall other, k | other in s'.handlers ensures !Missed(s', other, k) {
        assert !Missed(s, other, k);
      }
    }
  }

  lemma ReceiveMissesNothing(s: System, node: PubKey)
    requires SystemInv(s) && NoneMissed(s) && Enabled(s, Receive(node))
    ensures NoneMissed(Step(s, Receive(node)))
  {
    hide DbInv, Handle, RecordedInv;
    var stream := s.handlers[node].stream;
    assert HandlerInv(node, s.handlers[node], s.final, s.db);
    assert stream == [stream[0]] + stream[1..];
    assert stream[0] in stream;
    HandleMissesNothing(s, node, stream[0], Receiving(stream[1..]));
  }

  /** Of all actions only a settle request can leave an outcome missed. */
  lemma StepMissesNothing(s: System, a: Action)
    requires SystemInv(s) && NoneMissed(s) && Enabled(s, a) && !a.Commit?
    ensures NoneMissed(Step(s, a))
  {
    hide DbInv, RecordedInv, HandlerInv, Handle;
    if a.LookUp? {
      LookUpMissesNothing(s, a.node, a.key);
    } else if a.Receive? {
      ReceiveMissesNothing(s, a.node);
    } else {
      var s' := Step(s, a);
      forall node, k | node in s'.handlers ensures !Missed(s', node, k) {
        assert !Missed(s, node, k);
      }
    }
  }

  // ----- Runs -----

  /** Runs from an empty database, with idle handlers for a set of nodes. */
  ghost predicate IsRun(states: seq<System>, actions: seq<Action>) {
    && |states| == |actions| + 1
    && states[0].db == EMPTY_DB && states[0].final == map[] && states[0].unpublished == {}
    && (forall node :: node in states[0].handlers ==> states[0].handlers[node] == Idle)
    && forall i {:trigger actions[i]} :: 0 <= i < |actions| ==>
         Enabled(states[i], actions[i]) && states[i + 1] == Step(states[i], actions[i])
  }

  lemma {:induction false} RunKeepsSystem(states: seq<System>, actions: seq<Action>, i: nat)
    requires IsRun(states, actions) && i < |states|
    ensures SystemInv(states[i])
  {
    hide Step, Enabled;
    if i > 0 {
      RunKeepsSystem(states, actions, i - 1);
      StepKeepsSystem(states[i - 1], actions[i - 1]);
    }
  }

  /** Every settle request of the run is in time. */
  ghost predicate CommitsInTime(states: seq<System>, actions: seq<Action>)
    requires IsRun(states, actions)
  {
    forall i {:trigger actions[i]} :: 0 <= i < |actions| && actions[i].Commit? ==> InTime(states[i], actions[i].htlcs)
  }

  lemma {:induction false} RunMissesNothing(states: seq<System>, actions: seq<Action>, i: nat)
    requires IsRun(states, actions) && CommitsInTime(states, actions) && i < |states|
    ensures NoneMissed(states[i])
  {
    hide Step, Enabled, SystemInv, InTime;
    if i > 0 {
      RunMissesNothing(states, actions, i - 1);
      RunKeepsSystem(states, actions, i - 1);
      var a := actions[i - 1];
      if a.Commit? {
        CommitMissesIff(states[i - 1], a.preimage, a.value, a.htlcs);
      } else {
        StepMissesNothing(states[i - 1], a);
      }
    }
  }

  /** Over every interleaving of lnd, settle requests and handlers, with error exits and
      resubscriptions at any point: no outcome is ever missed if and only if every settle request
      is committed in time. */
  lemma NoMissedOutcomeIff(states: seq<System>, actions: seq<Action>)
    requires IsRun(states, actions)
    ensures (forall i :: 0 <= i < |states| ==> NoneMissed(states[i])) <==> CommitsInTime(states, actions)
  {
    hide Step, Enabled, SystemInv, InTime, NoneMissed;
    if CommitsInTime(states, actions) {
      forall i | 0 <= i < |states| ensures NoneMissed(states[i]) {
        RunMissesNothing(states, actions, i);
      }
    }
    if forall i :: 0 <= i < |states| ==> NoneMissed(states[i]) {
      forall i {:trigger actions[i]} | 0 <= i < |actions| &&
        actions[i].Commit? ensures InTime(states[i], actions[i].htlcs) {
        assert NoneMissed(states[i]) && NoneMissed(states[i + 1]);
        RunKeepsSystem(states, actions, i);
        CommitMissesIff(states[i], actions[i].preimage, actions[i].value, actions[i].htlcs);
      }
    }
  }

  /** lnd has no outcome for an htlc before the request to settle it is committed. */
  ghost predicate WellOrdered(states: seq<System>, actions: seq<Action>)
    requires IsRun(states, actions)
  {
    forall i {:trigger actions[i]} :: 0 <= i < |actions| && actions[i].Commit? ==>
      forall k :: k in actions[i].htlcs ==> k !in states[i].final
  }

  /** When lnd finalises no htlc before its settle request, no outcome is missed; and what is
      recorded is always what lnd stored. */
  lemma NoMissedOutcome(states: seq<System>, actions: seq<Action>, i: nat, node: PubKey, k: HtlcKey)
    requires IsRun(states, actions) && i < |states| && node in states[i].handlers
    ensures WellOrdered(states, actions) ==> !Missed(states[i], node, k)
    ensures k in states[i].db.htlcs && states[i].db.htlcs[k].status.IsFinal() ==>
              k in states[i].final && states[i].db.htlcs[k].status == FinalStatus(states[i].final[k])
  {
    hide Step, Enabled, DbInv, HandlerInv;
    RunKeepsSystem(states, actions, i);
    if WellOrdered(states, actions) {
      RunMissesNothing(states, actions, i);
    }
  }

  /** Once a handler has no lookups left and no unread events, the database holds the outcome of
      every htlc of its node for which lnd has sent one. */
  lemma CaughtUp(states: seq<System>, actions: seq<Action>, i: nat, node: PubKey, k: HtlcKey)
    requires IsRun(states, actions) && CommitsInTime(states, actions) && i < |states|
    requires node in states[i].handlers && states[i].handlers[node] == Receiving([])
    requires k in states[i].db.htlcs && k.node == node && k in states[i].final && k !in states[i].unpublished
    ensures states[i].db.htlcs[k].status == FinalStatus(states[i].final[k])
  {
    hide Step, Enabled, DbInv, HandlerInv, InTime;
    RunMissesNothing(states, actions, i);
    RunKeepsSystem(states, actions, i);
    assert !Missed(states[i], node, k);
  }

  ghost predicate Takes(s: System, a: Action, s': System) {
    Enabled(s, a) && s' == Step(s, a)
  }

  /** A handler that has caught up and waits for events. */
  function Waiting(node: PubKey, final: map<HtlcKey, bool>, unpublished: set<HtlcKey>, stream: seq<Report>): System {
    System(EMPTY_DB, final, unpublished, map[node := Receiving(stream)])
  }

  lemma ReachWaiting(node: PubKey)
    ensures var s0 := System(EMPTY_DB, map[], {}, map[node := Idle]);
            var s1 := s0.(handlers := map[node := Subscribed([])]);
            var s2 := s0.(handlers := map[node := Looking([], {})]);
            && Takes(s0, Subscribe(node), s1)
            && Takes(s1, ListPending(node), s2)
            && Takes(s2, StartReceiving(node), Waiting(node, map[], {}, []))
  {
    assert PendingOn(EMPTY_DB, node) == {};
  }

  lemma OutcomeIgnored(node: PubKey, k: HtlcKey)
    requires k.node == node
    ensures Takes(Waiting(node, map[], {}, []), Finalize(k, true), Waiting(node, map[k := true], {k}, []))
    ensures Takes(Waiting(node, map[k := true], {k}, []), Publish(k),
              Waiting(node, map[k := true], {}, [Report(k, true)]))
    ensures Takes(Waiting(node, map[k := true], {}, [Report(k, true)]), Receive(node),
              Waiting(node, map[k := true], {}, []))
  {
    var stream := [Report(k, true)];
    assert [] + stream == stream && stream[1..] == [];
    assert MarkHtlcFinal(EMPTY_DB, k, true) == (EMPTY_DB, MarkFailed(HtlcNotFound));
    assert Step(Waiting(node, map[k := true], {k}, []), Publish(k)).handlers == map[node := Receiving(stream)];
    assert Step(Waiting(node, map[k := true], {}, stream), Receive(node)).handlers == map[node := Receiving([])];
  }

  /** An outcome that lnd reaches before the settle request commits can be received, found not to
      be managed by lnmux, and never be seen again on this subscription. */
  lemma EarlyOutcomeMissed(node: PubKey, k: HtlcKey, preimage: Preimage)
    returns (states: seq<System>, actions: seq<Action>)
    requires k.node == node
    ensures IsRun(states, actions)
    ensures node in states[|actions|].handlers && Missed(states[|actions|], node, k)
  {
    ReachWaiting(node);
    OutcomeIgnored(node, k);
    var s0 := System(EMPTY_DB, map[], {}, map[node := Idle]);
    var s6 := Waiting(node, map[k := true], {}, []);
    var s7 := s6.(db := Inserted(EMPTY_DB, preimage, 1, map[k := 1]));
    assert Takes(s6, Commit(preimage, 1, map[k := 1]), s7);
    states := [s0, s0.(handlers := map[node := Subscribed([])]), s0.(handlers := map[node := Looking([], {})]),
               Waiting(node, map[], {}, []), Waiting(node, map[k := true], {k}, []),
               Waiting(node, map[k := true], {}, [Report(k, true)]), s6, s7];
    actions := [Subscribe(node), ListPending(node), StartReceiving(node), Finalize(k, true), Publish(k), Receive(node),
                Commit(preimage, 1, map[k := 1])];
    RunOf(states, actions);
  }

  lemma RunOf(states: seq<System>, actions: seq<Action>)
    requires |states| == |actions| + 1
    requires states[0].db == EMPTY_DB && states[0].final == map[] && states[0].unpublished == {}
    requires forall node :: node in states[0].handlers ==> states[0].handlers[node] == Idle
    requires forall i {:trigger actions[i]} :: 0 <= i < |actions| ==> Takes(states[i], actions[i], states[i + 1])
    ensures IsRun(states, actions)
  {
  }

  // ----- The handler -----

  /** A final outcome passed to the settled handler. */
  datatype FinalCall = FinalCall(hash: Hash, settled: bool)

  /** The call to the final callback that the result of MarkHtlcFinal causes. */
  function News(r: MarkResult, settled: bool): seq<FinalCall> {
    if r.Marked? && r.finalized.Some? then [FinalCall(r.finalized.value, settled)] else []
  }

  function ResultOf(db: Db, r: Report): MarkResult {
    MarkHtlcFinal(db, r.key, r.settled).1
  }

  /** The calls to the final callback that a list of handled reports causes. */
  function FinalCalls(db: Db, reports: seq<Report>): seq<FinalCall> {
    if reports == [] then []
    else
      var n := |reports| - 1;
      FinalCalls(db, reports[..n]) + News(ResultOf(AfterReports(db, reports[..n]), reports[n]), reports[n].settled)
  }

  /** Why a pass over reports ended. */
  datatype Ending = Finished | LookupFailed(key: HtlcKey) | DbFailed | NotHandled(report: Report)

  /** What lnd answers to the lookup of an htlc. */
  datatype LookupAnswer = Outcome(settled: bool) | NoOutcome | LookupError

  /** The database was up for this report, and it was handled after those before it. */
  ghost predicate HandledAt(db: Db, reports: seq<Report>, up: nat -> bool, from: nat, n: nat)
    requires n < |reports|
  {
    up(from + n) && Handled(ResultOf(AfterReports(db, reports[..n]), reports[n]))
  }

  ghost predicate AllHandled(db: Db, reports: seq<Report>, up: nat -> bool, from: nat) {
    forall n :: 0 <= n < |reports| ==> HandledAt(db, reports, up, from, n)
  }

  /** The pass ended as it had to: after its last report if that could not be handled, or before
      the next one if the database was down, or else with all reports handled. */
  ghost predicate EndsPass(db: Db, reports: seq<Report>, up: nat -> bool, from: nat, ending: Ending) {
    if ending.NotHandled? then
      && reports != [] && ending.report == reports[|reports| - 1]
      && AllHandled(db, reports[..|reports| - 1], up, from) && up(from + |reports| - 1)
      && !Handled(ResultOf(AfterReports(db, reports[..|reports| - 1]), ending.report))
    else AllHandled(db, reports, up, from) && (ending.DbFailed? ==> !up(from + |reports|))
  }

  lemma NoReports(db: Db, up: nat -> bool, from: nat)
    ensures AfterReports(db, []) == db && FinalCalls(db, []) == [] && AllHandled(db, [], up, from)
  {
  }

  lemma AppendReport(db: Db, reports: seq<Report>, r: Report)
    ensures AfterReports(db, reports + [r]) == Mark(AfterReports(db, reports), r.key, r.settled)
    ensures FinalCalls(db, reports + [r]) == FinalCalls(db, reports) + News(ResultOf(AfterReports(db, reports), r),
              r.settled)
  {
    assert (reports + [r])[..|reports|] == reports;
  }

  lemma {:induction false} AppendReports(db: Db, a: seq<Report>, b: seq<Report>)
    ensures AfterReports(db, a + b) == AfterReports(AfterReports(db, a), b)
    ensures FinalCalls(db, a + b) == FinalCalls(db, a) + FinalCalls(AfterReports(db, a), b)
  {
    hide Mark, News, ResultOf;
    if b == [] {
      assert a + b == a;
    } else {
      var n := |b| - 1;
      AppendReports(db, a, b[..n]);
      assert (a + b)[..|a + b| - 1] == a + b[..n] && (a + b)[|a + b| - 1] == b[n];
    }
  }

  /** The pass after one more report. */
  lemma OneReportMore(db: Db, reports: seq<Report>, up: nat -> bool, from: nat, r: Report)
    requires AllHandled(db, reports, up, from)
    ensures !up(from + |reports|) ==> EndsPass(db, reports, up, from, DbFailed)
    ensures up(from + |reports|) && !Handled(ResultOf(AfterReports(db, reports), r)) ==>
              EndsPass(db, reports + [r], up, from, NotHandled(r))
    ensures up(from + |reports|) && Handled(ResultOf(AfterReports(db, reports), r)) ==>
              AllHandled(db, reports + [r], up, from)
  {
    hide AfterReports, ResultOf, Handled;
    var more := reports + [r];
    assert more[..|reports|] == reports;
    forall n | 0 <= n < |reports| ensures HandledAt(db, more, up, from, n) {
      assert HandledAt(db, reports, up, from, n);
      assert more[n] == reports[n] && more[..n] == reports[..n];
    }
  }

  lemma HandledInTurn(db: Db, a: seq<Report>, b: seq<Report>, up: nat -> bool)
    requires AllHandled(db, a, up, 0) && AllHandled(AfterReports(db, a), b, up, |a|)
    ensures AllHandled(db, a + b, up, 0)
  {
    hide AfterReports, ResultOf, Handled;
    forall n | 0 <= n < |a + b| ensures HandledAt(db, a + b, up, 0, n) {
      if n < |a| {
        assert HandledAt(db, a, up, 0, n);
        assert (a + b)[n] == a[n] && (a + b)[..n] == a[..n];
      } else {
        assert HandledAt(AfterReports(db, a), b, up, |a|, n - |a|);
        assert (a + b)[n] == b[n - |a|] && (a + b)[..n] == a + b[..n - |a|];
        AppendReports(db, a, b[..n - |a|]);
      }
    }
  }

  /** A second pass continues the first. */
  lemma LaterEnding(db: Db, a: seq<Report>, b: seq<Report>, up: nat -> bool, ending: Ending)
    requires AllHandled(db, a, up, 0) && EndsPass(AfterReports(db, a), b, up, |a|, ending)
    ensures EndsPass(db, a + b, up, 0, ending)
  {
    hide AfterReports, ResultOf, Handled, AllHandled;
    if ending.NotHandled? {
      var n := |b| - 1;
      HandledInTurn(db, a, b[..n], up);
      AppendReports(db, a, b[..n]);
      assert (a + b)[..|a + b| - 1] == a + b[..n];
    } else {
      HandledInTurn(db, a, b, up);
    }
  }

  lemma UnreachableIsNoNews(settled: bool)
    ensures !Handled(MarkFailed(Unreachable)) && News(MarkFailed(Unreachable), settled) == []
  {
  }

  class NodeHandler {
    const persister: PostgresPersister
    /** The calls made so far. */
    var calls: seq<FinalCall>

    constructor (persister: PostgresPersister)
      ensures this.persister == persister && calls == []
    {
      this.persister := persister;
      calls := [];
    }

    /** handleFinalHtlc */
    method HandleFinalHtlc(available: bool, key: HtlcKey, settled: bool) returns (ok: bool)
      modifies this, persister
      ensures (persister.Tables(), ok, calls) ==
              var (db, r) := MarkAttempt(old(persister.Tables()), available, key, settled);
              (db, Handled(r), old(calls) + News(r, settled))
      ensures DbInv(old(persister.Tables())) ==>
                var db := old(persister.Tables());
                && (key in db.htlcs ==> db.htlcs[key].hash in db.invoices)
                && (ok <==> available && (key !in db.htlcs || db.invoices[db.htlcs[key].hash].status != Settled))
                && (!available || key !in db.htlcs || db.htlcs[key].status.IsFinal() ==>
                      persister.Tables() == db && calls == old(calls))
    {
      if DbInv(persister.Tables()) {
        HandledIff(persister.Tables(), key, settled);
        OnlyNewOutcomesCount(persister.Tables(), key, settled);
      }
      hide MarkHtlcFinal, DbInv;
      var r := persister.MarkHtlcFinal(available, key, settled);
      assert calls + [] == calls;
      if r.MarkFailed? {
        return Ignored(r.error);
      }
      if r.finalized.Some? {
        calls := calls + [FinalCall(r.finalized.value, settled)];
      }
      ok := true;
    }

    /** Handle one more report after those in `reports`. */
    method HandleNext(available: bool, r: Report, ghost db: Db, ghost reports: seq<Report>) returns (ending: Ending)
      requires persister.Tables() == AfterReports(db, reports)
      modifies this, persister
      ensures ending.Finished? || ending == DbFailed || ending == NotHandled(r)
      ensures ending.DbFailed? <==> !available
      ensures ending.NotHandled? <==> available && !Handled(ResultOf(AfterReports(db, reports), r))
      ensures ending.DbFailed? ==> persister.Tables() == AfterReports(db, reports) && calls == old(calls)
      ensures !ending.DbFailed? ==>
                persister.Tables() == AfterReports(db, reports + [r])
                && calls == old(calls) + News(ResultOf(AfterReports(db, reports), r), r.settled)
    {
      hide AfterReports, MarkHtlcFinal, Handled, News;
      AppendReport(db, reports, r);
      UnreachableIsNoNews(r.settled);
      var ok := HandleFinalHtlc(available, r.key, r.settled);
      ending := if ok then Finished else if available then NotHandled(r) else DbFailed;
    }

    /** The lookups of the pending htlcs. `lookup` is what lnd answers when it is asked, and `up`
        tells whether the database can be reached for the n-th report. */
    method LookUpPending(pending: set<HtlcKey>, lookup: HtlcKey -> LookupAnswer, up: nat -> bool)
      returns (reports: seq<Report>, ending: Ending)
      modifies this, persister
      ensures persister.Tables() == AfterReports(old(persister.Tables()), reports)
      ensures calls == old(calls) + FinalCalls(old(persister.Tables()), reports)
      ensures forall r :: r in reports ==> r.key in pending && lookup(r.key) == Outcome(r.settled)
      ensures ending.Finished? ==> forall k :: k in pending && lookup(k).Outcome? ==>
                Report(k, lookup(k).settled) in reports
      ensures ending.Finished? ==> forall k :: k in pending ==> !lookup(k).LookupError?
      ensures EndsPass(old(persister.Tables()), reports, up, 0, ending)
      ensures ending.LookupFailed? ==> ending.key in pending && lookup(ending.key).LookupError?
    {
      hide AfterReports, FinalCalls, MarkHtlcFinal, Handled, AllHandled, News, ResultOf;
      ghost var db := persister.Tables();
      var todo := pending;
      reports := [];
      NoReports(db, up, 0);
      while todo != {}
        invariant persister.Tables() == AfterReports(db, reports)
        invariant calls == old(calls) + FinalCalls(db, reports)
        invariant todo <= pending && AllHandled(db, reports, up, 0)
        invariant forall r :: r in reports ==> r.key in pending && lookup(r.key) == Outcome(r.settled)
        invariant forall k :: k in pending - todo && lookup(k).Outcome? ==> Report(k, lookup(k).settled) in reports
        invariant forall k :: k in pending - todo ==> !lookup(k).LookupError?
        decreases todo
      {
        var k :| k in todo;
        var answer := lookup(k);
        if answer.LookupError? {
          return reports, LookupFailed(k);
        }
        todo := todo - {k};
        if answer.Outcome? {
          var r := Report(k, answer.settled);
          ending := HandleNext(up(|reports|), r, db, reports);
          OneReportMore(db, reports, up, 0, r);
          AppendReport(db, reports, r);
          if !ending.DbFailed? {
            reports := reports + [r];
          }
          if !ending.Finished? {
            return;
          }
        }
      }
      ending := Finished;
    }

    /** The events that the subscription delivers before it ends; `from` reports came before them. */
    method ReceiveEvents(events: seq<Report>, up: nat -> bool, from: nat) returns (reports: seq<Report>, ending: Ending)
      modifies this, persister
      ensures persister.Tables() == AfterReports(old(persister.Tables()), reports)
      ensures calls == old(calls) + FinalCalls(old(persister.Tables()), reports)
      ensures reports <= events && !ending.LookupFailed?
      ensures ending.Finished? ==> reports == events
      ensures EndsPass(old(persister.Tables()), reports, up, from, ending)
    {
      hide AfterReports, FinalCalls, MarkHtlcFinal, Handled, AllHandled, News, ResultOf;
      ghost var db := persister.Tables();
      NoReports(db, up, from);
      reports := [];
      while |reports| < |events|
        invariant reports <= events && AllHandled(db, reports, up, from)
        invariant persister.Tables() == AfterReports(db, reports)
        invariant calls == old(calls) + FinalCalls(db, reports)
      {
        var r := events[|reports|];
        ending := HandleNext(up(from + |reports|), r, db, reports);
        OneReportMore(db, reports, up, from, r);
        AppendReport(db, reports, r);
        if !ending.DbFailed? {
          reports := reports + [r];
        }
        if !ending.Finished? {
          return;
        }
      }
      ending := Finished;
    }

    /** One pass of subscribeEvents. It records a list of reports in turn, the lookups of pending
        htlcs first, and stops early only when lnd or the database fails or at a report that it
        cannot handle. */
    method SubscribeEvents(node: PubKey, listed: bool, lookup: HtlcKey -> LookupAnswer, events: seq<Report>,
                           up: nat -> bool)
      returns (reports: seq<Report>, ending: Ending)
      modifies this, persister
      ensures persister.Tables() == AfterReports(old(persister.Tables()), reports)
      ensures calls == old(calls) + FinalCalls(old(persister.Tables()), reports)
      ensures forall r :: r in reports ==> lookup(r.key) == Outcome(r.settled) || r in events
      ensures !listed ==> reports == [] && ending == DbFailed
      ensures ending.Finished? ==> forall r :: r in events ==> r in reports
      ensures ending.Finished? ==>
                forall k :: k in PendingOn(old(persister.Tables()), node) && lookup(k).Outcome? ==>
                  Report(k, lookup(k).settled) in reports
      ensures listed ==> EndsPass(old(persister.Tables()), reports, up, 0, ending)
      ensures ending.LookupFailed? ==>
                ending.key in PendingOn(old(persister.Tables()), node) && lookup(ending.key).LookupError?
    {
      hide AfterReports, FinalCalls, AllHandled, Handled, ResultOf;
      var todo := persister.GetPendingHtlcs(listed, node);
      NoReports(persister.Tables(), up, 0);
      if todo.None? {
        return [], DbFailed;
      }
      reports, ending := LookUpPending(todo.value, lookup, up);
      if ending.Finished? {
        var received;
        received, ending := ReceiveEvents(events, up, |reports|);
        AppendReports(old(persister.Tables()), reports, received);
        LaterEnding(old(persister.Tables()), reports, received, up, ending);
        reports := reports + received;
      }
    }
  }
}
