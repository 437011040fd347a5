/** The finality pipeline end to end: the handlers of the nodes and the waiting calls work on the
    same database, and what a caller is told is what the nodes have stored. */
module Finality {
  import opened Types
  import opened Persistence
  import Nodes = NodeSettledHandler
  import Waits = SettledHandler

  datatype Joint = Joint(nodes: Nodes.System, waits: Waits.State)

  datatype Event =
    | NodeEvent(action: Nodes.Action)
    | WaitEvent(event: Waits.Event)
    | Crash

  /** What an action of the nodes is for the waiting calls: a change of the database, or nothing. */
  function Effect(s: Nodes.System, a: Nodes.Action): Option<Waits.Event> {
    match a
    case Commit(preimage, value, htlcs) => Some(Waits.RequestSettle(preimage, value, htlcs))
    case LookUp(_, key) => if key in s.final then Some(Waits.MarkFinal(key, s.final[key])) else None
    case Receive(node) =>
      if node in s.handlers && s.handlers[node].Receiving? && s.handlers[node].stream != [] then
        var r := s.handlers[node].stream[0];
        Some(Waits.MarkFinal(r.key, r.settled))
      else None
    case _ => None
  }

  /** Events that leave the database alone. */
  predicate IsLocal(e: Waits.Event) {
    e.Announce? || e.Register? || Waits.IsWaiterEvent(e)
  }

  ghost predicate Enabled(s: Joint, e: Event) {
    match e
    case NodeEvent(a) => Nodes.Enabled(s.nodes, a)
    case WaitEvent(e') => IsLocal(e') && Waits.Enabled(s.waits, e')
    case Crash => true
  }

  /** The process ends: subscriptions and waiting calls are lost. */
  function CrashedNodes(s: Nodes.System): Nodes.System {
    s.(handlers := map node | node in s.handlers :: Nodes.Idle)
  }

  ghost function Step(s: Joint, e: Event): Joint
    requires Enabled(s, e)
  {
    match e
    case NodeEvent(a) =>
      var effect := Effect(s.nodes, a);
      Joint(Nodes.Step(s.nodes, a),
            if effect.Some? && Waits.Enabled(s.waits, effect.value) then Waits.Step(s.waits, effect.value) else s.waits)
    case WaitEvent(e') => s.(waits := Waits.Step(s.waits, e'))
    case Crash => Joint(CrashedNodes(s.nodes), Waits.Crashed(s.waits))
  }

  ghost predicate Inv(s: Joint) {
    Nodes.SystemInv(s.nodes) && Waits.Inv(s.waits) && s.nodes.db == s.waits.db
  }

  /** Both sides see the same change of the database. */
  lemma SameDatabase(s: Joint, a: Nodes.Action)
    requires s.nodes.db == s.waits.db && Nodes.Enabled(s.nodes, a)
    ensures Step(s, NodeEvent(a)).nodes.db == Step(s, NodeEvent(a)).waits.db
  {
    hide MarkHtlcFinal, Inserted;
  }

  lemma LocalDatabase(s: Waits.State, e: Waits.Event)
    requires IsLocal(e) && Waits.Enabled(s, e)
    ensures Waits.Step(s, e).db == s.db
  {
  }

  lemma CrashKeepsNodes(s: Nodes.System)
    requires Nodes.SystemInv(s)
    ensures Nodes.SystemInv(CrashedNodes(s))
  {
    hide DbInv, Nodes.RecordedInv;
  }

  lemma StepKeepsInv(s: Joint, e: Event)
    requires Inv(s) && Enabled(s, e)
    ensures Inv(Step(s, e))
  {
    hide Nodes.SystemInv, Waits.Inv, Nodes.Step, Waits.Step, Effect, CrashedNodes, Waits.Crashed;
    match e
    case NodeEvent(a) =>
      Nodes.StepKeepsSystem(s.nodes, a);
      SameDatabase(s, a);
      EffectEnabled(s, a);
      if Effect(s.nodes, a).Some? {
        Waits.StepKeepsInv(s.waits, Effect(s.nodes, a).value);
      }
    case WaitEvent(e') =>
      Waits.StepKeepsInv(s.waits, e');
      LocalDatabase(s.waits, e');
    case Crash =>
      CrashKeepsNodes(s.nodes);
      Waits.StepKeepsInv(s.waits, Waits.Crash);
      CrashKeepsDatabase(s);
  }

  lemma EffectEnabled(s: Joint, a: Nodes.Action)
    requires s.nodes.db == s.waits.db && Nodes.Enabled(s.nodes, a)
    ensures Effect(s.nodes, a).Some? ==> Waits.Enabled(s.waits, Effect(s.nodes, a).value)
  {
  }

  lemma CrashKeepsDatabase(s: Joint)
    ensures CrashedNodes(s.nodes).db == s.nodes.db && Waits.Crashed(s.waits).db == s.waits.db
    ensures Waits.Step(s.waits, Waits.Crash) == Waits.Crashed(s.waits)
  {
  }

  // ----- Runs -----

  ghost predicate IsStart(s: Joint) {
    && s.nodes.db == EMPTY_DB && s.nodes.final == map[] && s.nodes.unpublished == {}
    && (forall node :: node in s.nodes.handlers ==> s.nodes.handlers[node] == Nodes.Idle)
    && s.waits == Waits.State(EMPTY_DB, map[], map[], [], {})
  }

  ghost predicate IsRun(states: seq<Joint>, events: seq<Event>) {
    && |states| == |events| + 1 && IsStart(states[0])
    && forall i {:trigger events[i]} :: 0 <= i < |events| ==>
         Enabled(states[i], events[i]) && states[i + 1] == Step(states[i], events[i])
  }

  lemma {:induction false} RunKeepsInv(states: seq<Joint>, events: seq<Event>, i: nat)
    requires IsRun(states, events) && i < |states|
    ensures Inv(states[i])
  {
    hide Step, Enabled;
    if i > 0 {
      RunKeepsInv(states, events, i - 1);
      StepKeepsInv(states[i - 1], events[i - 1]);
    }
  }

  /** All nodes have stored a settle for the htlcs of the invoice. */
  ghost predicate SettledAtNodes(s: Nodes.System, h: Hash) {
    forall k :: k in KeysOf(s.db, h) ==> k in s.final && s.final[k]
  }

  /** Some node has stored a failure for an htlc of the invoice. */
  ghost predicate FailedAtNodes(s: Nodes.System, h: Hash) {
    exists k :: k in KeysOf(s.db, h) && k in s.final && !s.final[k]
  }

  /** A final status in the database is what the nodes have stored for all htlcs of the invoice. */
  lemma StatusIsTrue(s: Nodes.System, h: Hash)
    requires Nodes.SystemInv(s) && Waits.IsFinal(s.db, h)
    ensures s.db.invoices[h].status == Settled <==> SettledAtNodes(s, h)
    ensures s.db.invoices[h].status == Failed <==> FailedAtNodes(s, h)
  {
    assert InvoiceInv(s.db, h);
    StatusIsDerived(s.db, h);
    hide DbInv, InvoiceInv, Nodes.HandlerInv;
    if s.db.invoices[h].status == Failed {
      var k :| k in KeysOf(s.db, h) && s.db.htlcs[k].status == Failed;
      assert k in s.final && !s.final[k];
    } else {
      forall k | k in KeysOf(s.db, h) ensures k in s.final && s.final[k] {
        assert s.db.htlcs[k].status == Settled;
      }
    }
  }

  /** In every run, with crashes, error exits and resubscriptions: a caller who is told that the
      invoice is settled can rely on it that every node has stored a settle for every htlc of the
      invoice; and a caller who is told that it failed, that some node has stored a failure. */
  lemma AnswersAreTrue(states: seq<Joint>, events: seq<Event>, i: nat, id: nat)
    requires IsRun(states, events) && i < |states| && id in states[i].waits.waiters
    requires var w := states[i].waits.waiters[id]; w.at.Returned? && w.at.answer.Final?
    ensures var w := states[i].waits.waiters[id];
            && (w.at.answer.settled <==> SettledAtNodes(states[i].nodes, w.hash))
            && (!w.at.answer.settled <==> FailedAtNodes(states[i].nodes, w.hash))
  {
    hide Step, Enabled, Nodes.SystemInv, SettledAtNodes, FailedAtNodes, DbInv;
    RunKeepsInv(states, events, i);
    assert Waits.WaiterInv(states[i].waits, id);
    StatusIsTrue(states[i].nodes, states[i].waits.waiters[id].hash);
  }

  // ----- Outcomes reach the callers -----

  /** Every settle request of the run is in time. */
  ghost predicate CommitsInTime(states: seq<Joint>, events: seq<Event>)
    requires |states| == |events| + 1
  {
    forall i {:trigger events[i]} :: 0 <= i < |events| && events[i].NodeEvent? && events[i].action.Commit? ==>
      Nodes.InTime(states[i].nodes, events[i].action.htlcs)
  }

  lemma CrashMissesNothing(s: Nodes.System)
    ensures Nodes.NoneMissed(CrashedNodes(s))
  {
  }

  lemma {:induction false} RunMissesNothing(states: seq<Joint>, events: seq<Event>, i: nat)
    requires IsRun(states, events) && CommitsInTime(states, events) && i < |states|
    ensures Nodes.NoneMissed(states[i].nodes)
  {
    hide Nodes.Step, Nodes.Enabled, Waits.Step, Waits.Enabled, Effect, Nodes.SystemInv, Waits.Inv, CrashedNodes,
      Waits.Crashed,
      Nodes.InTime;
    if i > 0 {
      RunMissesNothing(states, events, i - 1);
      RunKeepsInv(states, events, i - 1);
      var s, e := states[i - 1].nodes, events[i - 1];
      match e
      case NodeEvent(a) =>
        if a.Commit? {
          Nodes.CommitMissesIff(s, a.preimage, a.value, a.htlcs);
        } else {
          Nodes.StepMissesNothing(s, a);
        }
      case WaitEvent(_) =>
      case Crash => CrashMissesNothing(s);
    }
  }

  /** The outcome of every htlc of the invoice has been sent, and the handlers of their nodes have
      looked up and read everything. */
  ghost predicate AllRead(s: Nodes.System, h: Hash) {
    forall k :: k in KeysOf(s.db, h) ==>
      k in s.final && k !in s.unpublished && k.node in s.handlers && s.handlers[k.node] == Nodes.Receiving([])
  }

  lemma AllReadIsFinal(s: Nodes.System, h: Hash)
    requires Nodes.SystemInv(s) && Nodes.NoneMissed(s) && h in s.db.invoices && AllRead(s, h)
    ensures Waits.IsFinal(s.db, h)
  {
    assert InvoiceInv(s.db, h);
    hide DbInv, Nodes.HandlerInv, Nodes.RecordedInv;
    forall k | k in KeysOf(s.db, h) ensures k !in PendingOf(s.db, h) {
      assert !Nodes.Missed(s, k.node, k);
    }
    assert PendingOf(s.db, h) == {};
  }

  /** When all settle requests are in time: once all outcomes of an invoice have been sent, read and
      announced, every call that waits for the invoice has the true answer in its channel. */
  lemma OutcomesReachCallers(states: seq<Joint>, events: seq<Event>, i: nat, id: nat)
    requires IsRun(states, events) && CommitsInTime(states, events) && i < |states|
    requires id in states[i].waits.waiters && states[i].waits.waiters[id].at == Waits.Waiting
    requires AllRead(states[i].nodes, states[i].waits.waiters[id].hash)
    requires !Waits.Pending(states[i].waits, states[i].waits.waiters[id].hash)
    ensures states[i].waits.waiters[id].buffer == [SettledAtNodes(states[i].nodes, states[i].waits.waiters[id].hash)]
  {
    hide Step, Enabled, Nodes.SystemInv, SettledAtNodes, FailedAtNodes, DbInv, Nodes.NoneMissed, AllRead;
    var s, h := states[i], states[i].waits.waiters[id].hash;
    RunKeepsInv(states, events, i);
    RunMissesNothing(states, events, i);
    assert Waits.WaiterInv(s.waits, id);
    AllReadIsFinal(s.nodes, h);
    StatusIsTrue(s.nodes, h);
  }
}
