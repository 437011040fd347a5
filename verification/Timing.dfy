/** What a step does to the in-memory sets and to the release heap. */
module Timing {
  import opened Types
  import opened StatelessData
  import opened Persistence
  import opened Mux
  import opened Registry
  import opened RegistryInvariants

  datatype Change =
    | Same
    | Held(key: HtlcKey, invoice: StatelessInvoice)
    | Completed(key: HtlcKey, invoice: StatelessInvoice, settled: bool)
    | Removed(hash: Hash, settled: bool)   // settled or cancelled on request
    | Fired(event: ReleaseEvent)
    | Lost

  ghost function ArrivalChange(c: Config, env: Environment, s: State, k: HtlcKey, height: int32,
                               choice: Choice): Change {
    if !choice.getOk || !Decide(c, s, k, env(k), height).Accept? then Same
    else
      var invoice := Decide(c, s, k, env(k), height).invoice;
      var set1 := Extended(s, k, env(k), invoice);
      if !set1.IsComplete() then Held(k, invoice)
      else Completed(k, invoice, c.autoSettle && choice.commitOk)
  }

  ghost function ChangeOf(c: Config, env: Environment, s: State, e: Event): Change {
    match e
    case Arrive(k, height, choice) => ArrivalChange(c, env, s, k, height, choice)
    case Tick(ev, _) => if Panics(s, e) then Lost else Fired(ev)
    case SettleRequest(h, id, choice) =>
      var reply := SettleReply(c, s, h, id, choice);
      if reply == Stopped then Lost else if reply == Ok && h in s.sets then Removed(h, true) else Same
    case CancelRequest(h, id, choice) =>
      var reply := CancelReply(s, h, id, choice);
      if reply == Stopped then Lost else if reply == Ok then Removed(h, false) else Same
    case Crash => Lost
    case CrashDuring(_, _) => Lost
    case _ => Same
  }

  /** The set of an accepted htlc after it was added. */
  ghost function Joined(s: State, k: HtlcKey, htlc: Htlc, invoice: StatelessInvoice): HtlcSet {
    var set1 := Extended(s, k, htlc, invoice);
    if set1.IsComplete() then set1.(completed := Some(Completion(s.completions, s.now))) else set1
  }

  ghost function SetsAfter(env: Environment, s: State, change: Change): map<Hash, HtlcSet> {
    match change
    case Same => s.sets
    case Held(k, invoice) => s.sets[env(k).hash := Joined(s, k, env(k), invoice)]
    case Completed(k, invoice, settled) =>
      if settled then s.sets - {env(k).hash} else s.sets[env(k).hash := Joined(s, k, env(k), invoice)]
    case Removed(h, _) => s.sets - {h}
    case Fired(ev) =>
      if ev.hash !in s.sets then s.sets
      else if ev.AcceptTimeout? then s.sets - {ev.hash}
      else if s.sets[ev.hash].IsComplete() then s.sets
      else Without(s.sets, ev.hash, ev.key)
    case Lost => map[]
  }

  /** The sets after one htlc was deleted. */
  ghost function Without(sets: map<Hash, HtlcSet>, h: Hash, k: HtlcKey): map<Hash, HtlcSet>
    requires h in sets
  {
    var set1 := sets[h].(htlcs := sets[h].htlcs - {k}, since := sets[h].since - {k});
    if set1.htlcs == map[] then sets - {h} else sets[h := set1]
  }

  ghost function HeapAfter(c: Config, env: Environment, s: State, change: Change): multiset<ReleaseEvent> {
    match change
    case Same => s.heap
    case Held(k, invoice) => s.heap + multiset{HtlcRelease(env(k).hash, HoldUntil(c, s.now, invoice.expiry), k)}
    case Completed(k, _, _) => s.heap + multiset{AcceptTimeout(env(k).hash, s.now + c.acceptTimeout)}
    case Removed(_, _) => s.heap
    case Fired(ev) => s.heap - multiset{ev}
    case Lost => multiset{}
  }

  /** The step has exactly this effect on memory, and a settled hash is stored. */
  ghost predicate HasEffect(c: Config, env: Environment, s: State, change: Change, s': State) {
    && s'.sets == SetsAfter(env, s, change)
    && s'.heap == HeapAfter(c, env, s, change)
    && (forall h :: h in s.db.invoices ==> h in s'.db.invoices)
    && (change.Completed? && change.settled ==> env(change.key).hash in s'.db.invoices)
    && (change.Removed? && change.settled ==> change.hash in s'.db.invoices)
  }

  lemma ArrivalEffect(c: Config, env: Environment, s: State, k: HtlcKey, height: int32, choice: Choice)
    requires Inv(c, env, s) && EnvOk(c, env) && ProcessHtlc(c.policy, env(k)).ToRegistry?
    ensures HasEffect(c, env, s, ArrivalChange(c, env, s, k, height, choice), Process(c, env, s, k, height, choice))
    ensures Process(c, env, s, k, height, choice).now == s.now
  {
    hide Inv, EnvOk, Decide, AutoSettled, HtlcSet.IsComplete, Extended, Taken, ProcessHtlc, HasEffect;
    if choice.getOk && Decide(c, s, k, env(k), height).Accept? {
      var invoice := Decide(c, s, k, env(k), height).invoice;
      TakenHasEffect(c, env, s, k, invoice, choice);
      if Extended(s, k, env(k), invoice).IsComplete() {
        AutoSettledHasEffect(c, env, s, k, height, choice);
      }
    } else {
      UnmovedHasEffect(c, env, s, Process(c, env, s, k, height, choice));
    }
  }

  lemma UnmovedHasEffect(c: Config, env: Environment, s: State, s': State)
    requires s'.sets == s.sets && s'.heap == s.heap && s'.db == s.db
    ensures HasEffect(c, env, s, Same, s')
  {
  }

  lemma TakenHasEffect(c: Config, env: Environment, s: State, k: HtlcKey, invoice: StatelessInvoice, choice: Choice)
    ensures var s1 := Taken(c, s, k, env(k), invoice, choice);
            && s1.now == s.now
            && HasEffect(c, env, s, if Extended(s, k, env(k), invoice).IsComplete() then Completed(k, invoice, false)
                                    else Held(k, invoice), s1)
  {
    hide HtlcSet.IsComplete, Extended, Taken, Joined;
    TakenEffect(c, s, k, env(k), invoice, choice);
  }

  lemma AutoSettledHasEffect(c: Config, env: Environment, s: State, k: HtlcKey, height: int32, choice: Choice)
    requires Inv(c, env, s) && EnvOk(c, env) && ProcessHtlc(c.policy, env(k)).ToRegistry?
    requires choice.getOk && Decide(c, s, k, env(k), height).Accept?
    requires Extended(s, k, env(k), Decide(c, s, k, env(k), height).invoice).IsComplete()
    ensures var invoice, s' := Decide(c, s, k, env(k), height).invoice, Process(c, env, s, k, height, choice);
            HasEffect(c, env, s, Completed(k, invoice, c.autoSettle && choice.commitOk), s') && s'.now == s.now
  {
    hide Inv, EnvOk, Decide, CommitAndSettle, Admits, HtlcSet.IsComplete, Extended, Taken, ProcessHtlc, Joined;
    var invoice := Decide(c, s, k, env(k), height).invoice;
    if c.autoSettle && choice.commitOk {
      hide Process;
      AutoSettleEffect(c, env, s, k, height, choice);
    } else {
      TakenHasEffect(c, env, s, k, invoice, choice);
    }
  }

  /** Taking an htlc adds it to its set and starts one timer. */
  lemma TakenEffect(c: Config, s: State, k: HtlcKey, htlc: Htlc, invoice: StatelessInvoice, choice: Choice)
    ensures var s1 := Taken(c, s, k, htlc, invoice, choice);
            && s1.sets == s.sets[htlc.hash := Joined(s, k, htlc, invoice)] && s1.now == s.now && s1.db == s.db
            && s1.heap == s.heap + multiset{
                 if Extended(s, k, htlc, invoice).IsComplete() then AcceptTimeout(htlc.hash, s.now + c.acceptTimeout)
                 else HtlcRelease(htlc.hash, HoldUntil(c, s.now, invoice.expiry), k)}
  {
    hide HtlcSet.IsComplete, Extended, NoticesFor, Subscribed, HtlcSet.Id, HoldUntil;
  }

  lemma AutoSettleEffect(c: Config, env: Environment, s: State, k: HtlcKey, height: int32, choice: Choice)
    requires Inv(c, env, s) && EnvOk(c, env) && ProcessHtlc(c.policy, env(k)).ToRegistry?
    requires choice.getOk && choice.commitOk && c.autoSettle && Decide(c, s, k, env(k), height).Accept?
    requires Extended(s, k, env(k), Decide(c, s, k, env(k), height).invoice).IsComplete()
    ensures var s' := Process(c, env, s, k, height, choice);
            && s'.sets == s.sets - {env(k).hash} && s'.now == s.now
            && s'.heap == s.heap + multiset{AcceptTimeout(env(k).hash, s.now + c.acceptTimeout)}
            && s'.db.invoices.Keys == s.db.invoices.Keys + {env(k).hash}
  {
    hide Inv, EnvOk, Decide, CommitAndSettle, Admits, HtlcSet.IsComplete, Extended, Taken, Emitted, Ordered,
      ProcessHtlc,
      Joined, Acceptable;
    var invoice := Decide(c, s, k, env(k), height).invoice;
    var s1 := Taken(c, s, k, env(k), invoice, choice);
    AcceptFacts(c, env, s, k, height, invoice);
    TakenKeepsInv(c, env, s, k, invoice, choice);
    TakenEffect(c, s, k, env(k), invoice, choice);
    AdmittedHash(c, env, s1, env(k).hash);
    CommitAndSettleEffect(s1, env(k).hash, choice.keyOrder);
    assert s1.sets - {env(k).hash} == s.sets - {env(k).hash};
  }

  lemma AdmittedHash(c: Config, env: Environment, s: State, h: Hash)
    requires Inv(c, env, s) && EnvOk(c, env) && h in s.sets
    ensures Admits(s, h) && Sha256(s.sets[h].preimage) == h
  {
    hide SubsInv, LogInv, Admits, StoreInv, MemberInv;
    SetIsAdmitted(c, env, s, h);
    assert SetInv(c, env, h, s.sets[h]);
  }

  lemma TimeoutEffect(s: State, h: Hash, at: Time, order: seq<HtlcKey>)
    ensures var ev := AcceptTimeout(h, at);
            var s' := Release(s, ev, order);
            && s'.sets == (if h in s.sets then s.sets - {h} else s.sets)
            && s'.heap == s.heap - multiset{ev} && s'.db == s.db && s'.now == s.now
  {
    hide DeleteAll, Emitted, Ordered;
    var s1 := Popped(s, AcceptTimeout(h, at));
    if h in s.sets {
      DeleteAllEffect(s1, h, order, Fail(AcceptTimedOut));
      assert FailInvoice(s1, h, order) == DeleteAll(s1, h, order, Fail(AcceptTimedOut));
    }
  }

  lemma HoldEffect(s: State, h: Hash, at: Time, k: HtlcKey, order: seq<HtlcKey>)
    requires !ReleasePanics(s, h, k)
    ensures var ev := HtlcRelease(h, at, k);
            var s' := Release(s, ev, order);
            && s'.sets == (if h !in s.sets || s.sets[h].IsComplete() then s.sets else Without(s.sets, h, k))
            && s'.heap == s.heap - multiset{ev} && s'.db == s.db && s'.now == s.now
  {
    hide HtlcSet.IsComplete;
  }

  lemma TickEffect(c: Config, env: Environment, s: State, ev: ReleaseEvent, choice: Choice)
    ensures HasEffect(c, env, s, ChangeOf(c, env, s, Tick(ev, choice)), Release(s, ev, choice.keyOrder))
    ensures Release(s, ev, choice.keyOrder).now == s.now
  {
    hide HtlcSet.IsComplete, Release, Without, HasEffect;
    match ev
    case AcceptTimeout(h, at) => TimeoutHasEffect(c, env, s, h, at, choice.keyOrder);
    case HtlcRelease(h, at, k) => HoldHasEffect(c, env, s, h, at, k, choice.keyOrder);
  }

  lemma TimeoutHasEffect(c: Config, env: Environment, s: State, h: Hash, at: Time, order: seq<HtlcKey>)
    ensures var s' := Release(s, AcceptTimeout(h, at), order);
            HasEffect(c, env, s, Fired(AcceptTimeout(h, at)), s') && s'.now == s.now
  {
    hide Release, HtlcSet.IsComplete, Without;
    TimeoutEffect(s, h, at, order);
  }

  lemma HoldHasEffect(c: Config, env: Environment, s: State, h: Hash, at: Time, k: HtlcKey, order: seq<HtlcKey>)
    ensures var ev, s' := HtlcRelease(h, at, k), Release(s, HtlcRelease(h, at, k), order);
            HasEffect(c, env, s, if ReleasePanics(s, h, k) then Lost else Fired(ev), s') && s'.now == s.now
  {
    hide Release, HtlcSet.IsComplete, Without;
    if ReleasePanics(s, h, k) {
      PanicEffect(s, h, at, k, order);
    } else {
      HoldEffect(s, h, at, k, order);
    }
  }

  lemma PanicEffect(s: State, h: Hash, at: Time, k: HtlcKey, order: seq<HtlcKey>)
    requires ReleasePanics(s, h, k)
    ensures Release(s, HtlcRelease(h, at, k), order) == Crashed(s)
  {
    hide HtlcSet.IsComplete;
  }

  lemma RequestEffect(c: Config, env: Environment, s: State, e: Event)
    requires Inv(c, env, s) && EnvOk(c, env) && (e.SettleRequest? || e.CancelRequest?)
    ensures HasEffect(c, env, s, ChangeOf(c, env, s, e), Step(c, env, s, e))
    ensures Step(c, env, s, e).now == s.now
  {
    hide Inv, EnvOk, DeleteAll, CommitAndSettle, HasEffect, SettleReply, CancelReply;
    QuietEffect(c, env, s);
    if e.SettleRequest? && SettleReply(c, s, e.hash, e.id, e.choice) == Ok && e.hash in s.sets {
      SettledHasEffect(c, env, s, e.hash, e.choice.keyOrder);
    } else if e.CancelRequest? && CancelReply(s, e.hash, e.id, e.choice) == Ok {
      CancelKnowsSet(s, e.hash, e.id, e.choice);
      CancelledHasEffect(c, env, s, e.hash, e.choice.keyOrder);
    }
  }

  lemma QuietEffect(c: Config, env: Environment, s: State)
    ensures HasEffect(c, env, s, Same, s) && HasEffect(c, env, s, Lost, Crashed(s))
  {
  }

  lemma SettledHasEffect(c: Config, env: Environment, s: State, h: Hash, order: seq<HtlcKey>)
    requires Inv(c, env, s) && EnvOk(c, env) && h in s.sets
    ensures var s' := CommitAndSettle(s, h, order); HasEffect(c, env, s, Removed(h, true), s') && s'.now == s.now
  {
    hide Inv, EnvOk, CommitAndSettle, Admits, Emitted, Ordered;
    AdmittedHash(c, env, s, h);
    CommitAndSettleEffect(s, h, order);
  }

  lemma CancelledHasEffect(c: Config, env: Environment, s: State, h: Hash, order: seq<HtlcKey>)
    requires h in s.sets
    ensures var s' := DeleteAll(s, h, order, Fail(InvoiceNotOpen));
            HasEffect(c, env, s, Removed(h, false), s') && s'.now == s.now
  {
    hide DeleteAll, Emitted, Ordered;
    DeleteAllEffect(s, h, order, Fail(InvoiceNotOpen));
  }

  lemma StepEffect(c: Config, env: Environment, s: State, e: Event)
    requires Inv(c, env, s) && EnvOk(c, env) && Enabled(c, env, s, e) && !e.CrashDuring?
    ensures HasEffect(c, env, s, ChangeOf(c, env, s, e), Step(c, env, s, e))
    ensures Step(c, env, s, e).now == if e.Advance? then e.to else s.now
  {
    hide Inv, EnvOk, Process, Release, HandleSettle, HandleCancel, ArrivalChange, Mark, ProcessHtlc, Panics,
      SettleReply, CancelReply;
    match e
    case Arrive(k, height, choice) => ArrivalEffect(c, env, s, k, height, choice);
    case Tick(ev, choice) => TickEffect(c, env, s, ev, choice);
    case SettleRequest(_, _, _) => RequestEffect(c, env, s, e);
    case CancelRequest(_, _, _) => RequestEffect(c, env, s, e);
    case MarkFinal(k, settled) =>
      hide MarkHtlcFinal;
      MarkFrame(s.db, k, settled);
    case _ =>
  }
}
