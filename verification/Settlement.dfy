/** All-or-nothing settlement: what the registry answers about a payment hash before and after the
    commit of its settle request, over every run with crashes at any point. */
module Settlement {
  import opened Types
  import opened SetId
  import opened StatelessData
  import opened Persistence
  import opened Amounts
  import opened Mux
  import opened Registry
  import opened RegistryInvariants

  /** Once a hash is stored, a resolution for it is a settle for the stored keys and a failure for
      all others. */
  ghost predicate Consistent(env: Environment, db: Db, e: Entry) {
    env(e.key).hash in db.invoices ==> (e.resolution.Settle? <==> e.key in KeysOf(db, env(e.key).hash))
  }

  ghost predicate AllConsistent(env: Environment, db: Db, entries: seq<Entry>) {
    forall i :: 0 <= i < |entries| ==> Consistent(env, db, entries[i])
  }

  /** Stored invoices stay, with the same htlcs. */
  ghost predicate Retained(db: Db, db': Db) {
    forall h :: h in db.invoices ==>
      h in db'.invoices && KeysOf(db', h) == KeysOf(db, h) && HtlcsOf(db', h) == HtlcsOf(db, h)
  }

  /** One step: nothing stored is lost, and what is emitted agrees with what is stored then. */
  ghost predicate StepConsistent(env: Environment, s: State, s': State) {
    && Retained(s.db, s'.db)
    && s.log <= s'.log
    && AllConsistent(env, s'.db, s'.log[|s.log|..])
  }

  // ----- The emitted entries -----

  lemma UnchangedDb(env: Environment, s: State, s': State, more: seq<Entry>)
    requires s'.db == s.db && s'.log == s.log + more && AllConsistent(env, s.db, more)
    ensures StepConsistent(env, s, s')
  {
    hide Consistent;
    assert s'.log[|s.log|..] == more;
  }

  /** No resolution for a hash in memory concerns a stored invoice. */
  lemma MemoryEntries(c: Config, env: Environment, s: State, entries: seq<Entry>)
    requires SetsInv(c, env, s.sets, s.db) && SubsInv(env, s.sets, s.subs)
    requires forall i :: 0 <= i < |entries| ==> entries[i].key in s.subs
    ensures AllConsistent(env, s.db, entries)
  {
    hide SetInv;
  }

  lemma DeleteAllConsistent(c: Config, env: Environment, s: State, h: Hash, order: seq<HtlcKey>, res: Resolution)
    requires Inv(c, env, s) && h in s.sets
    ensures StepConsistent(env, s, DeleteAll(s, h, order, res))
  {
    hide DeleteAll, StoreInv, LogInv, SetInv, StepConsistent, AllConsistent;
    var more := Emitted(s.subs, Ordered(order, s.sets[h].htlcs.Keys), res);
    DeleteAllEffect(s, h, order, res);
    EmittedEntries(s.subs, Ordered(order, s.sets[h].htlcs.Keys), res);
    MemoryEntries(c, env, s, more);
    UnchangedDb(env, s, DeleteAll(s, h, order, res), more);
  }

  lemma CancelSingleConsistent(c: Config, env: Environment, s: State, h: Hash, k: HtlcKey)
    requires Inv(c, env, s)
    ensures StepConsistent(env, s, CancelSingle(s, h, k))
  {
    hide StoreInv, LogInv, SetInv, StepConsistent, AllConsistent, HtlcSet.IsComplete;
    var s' := CancelSingle(s, h, k);
    var more := if h in s.sets && !s.sets[h].IsComplete() && k in s.sets[h].htlcs
                then Entries(s.subs[k], k, Fail(MppTimeout)) else [];
    MemoryEntries(c, env, s, more);
    assert s.log + [] == s.log;
    UnchangedDb(env, s, s', more);
  }

  lemma InsertedRetained(c: Config, env: Environment, s: State, h: Hash)
    requires Inv(c, env, s) && EnvOk(c, env) && h in s.sets
    ensures Retained(s.db, Inserted(s.db, s.sets[h].preimage, s.sets[h].value, s.sets[h].htlcs))
  {
    hide SetInv, LogInv, EnvOk, SubsInv, RowInv, PaidInv, DbInv, Inserted, KeysOf, HtlcsOf;
    var set0 := s.sets[h];
    SetIsAdmitted(c, env, s, h);
    forall h' | h' in s.db.invoices
      ensures var db' := Inserted(s.db, set0.preimage, set0.value, set0.htlcs);
              h' in db'.invoices && KeysOf(db', h') == KeysOf(s.db, h') && HtlcsOf(db', h') == HtlcsOf(s.db, h')
    {
      InsertedHtlcsOf(s.db, set0.preimage, set0.value, set0.htlcs, h');
    }
  }

  lemma CommitConsistent(c: Config, env: Environment, s: State, h: Hash, order: seq<HtlcKey>)
    requires Inv(c, env, s) && EnvOk(c, env) && h in s.sets && s.sets[h].IsComplete()
    ensures StepConsistent(env, s, CommitAndSettle(s, h, order))
    ensures h in CommitAndSettle(s, h, order).db.invoices
    ensures KeysOf(CommitAndSettle(s, h, order).db, h) == s.sets[h].htlcs.Keys
  {
    hide CommitAndSettle, StoreInv, LogInv, EnvOk, HtlcSet.IsComplete, Inserted, SetInv, SubsInv;
    var set0 := s.sets[h];
    var s' := CommitAndSettle(s, h, order);
    var res := Settle(set0.preimage, false);
    var keys := Ordered(order, set0.htlcs.Keys);
    var more := Emitted(s.subs, keys, res);
    CommitAndSettleEffect(s, h, order);
    CommitKeepsStore(c, env, s, h);
    InsertedRetained(c, env, s, h);
    EmittedEntries(s.subs, keys, res);
    assert s'.log[|s.log|..] == more;
    forall i | 0 <= i < |more| ensures Consistent(env, s'.db, more[i]) {
      MemberHash(c, env, s, h, more[i].key);
      assert more[i].key in HtlcsOf(s'.db, h);
    }
  }

  lemma MemberHash(c: Config, env: Environment, s: State, h: Hash, k: HtlcKey)
    requires Inv(c, env, s) && h in s.sets && k in s.sets[h].htlcs
    ensures env(k).hash == h
  {
    hide SetInv, StoreInv, LogInv;
  }

  lemma MarkRetained(db: Db, k: HtlcKey, settled: bool)
    ensures Retained(db, Mark(db, k, settled))
  {
    hide MarkHtlcFinal, Mark;
    MarkFrame(db, k, settled);
    forall h | h in db.invoices
      ensures KeysOf(Mark(db, k, settled), h) == KeysOf(db, h) && HtlcsOf(Mark(db, k, settled), h) == HtlcsOf(db, h)
    {
      SameShapeKeys(db, Mark(db, k, settled), h);
    }
  }

  /** An arrival that is resolved at once is resolved as the database says. */
  lemma DecisionConsistent(c: Config, env: Environment, s: State, k: HtlcKey, height: int32, e: Entry)
    requires Inv(c, env, s) && e.key == k
    requires match Decide(c, s, k, env(k), height)
             case ReplaySettled(preimage) => e.resolution.Settle?
             case Reject(outcome) => e.resolution.Fail?
             case _ => false
    ensures Consistent(env, s.db, e)
  {
    hide DecideOpen, SetsInv, SubsInv, LogInv;
  }

  /** The effects of an accepted arrival on the log and the database are those of a commit, if any. */
  lemma AcceptConsistent(c: Config, env: Environment, s: State, k: HtlcKey, height: int32, choice: Choice)
    requires Inv(c, env, s) && EnvOk(c, env) && ProcessHtlc(c.policy, env(k)).ToRegistry?
    requires choice.getOk && Decide(c, s, k, env(k), height).Accept?
    ensures StepConsistent(env, s, Process(c, env, s, k, height, choice))
  {
    hide Decide, ProcessHtlc, EnvOk, Inv, CommitAndSettle, Admits, StepConsistent, AllConsistent, Taken, Extended,
      HtlcSet.IsComplete, Acceptable, Subscribed;
    var invoice := Decide(c, s, k, env(k), height).invoice;
    var s1, s' := Taken(c, s, k, env(k), invoice, choice), Process(c, env, s, k, height, choice);
    assert s.log + [] == s.log;
    NothingConsistent(env, s.db);
    TakenFrame(c, s, k, env(k), invoice, choice);
    UnchangedDb(env, s, s1, []);
    if s' != s1 {
      AcceptFacts(c, env, s, k, height, invoice);
      TakenKeepsInv(c, env, s, k, invoice, choice);
      CommitConsistent(c, env, s1, env(k).hash, choice.keyOrder);
      SameStart(env, s, s1, s');
    }
  }

  lemma NothingConsistent(env: Environment, db: Db)
    ensures AllConsistent(env, db, [])
  {
  }

  lemma SameStart(env: Environment, s: State, s1: State, s': State)
    requires StepConsistent(env, s1, s') && s1.db == s.db && s1.log == s.log
    ensures StepConsistent(env, s, s')
  {
  }

  lemma ProcessConsistent(c: Config, env: Environment, s: State, k: HtlcKey, height: int32, choice: Choice)
    requires Inv(c, env, s) && EnvOk(c, env) && ProcessHtlc(c.policy, env(k)).ToRegistry?
    ensures StepConsistent(env, s, Process(c, env, s, k, height, choice))
  {
    hide ProcessHtlc, EnvOk, Inv, Decide, StepConsistent, Hold, Complete, CommitAndSettle;
    var s' := Process(c, env, s, k, height, choice);
    assert s.log + [] == s.log;
    if choice.getOk && Decide(c, s, k, env(k), height).Accept? {
      AcceptConsistent(c, env, s, k, height, choice);
    } else if choice.getOk &&
      (Decide(c, s, k, env(k), height).ReplaySettled? || Decide(c, s, k, env(k), height).Reject?) {
      var e := s'.log[|s.log|];
      DecisionConsistent(c, env, s, k, height, e);
      UnchangedDb(env, s, s', [e]);
    } else {
      UnchangedDb(env, s, s', []);
    }
  }

  lemma TickConsistent(c: Config, env: Environment, s: State, ev: ReleaseEvent, order: seq<HtlcKey>)
    requires Inv(c, env, s) && EnvOk(c, env)
    ensures StepConsistent(env, s, Release(s, ev, order))
  {
    hide ProcessHtlc, EnvOk, Inv, DeleteAll, CancelSingle, StepConsistent, AllConsistent;
    var s', s1 := Release(s, ev, order), Popped(s, ev);
    PoppedInv(c, env, s, ev);
    if ev.HtlcRelease? {
      CancelSingleConsistent(c, env, s1, ev.hash, ev.key);
      SameStart(env, s, s1, s');
    } else if ev.hash in s.sets {
      DeleteAllConsistent(c, env, s1, ev.hash, order, Fail(AcceptTimedOut));
      SameStart(env, s, s1, s');
    } else {
      assert s.log + [] == s.log;
      NothingConsistent(env, s.db);
      UnchangedDb(env, s, s', []);
    }
  }

  lemma SettleConsistent(c: Config, env: Environment, s: State, h: Hash, id: SetID, choice: Choice)
    requires Inv(c, env, s) && EnvOk(c, env)
    ensures StepConsistent(env, s, HandleSettle(c, s, h, id, choice))
  {
    hide EnvOk, Inv, CommitAndSettle, StepConsistent, AllConsistent, SetIdOf, Admits;
    if SettleReply(c, s, h, id, choice) == Ok && h in s.sets {
      CommitConsistent(c, env, s, h, choice.keyOrder);
    } else {
      assert s.log + [] == s.log;
      NothingConsistent(env, s.db);
      UnchangedDb(env, s, HandleSettle(c, s, h, id, choice), []);
    }
  }

  lemma CancelConsistent(c: Config, env: Environment, s: State, h: Hash, id: SetID, choice: Choice)
    requires Inv(c, env, s) && EnvOk(c, env)
    ensures StepConsistent(env, s, HandleCancel(s, h, id, choice))
  {
    hide EnvOk, Inv, DeleteAll, StepConsistent, AllConsistent, SetIdOf;
    if CancelReply(s, h, id, choice) == Ok {
      DeleteAllConsistent(c, env, s, h, choice.keyOrder, Fail(InvoiceNotOpen));
    } else {
      assert s.log + [] == s.log;
      NothingConsistent(env, s.db);
      UnchangedDb(env, s, HandleCancel(s, h, id, choice), []);
    }
  }

  lemma HandlersConsistent(c: Config, env: Environment, s: State, e: Event)
    requires Inv(c, env, s) && EnvOk(c, env) && Enabled(c, env, s, e) && !e.CrashDuring?
    ensures StepConsistent(env, s, Step(c, env, s, e))
  {
    hide ProcessHtlc, EnvOk, Inv, Process, CommitAndSettle, DeleteAll, CancelSingle, Mark, StepConsistent,
      AllConsistent;
    var s' := Step(c, env, s, e);
    assert s.log + [] == s.log;
    NothingConsistent(env, s.db);
    match e
    case Arrive(k, height, choice) => ProcessConsistent(c, env, s, k, height, choice);
    case Tick(ev, choice) =>
      hide Release;
      TickConsistent(c, env, s, ev, choice.keyOrder);
    case SettleRequest(h, id, choice) =>
      hide HandleSettle;
      SettleConsistent(c, env, s, h, id, choice);
    case CancelRequest(h, id, choice) =>
      hide HandleCancel;
      CancelConsistent(c, env, s, h, id, choice);
    case Subscribe(choice) => UnchangedDb(env, s, s', []);
    case Unsubscribe(id) => UnchangedDb(env, s, s', []);
    case Advance(to) => UnchangedDb(env, s, s', []);
    case MarkFinal(k, settled) => MarkConsistent(env, s, k, settled);
    case Crash => UnchangedDb(env, s, s', []);
  }

  lemma MarkConsistent(env: Environment, s: State, k: HtlcKey, settled: bool)
    ensures StepConsistent(env, s, s.(db := Mark(s.db, k, settled)))
  {
    hide Mark, Consistent;
    MarkRetained(s.db, k, settled);
  }

  lemma PoppedInv(c: Config, env: Environment, s: State, ev: ReleaseEvent)
    requires Inv(c, env, s)
    ensures Inv(c, env, Popped(s, ev))
  {
    hide SetsInv, SubsInv, StoreInv, LogInv;
  }

  lemma InterruptedConsistent(env: Environment, s: State, s': State, point: CrashPoint)
    requires StepConsistent(env, s, s')
    ensures StepConsistent(env, s, Interrupted(s, s', point))
  {
    hide Consistent;
    if point.WhileResolving? {
      var t := Interrupted(s, s', point);
      assert forall i :: 0 <= i < |t.log[|s.log|..]| ==> t.log[|s.log|..][i] == s'.log[|s.log|..][i];
    }
  }

  lemma StepIsConsistent(c: Config, env: Environment, s: State, e: Event)
    requires Inv(c, env, s) && EnvOk(c, env) && Enabled(c, env, s, e)
    ensures StepConsistent(env, s, Step(c, env, s, e))
  {
    hide Inv, Process, Release, HandleSettle, HandleCancel, AddSubscriber, Interrupted, Crashed, StepConsistent, EnvOk;
    if e.CrashDuring? {
      HandlersConsistent(c, env, s, e.during);
      InterruptedConsistent(env, s, Step(c, env, s, e.during), e.point);
    } else {
      HandlersConsistent(c, env, s, e);
    }
  }

  // ----- Over whole runs -----

  lemma {:induction false} StoredForever(c: Config, env: Environment, states: seq<State>, events: seq<Event>, i: nat,
                                         j: nat, h: Hash)
    requires IsRun(c, env, states, events) && EnvOk(c, env) && i <= j < |states|
    requires h in states[i].db.invoices
    ensures h in states[j].db.invoices
    ensures KeysOf(states[j].db, h) == KeysOf(states[i].db, h) && HtlcsOf(states[j].db, h) == HtlcsOf(states[i].db, h)
  {
    hide Step, Enabled;
    if i < j {
      StoredForever(c, env, states, events, i, j - 1, h);
      RunKeepsInv(c, env, states, events, j - 1);
      StepIsConsistent(c, env, states[j - 1], events[j - 1]);
    }
  }

  /** A settle is emitted for an htlc only when the database holds its hash, with a set of htlcs
      that contains it and pays exactly the value of the invoice. */
  lemma SettledOnlyWhenPaid(c: Config, env: Environment, states: seq<State>, events: seq<Event>, i: nat, p: nat)
    requires IsRun(c, env, states, events) && EnvOk(c, env) && i < |states|
    requires p < |states[i].log| && states[i].log[p].resolution.Settle?
    ensures var h, db, k := env(states[i].log[p].key).hash, states[i].db, states[i].log[p].key;
            && h in db.invoices && k in KeysOf(db, h)
            && h == Sha256(states[i].log[p].resolution.preimage)
            && Sum(HtlcsOf(db, h)) == db.invoices[h].amountMsat
            && (forall k' :: k' in KeysOf(db, h) ==>
              env(k').hash == h && HtlcsOf(db, h)[k'] == env(k').outgoingAmountMsat)
  {
    hide Step, Enabled, SetsInv, SubsInv, ProcessHtlc, Sum, DecodeStatelessData;
    var s := states[i];
    RunKeepsInv(c, env, states, events, i);
    assert EntryInv(env, s.db, s.log[p]);
    assert RowInv(c, env, s.db, s.log[p].key);
    var h := env(s.log[p].key).hash;
    assert PaidInv(c, s.db, h) && InvoiceInv(s.db, h);
    forall k' | k' in KeysOf(s.db, h) ensures env(k').hash == h && HtlcsOf(s.db, h)[k'] == env(k').outgoingAmountMsat {
      assert RowInv(c, env, s.db, k');
    }
  }

  /** All or nothing: from the step on that commits a settle request, whatever happens (crashes
      between any two notifications, restarts, replays), every resolution for the hash is a settle
      for the stored htlcs and a failure for all others. */
  lemma {:induction false} AllOrNothing(c: Config, env: Environment, states: seq<State>, events: seq<Event>, i: nat,
                                        j: nat, p: nat)
    requires IsRun(c, env, states, events) && EnvOk(c, env) && i < j < |states|
    requires |states[i].log| <= p < |states[j].log|
    requires env(states[j].log[p].key).hash in states[i + 1].db.invoices
    ensures states[j].log[p].resolution.Settle? <==>
            states[j].log[p].key in KeysOf(states[i + 1].db, env(states[j].log[p].key).hash)
    decreases j
  {
    hide Step, Enabled, Inv, EnvOk, KeysOf, HtlcsOf;
    var h := env(states[j].log[p].key).hash;
    RunKeepsInv(c, env, states, events, j - 1);
    StepIsConsistent(c, env, states[j - 1], events[j - 1]);
    if p < |states[j - 1].log| {
      assert states[j].log[p] == states[j - 1].log[p];
      AllOrNothing(c, env, states, events, i, j - 1, p);
    } else {
      assert Consistent(env, states[j].db, states[j].log[|states[j - 1].log|..][p - |states[j - 1].log|]);
      StoredForever(c, env, states, events, i + 1, j, h);
    }
  }

  /** A replay of a stored htlc always passes the checks of the multiplexer, at any height, and is
      settled again; nothing else changes. */
  lemma ReplaySettles(c: Config, env: Environment, states: seq<State>, events: seq<Event>, i: nat, k: HtlcKey,
                      height: int32, choice: Choice)
    requires IsRun(c, env, states, events) && EnvOk(c, env) && i < |states|
    requires k in states[i].db.htlcs && choice.getOk
    ensures Enabled(c, env, states[i], Arrive(k, height, choice))
    ensures env(k).hash in states[i].db.invoices
    ensures Step(c, env, states[i], Arrive(k, height, choice)) ==
            states[i].(arrivals := states[i].arrivals + 1,
                       log := states[i].log
                         + [Entry(states[i].arrivals, k, Settle(states[i].db.invoices[env(k).hash].preimage, true))])
  {
    hide Step, Enabled, Inv, EnvOk;
    RunKeepsInv(c, env, states, events, i);
    StoredReplay(c, env, states[i], k, height, choice);
  }

  lemma StoredReplay(c: Config, env: Environment, s: State, k: HtlcKey, height: int32, choice: Choice)
    requires Inv(c, env, s) && k in s.db.htlcs && choice.getOk
    ensures Enabled(c, env, s, Arrive(k, height, choice))
    ensures env(k).hash in s.db.invoices
    ensures Step(c, env, s, Arrive(k, height, choice)) ==
            s.(arrivals := s.arrivals + 1,
               log := s.log + [Entry(s.arrivals, k, Settle(s.db.invoices[env(k).hash].preimage, true))])
  {
    hide SetsInv, SubsInv, LogInv, ProcessHtlc, DecideOpen, PaidInv, Hold, Complete, CommitAndSettle, InvoiceInv;
    assert RowInv(c, env, s.db, k);
    assert k in HtlcsOf(s.db, env(k).hash);
  }

  // ----- Settle and cancel requests after the commit -----

  /** Once a hash is stored, it is in no set; a settle request with the id of the stored htlcs
      succeeds, a cancel request with that id is refused, any other id is not found, and no
      request changes anything. */
  lemma RepliesAfterCommit(c: Config, env: Environment, states: seq<State>, events: seq<Event>, i: nat, h: Hash,
                           id: SetID, choice: Choice)
    requires IsRun(c, env, states, events) && EnvOk(c, env) && i < |states|
    requires h in states[i].db.invoices && choice.getOk
    ensures h !in states[i].sets
    ensures SettleReply(c, states[i], h, id, choice)
            == if id == SetIdOf(KeysOf(states[i].db, h)) then Ok else ErrInvoiceNotFound
    ensures CancelReply(states[i], h, id, choice)
            == if id == SetIdOf(KeysOf(states[i].db, h)) then ErrSettleRequested else ErrInvoiceNotFound
    ensures Step(c, env, states[i], SettleRequest(h, id, choice)) == states[i]
    ensures Step(c, env, states[i], CancelRequest(h, id, choice)) == states[i]
  {
    hide SubsInv, StoreInv, LogInv, SetInv, SetIdOf;
    RunKeepsInv(c, env, states, events, i);
  }

  /** The id of a complete set is the id that is recomputed from the database once the set is
      stored, then and at any later time. */
  lemma AcceptedIdIsStoredId(c: Config, env: Environment, states: seq<State>, events: seq<Event>, i: nat, j: nat,
                             h: Hash, choice: Choice)
    requires IsRun(c, env, states, events) && EnvOk(c, env) && i < j < |states|
    requires h in states[i].sets && states[i].sets[h].IsComplete() && !c.autoSettle && choice.commitOk
    requires events[i] == SettleRequest(h, states[i].sets[h].Id(), choice)
    ensures SettleReply(c, states[i], h, states[i].sets[h].Id(), choice) == Ok
    ensures h in states[j].db.invoices && SetIdOf(KeysOf(states[j].db, h)) == states[i].sets[h].Id()
  {
    hide EnvOk, Step, Inv, Enabled, CommitAndSettle, SetIdOf, KeysOf;
    RunKeepsInv(c, env, states, events, i);
    SettleStep(c, env, states[i], h, choice);
    CommitConsistent(c, env, states[i], h, choice.keyOrder);
    StoredForever(c, env, states, events, i + 1, j, h);
  }

  /** A settle request with the id of a complete set commits it. */
  lemma SettleStep(c: Config, env: Environment, s: State, h: Hash, choice: Choice)
    requires Inv(c, env, s) && EnvOk(c, env)
    requires h in s.sets && s.sets[h].IsComplete() && !c.autoSettle && choice.commitOk
    ensures SettleReply(c, s, h, s.sets[h].Id(), choice) == Ok
    ensures Step(c, env, s, SettleRequest(h, s.sets[h].Id(), choice)) == CommitAndSettle(s, h, choice.keyOrder)
  {
    hide EnvOk, CommitAndSettle, SetIdOf, SetInv, SubsInv, LogInv, Admits, StoreInv;
    SetIsAdmitted(c, env, s, h);
  }

  // ----- Auto-settled sets -----

  lemma AutoSettleStoresAnnounced(c: Config, env: Environment, s: State, k: HtlcKey, height: int32, choice: Choice)
    requires Inv(c, env, s) && EnvOk(c, env) && ProcessHtlc(c.policy, env(k)).ToRegistry?
    requires env(k).hash !in s.db.invoices && env(k).hash in Process(c, env, s, k, height, choice).db.invoices
    ensures var s' := Process(c, env, s, k, height, choice);
            forall p :: |s.notices| <= p < |s'.notices| ==>
              s'.notices[p].hash == env(k).hash && s'.notices[p].id == SetIdOf(KeysOf(s'.db, env(k).hash))
  {
    hide Decide, ProcessHtlc, Inv, EnvOk, CommitAndSettle, Admits, HtlcSet.IsComplete, Extended, Subscribed, Ordered,
      SetIdOf, Emitted, Inserted;
    var invoice := Decide(c, s, k, env(k), height).invoice;
    var set1 := Extended(s, k, env(k), invoice);
    var s1 := Complete(c, s, k, env(k), set1, choice.subscriberOrder).(arrivals := s.arrivals + 1);
    var abort := choice.(commitOk := false);
    AcceptKeepsInv(c, env, s, k, height, abort);
    assert Process(c, env, s, k, height, abort) == s1;
    StillComplete(set1, Completion(s.completions, s.now));
    CommitConsistent(c, env, s1, env(k).hash, choice.keyOrder);
    CommitAndSettleEffect(s1, env(k).hash, choice.keyOrder);
  }

  lemma StillComplete(s: HtlcSet, completion: Completion)
    ensures s.(completed := Some(completion)).IsComplete() == s.IsComplete()
  {
  }

  /** In auto-settle mode too, the id that the subscribers are told is the id that is recomputed
      from the database, then and at any later time. */
  lemma AutoSettledIdIsStoredId(c: Config, env: Environment, states: seq<State>, events: seq<Event>, i: nat, j: nat,
                                p: nat)
    requires IsRun(c, env, states, events) && EnvOk(c, env) && i < j < |states| && events[i].Arrive?
    requires env(events[i].key).hash !in states[i].db.invoices && env(events[i].key).hash in states[i + 1].db.invoices
    requires |states[i].notices| <= p < |states[i + 1].notices|
    ensures var h := env(events[i].key).hash;
            h in states[j].db.invoices && states[i + 1].notices[p].hash == h
            && states[i + 1].notices[p].id == SetIdOf(KeysOf(states[j].db, h))
  {
    hide Inv, EnvOk, ProcessHtlc, Process, SetIdOf;
    RunKeepsInv(c, env, states, events, i);
    AutoSettleStoresAnnounced(c, env, states[i], events[i].key, events[i].height, events[i].choice);
    StoredForever(c, env, states, events, i + 1, j, env(events[i].key).hash);
  }

  // ----- Fees -----

  /** An invoice that is settled with n parts has brought in at least its value, n times the base
      fee and the proportional fee on its value, less one unit for every part but the first. */
  lemma SettledInvoicePaysFees(c: Config, env: Environment, states: seq<State>, events: seq<Event>, i: nat, h: Hash)
    requires IsRun(c, env, states, events) && EnvOk(c, env) && i < |states|
    requires h in states[i].db.invoices
    requires forall k :: k in KeysOf(states[i].db, h) ==> NoFeeOverflow(c.policy, env(k).outgoingAmountMsat)
    ensures var db := states[i].db;
            var incoming := map k | k in KeysOf(db, h) :: env(k).incomingAmountMsat as int;
            Sum(incoming) >= LeastIncoming(c.policy, db.invoices[h].amountMsat, |HtlcsOf(db, h)|)
  {
    hide Step, Enabled, SetsInv, SubsInv, LogInv, ProcessHtlc, Sum, DecodeStatelessData, FeeOf, NoFeeOverflow,
      LeastIncoming;
    var db := states[i].db;
    RunKeepsInv(c, env, states, events, i);
    assert PaidInv(c, db, h) && InvoiceInv(db, h);
    var incoming := map k | k in KeysOf(db, h) :: env(k).incomingAmountMsat as int;
    forall k | k in KeysOf(db, h) ensures incoming[k] >= HtlcsOf(db, h)[k] + FeeOf(c.policy, HtlcsOf(db, h)[k]) {
      assert RowInv(c, env, db, k);
      GatePassedPaysFee(c.policy, env(k));
    }
    PartsPayFee(c.policy, HtlcsOf(db, h), incoming);
  }
}
