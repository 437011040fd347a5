/** When an htlc that reaches the registry is accepted, and how it is failed otherwise, said in plain
    arithmetic and without the functions that decide it. */
module Arrivals {
  import opened Types
  import opened StatelessData
  import opened Persistence
  import opened Amounts
  import opened Mux
  import opened Registry
  import opened RegistryInvariants
  import opened Settlement
  import opened Resolutions

  // ----- The conditions -----

  predicate HasMpp(htlc: Htlc) {
    htlc.onion.Decoded? && htlc.onion.payload.mpp.Some?
  }

  function Total(htlc: Htlc): uint64
    requires HasMpp(htlc)
  {
    htlc.onion.payload.mpp.value.totalMsat
  }

  function Address(htlc: Htlc): PaymentAddr
    requires HasMpp(htlc)
  {
    htlc.onion.payload.mpp.value.paymentAddr
  }

  /** What the address says about the invoice. */
  function Promised(c: Config, htlc: Htlc): StatelessInvoice
    requires HasMpp(htlc)
  {
    DecodeStatelessData(c.privKey, Address(htlc))
  }

  /** The payment hash belongs to the address. */
  predicate Authentic(c: Config, htlc: Htlc) {
    HasMpp(htlc) && htlc.hash == Sha256(Hmac(c.privKey, Address(htlc)))
  }

  /** The htlc is a part of a payment of the whole invoice amount. */
  predicate PaysInvoice(c: Config, htlc: Htlc) {
    Authentic(c, htlc) && Total(htlc) == Promised(c, htlc).amtMsat
  }

  predicate Unexpired(c: Config, s: State, htlc: Htlc)
    requires HasMpp(htlc)
  {
    s.now <= Promised(c, htlc).expiry
  }

  /** The htlcs that are held and this one do not exceed the invoice amount. */
  ghost predicate Fits(c: Config, s: State, htlc: Htlc)
    requires HasMpp(htlc)
  {
    (if htlc.hash in s.sets then Sum(s.sets[htlc.hash].htlcs) else 0) + htlc.outgoingAmountMsat
    <= Promised(c, htlc).amtMsat
  }

  /** Enough blocks are left. The sum is computed in 32 bits. */
  predicate LateEnough(c: Config, htlc: Htlc, height: int32) {
    htlc.outgoingExpiry >= (height + c.finalCltvRejectDelta) % 0x1_0000_0000
  }

  /** Somebody waits for the payment: it has begun, it settles by itself, or somebody is listening or
      was listening not longer ago than the grace period. */
  predicate Expected(c: Config, s: State, h: Hash) {
    || h in s.sets || c.autoSettle || s.subscribers != {}
    || (s.lastRemoved.Some? && s.now - s.lastRemoved.value <= c.gracePeriod)
  }

  ghost predicate Sound(c: Config, s: State, htlc: Htlc, height: int32) {
    PaysInvoice(c, htlc) && Unexpired(c, s, htlc) && Fits(c, s, htlc) && LateEnough(c, htlc, height)
  }

  ghost predicate Welcome(c: Config, s: State, htlc: Htlc, height: int32) {
    Sound(c, s, htlc, height) && Expected(c, s, htlc.hash)
  }

  // ----- The decision -----

  lemma WrappedHeight(c: Config, htlc: Htlc, height: int32)
    ensures ExpiresTooSoon(c, htlc, height) <==> !LateEnough(c, htlc, height)
  {
    var x := height + c.finalCltvRejectDelta;
    assert ToInt32(x) == x % TWO_32 || ToInt32(x) == x % TWO_32 - TWO_32;
  }

  lemma PromisedAmount(c: Config, env: Environment, k: HtlcKey)
    requires EnvOk(c, env) && Authentic(c, env(k))
    ensures Promised(c, env(k)).amtMsat > 0 && ToUint64(Promised(c, env(k)).amtMsat) == Promised(c, env(k)).amtMsat
    ensures Sha256(Promised(c, env(k)).preimage) == env(k).hash
  {
    hide ToUint64, ToInt64;
    assert MppOf(env(k)).Some?;
  }

  /** The outcome that the first violated condition leads to, for an htlc that is not in its set yet. */
  lemma DecisionOnOpen(c: Config, env: Environment, s: State, k: HtlcKey, height: int32)
    requires Inv(c, env, s) && EnvOk(c, env) && env(k).hash !in s.db.invoices
    requires env(k).hash in s.sets ==> k !in s.sets[env(k).hash].htlcs
    ensures var htlc, d := env(k), Decide(c, s, k, env(k), height);
            && (!HasMpp(htlc) ==> d == Reject(HtlcInvoiceTypeMismatch))
            && (HasMpp(htlc) && Total(htlc) == 0 ==> d == Reject(HtlcSetTotalTooLow))
            && (HasMpp(htlc) && Total(htlc) != 0 && !Authentic(c, htlc) ==> d == Reject(AddressMismatch))
            && (Authentic(c, htlc) && Total(htlc) != 0 && !PaysInvoice(c, htlc) ==> d == Reject(HtlcSetTotalMismatch))
            && (PaysInvoice(c, htlc) && !Unexpired(c, s, htlc) ==> d == Reject(InvoiceExpired))
            && (PaysInvoice(c, htlc) && Unexpired(c, s, htlc) && !Fits(c, s, htlc) ==> d == Reject(HtlcSetOverpayment))
            && (PaysInvoice(c, htlc) && Unexpired(c, s, htlc) && Fits(c, s, htlc) && !LateEnough(c, htlc, height) ==>
                  d == Reject(ExpiryTooSoon))
            && (Sound(c, s, htlc, height) && !Expected(c, s, htlc.hash) ==> d == Reject(NoAcceptSubscriber))
            && (Welcome(c, s, htlc, height) ==> d == Accept(Promised(c, htlc)))
  {
    NewTotalExact(c, env, s, k);
    WrappedHeight(c, env(k), height);
    if Authentic(c, env(k)) {
      PromisedAmount(c, env, k);
    }
    hide Inv, EnvOk, SetsInv, NewSetTotal, ExpiresTooSoon, LateEnough, ToUint64, ToInt64, Sum;
    assert HasMpp(env(k)) ==> Promised(c, env(k)).preimage == Hmac(c.privKey, Address(env(k)));
    hide DecodeStatelessData;
  }

  // ----- Arrivals -----

  /** The arrival is resolved at once with a failure, and nothing else happens. */
  predicate FailsWith(s: State, s': State, k: HtlcKey, outcome: FailOutcome) {
    s' == s.(arrivals := s.arrivals + 1, log := s.log + [Entry(s.arrivals, k, Fail(outcome))])
  }

  /** The htlc is held in the set of its hash, or stored with it. */
  ghost predicate IsTaken(s: State, h: Hash, k: HtlcKey) {
    (h in s.sets && k in s.sets[h].htlcs) || (h in s.db.invoices && k in KeysOf(s.db, h))
  }

  lemma AcceptedIsTaken(c: Config, env: Environment, s: State, k: HtlcKey, height: int32, choice: Choice)
    requires Inv(c, env, s) && EnvOk(c, env) && ProcessHtlc(c.policy, env(k)).ToRegistry?
    requires choice.getOk && Decide(c, s, k, env(k), height).Accept?
    ensures IsTaken(Process(c, env, s, k, height, choice), env(k).hash, k)
  {
    hide Inv, EnvOk, Decide, ProcessHtlc, CommitAndSettle, Admits, HtlcSet.IsComplete, Taken, Acceptable,
      StepConsistent, Subscribed;
    var invoice := Decide(c, s, k, env(k), height).invoice;
    var s1, s' := Taken(c, s, k, env(k), invoice, choice), Process(c, env, s, k, height, choice);
    TakenFrame(c, s, k, env(k), invoice, choice);
    assert k in s1.sets[env(k).hash].htlcs;
    if s' != s1 {
      hide Extended;
      AcceptFacts(c, env, s, k, height, invoice);
      TakenKeepsInv(c, env, s, k, invoice, choice);
      CommitConsistent(c, env, s1, env(k).hash, choice.keyOrder);
    }
  }

  /** An htlc whose hash is not stored and that is not held yet: it is taken if and only if it is
      welcome, and otherwise it is failed with the outcome of the first condition that it violates. */
  lemma ArrivalOutcome(
    c: Config, env: Environment, states: seq<State>, events: seq<Event>, i: nat,
    k: HtlcKey, height: int32, choice: Choice)
    requires IsRun(c, env, states, events) && EnvOk(c, env) && i < |states|
    requires ProcessHtlc(c.policy, env(k)).ToRegistry? && choice.getOk && env(k).hash !in states[i].db.invoices
    requires env(k).hash in states[i].sets ==> k !in states[i].sets[env(k).hash].htlcs
    ensures var s, s', htlc := states[i], Step(c, env, states[i], Arrive(k, height, choice)), env(k);
            && (IsTaken(s', htlc.hash, k) <==> Welcome(c, s, htlc, height))
            && (!HasMpp(htlc) ==> FailsWith(s, s', k, HtlcInvoiceTypeMismatch))
            && (HasMpp(htlc) && Total(htlc) == 0 ==> FailsWith(s, s', k, HtlcSetTotalTooLow))
            && (HasMpp(htlc) && Total(htlc) != 0 && !Authentic(c, htlc) ==> FailsWith(s, s', k, AddressMismatch))
            && (Authentic(c, htlc) && Total(htlc) != 0 && !PaysInvoice(c, htlc) ==>
                  FailsWith(s, s', k, HtlcSetTotalMismatch))
            && (PaysInvoice(c, htlc) && !Unexpired(c, s, htlc) ==> FailsWith(s, s', k, InvoiceExpired))
            && (PaysInvoice(c, htlc) && Unexpired(c, s, htlc) && !Fits(c, s, htlc) ==>
                  FailsWith(s, s', k, HtlcSetOverpayment))
            && (PaysInvoice(c, htlc) && Unexpired(c, s, htlc) && Fits(c, s, htlc) && !LateEnough(c, htlc, height) ==>
                  FailsWith(s, s', k, ExpiryTooSoon))
            && (Sound(c, s, htlc, height) && !Expected(c, s, htlc.hash) ==> FailsWith(s, s', k, NoAcceptSubscriber))
  {
    hide Inv, EnvOk, Enabled, Decide, ProcessHtlc, PaysInvoice, Unexpired, Fits, LateEnough, Expected, AcceptedArrival;
    RunKeepsInv(c, env, states, events, i);
    DecisionOnOpen(c, env, states[i], k, height);
    if Decide(c, states[i], k, env(k), height).Accept? {
      hide IsTaken;
      AcceptedIsTaken(c, env, states[i], k, height, choice);
    }
    ZeroTotal(c, env, k);
  }

  /** A part of a payment of nothing does not pay an invoice. */
  lemma ZeroTotal(c: Config, env: Environment, k: HtlcKey)
    requires EnvOk(c, env)
    ensures PaysInvoice(c, env(k)) ==> Total(env(k)) != 0 && Authentic(c, env(k)) && HasMpp(env(k))
    ensures Authentic(c, env(k)) ==> HasMpp(env(k))
  {
    if Authentic(c, env(k)) {
      PromisedAmount(c, env, k);
    }
  }

  /** An htlc that is offered again while it is held waits once more; an htlc of a stored invoice that
      was not stored with it is failed; and when the database cannot be read nothing happens. */
  lemma OtherArrivals(
    c: Config, env: Environment, states: seq<State>, events: seq<Event>, i: nat,
    k: HtlcKey, height: int32, choice: Choice)
    requires IsRun(c, env, states, events) && EnvOk(c, env) && i < |states|
    ensures var s, s', h := states[i], Step(c, env, states[i], Arrive(k, height, choice)), env(k).hash;
            && (choice.getOk && h in s.sets && k in s.sets[h].htlcs ==>
                  k in s.subs && s' == s.(arrivals := s.arrivals + 1, subs := s.subs[k := s.subs[k] + [s.arrivals]]))
            && (choice.getOk && h in s.db.invoices && k !in KeysOf(s.db, h) ==> FailsWith(s, s', k, InvoiceNotOpen))
            && (!choice.getOk ==> s' == s.(arrivals := s.arrivals + 1))
  {
    hide Inv, EnvOk, Enabled, ProcessHtlc, AcceptedArrival;
    var s, h := states[i], env(k).hash;
    RunKeepsInv(c, env, states, events, i);
    if h in s.sets && k in s.sets[h].htlcs {
      HeldAgain(c, env, s, k, height);
    } else if h in s.db.invoices {
      StoredIsConsistent(c, env, s, h);
    }
  }

  lemma StoredIsConsistent(c: Config, env: Environment, s: State, h: Hash)
    requires Inv(c, env, s) && h in s.db.invoices
    ensures KeysOf(s.db, h) != {} && HtlcsOf(s.db, h) != map[]
  {
    hide SetsInv, SubsInv, LogInv, RowInv, PaidInv;
    assert InvoiceInv(s.db, h);
    assert HtlcsOf(s.db, h).Keys != {};
  }

  lemma HeldAgain(c: Config, env: Environment, s: State, k: HtlcKey, height: int32)
    requires Inv(c, env, s) && EnvOk(c, env) && env(k).hash in s.sets && k in s.sets[env(k).hash].htlcs
    ensures Decide(c, s, k, env(k), height) == ReAccept && k in s.subs
  {
    hide Inv, EnvOk, NewSetTotal, ToUint64, DecodeStatelessData, ExpiresTooSoon, HasRecentSubscribers;
    HeldFacts(c, env, s, k);
  }

  /** A held htlc pays the invoice of its address. */
  lemma HeldFacts(c: Config, env: Environment, s: State, k: HtlcKey)
    requires Inv(c, env, s) && env(k).hash in s.sets && k in s.sets[env(k).hash].htlcs
    ensures k in s.subs && env(k).hash !in s.db.invoices
    ensures var addr, value := s.sets[env(k).hash].paymentAddr, s.sets[env(k).hash].value;
            && value > 0 && value == DecodeStatelessData(c.privKey, addr).amtMsat
            && MppOf(env(k)) == Some(Mpp(ToUint64(value), addr)) && ToUint64(value) == value
            && env(k).hash == Sha256(DecodeStatelessData(c.privKey, addr).preimage)
  {
    hide StoreInv, LogInv, ProcessHtlc, ToUint64, ToInt64, Sum;
    var h := env(k).hash;
    assert SetInv(c, env, h, s.sets[h]);
    assert MemberInv(c, env, h, s.sets[h], k);
  }

  // ----- The grace period -----

  /** A subscriber left in step j, and the process has not been restarted since. */
  ghost predicate LeftAt(c: Config, states: seq<State>, events: seq<Event>, j: nat, i: nat)
    requires |states| == |events| + 1 && i < |states|
  {
    && j < i && events[j].Unsubscribe? && events[j].subscriber in states[j].subscribers
    && forall m {:trigger events[m]} :: j < m < i ==> !LosesMemory(c, states[m], events[m])
  }

  lemma LastRemovedStep(c: Config, env: Environment, s: State, e: Event)
    requires Enabled(c, env, s, e)
    ensures var s' := Step(c, env, s, e);
            && s.now <= s'.now
            && s'.lastRemoved ==
               if LosesMemory(c, s, e) then None
               else if e.Unsubscribe? && e.subscriber in s.subscribers then Some(s.now)
               else s.lastRemoved
  {
    hide Process, Release, HandleSettle, HandleCancel, Mark, ProcessHtlc;
    var handled := if e.CrashDuring? then e.during else e;
    match handled
    case Arrive(k, height, choice) => ArrivalKeepsRemoval(c, env, s, k, height, choice);
    case Tick(ev, choice) => TickKeepsRemoval(s, ev, choice.keyOrder);
    case SettleRequest(h, id, choice) => SettleKeepsRemoval(c, s, h, id, choice);
    case CancelRequest(h, id, choice) => CancelKeepsRemoval(s, h, id, choice);
    case _ =>
  }

  lemma ArrivalKeepsRemoval(c: Config, env: Environment, s: State, k: HtlcKey, height: int32, choice: Choice)
    ensures var s' := Process(c, env, s, k, height, choice); s'.lastRemoved == s.lastRemoved && s'.now == s.now
  {
    hide Decide, CommitAndSettle, Admits, HtlcSet.IsComplete, Extended, NoticesFor, Subscribed, HtlcSet.Id, Emitted,
      Ordered, Inserted;
    if choice.getOk && Decide(c, s, k, env(k), height).Accept? {
      var invoice := Decide(c, s, k, env(k), height).invoice;
      CommitAndSettleEffect(Taken(c, s, k, env(k), invoice, choice), env(k).hash, choice.keyOrder);
    }
  }

  lemma TickKeepsRemoval(s: State, ev: ReleaseEvent, order: seq<HtlcKey>)
    ensures var s', panics := Release(s, ev, order), ev.HtlcRelease? && ReleasePanics(s, ev.hash, ev.key);
            s'.now == s.now && s'.lastRemoved == if panics then None else s.lastRemoved
  {
    hide DeleteAll, HtlcSet.IsComplete, Emitted, Ordered;
    if ev.AcceptTimeout? && ev.hash in s.sets {
      DeleteAllEffect(Popped(s, ev), ev.hash, order, Fail(AcceptTimedOut));
    }
  }

  lemma SettleKeepsRemoval(c: Config, s: State, h: Hash, id: seq<byte>, choice: Choice)
    ensures var s' := HandleSettle(c, s, h, id, choice);
            && s'.now == s.now
            && s'.lastRemoved == if SettleReply(c, s, h, id, choice) == Stopped then None else s.lastRemoved
  {
    hide SettleReply, CommitAndSettle, Emitted, Ordered, Inserted;
    if h in s.sets {
      CommitAndSettleEffect(s, h, choice.keyOrder);
    }
  }

  lemma CancelKeepsRemoval(s: State, h: Hash, id: seq<byte>, choice: Choice)
    ensures var s' := HandleCancel(s, h, id, choice);
            && s'.now == s.now
            && s'.lastRemoved == if CancelReply(s, h, id, choice) == Stopped then None else s.lastRemoved
  {
    hide CancelReply, DeleteAll, Emitted, Ordered;
    if h in s.sets {
      DeleteAllEffect(s, h, choice.keyOrder, Fail(InvoiceNotOpen));
    }
    if CancelReply(s, h, id, choice) == Ok {
      CancelKnowsSet(s, h, id, choice);
    }
  }

  /** Who has left before a step has left after it, unless the process was restarted. */
  lemma LeftGrows(c: Config, states: seq<State>, events: seq<Event>, j: nat, i: nat)
    requires |states| == |events| + 1 && 0 < i < |states|
    ensures LeftAt(c, states, events, j, i) <==>
            if j == i - 1 then events[j].Unsubscribe? && events[j].subscriber in states[j].subscribers
            else LeftAt(c, states, events, j, i - 1) && !LosesMemory(c, states[i - 1], events[i - 1])
  {
    hide LosesMemory;
  }

  /** `lastRemoved` is the time at which the last subscriber left. */
  ghost predicate IsLastRemoval(c: Config, states: seq<State>, events: seq<Event>, i: nat)
    requires |states| == |events| + 1 && i < |states|
  {
    var s := states[i];
    && (s.lastRemoved.Some? ==>
          && s.lastRemoved.value <= s.now
          && exists j: nat :: LeftAt(c, states, events, j, i) && states[j].now == s.lastRemoved.value)
    && (forall j: nat :: LeftAt(c, states, events, j, i) ==>
          s.lastRemoved.Some? && states[j].now <= s.lastRemoved.value)
  }

  lemma {:induction false} LastRemoval(c: Config, env: Environment, states: seq<State>, events: seq<Event>, i: nat)
    requires IsRun(c, env, states, events) && i < |states|
    ensures IsLastRemoval(c, states, events, i)
  {
    hide Step, Enabled, LosesMemory;
    if i > 0 {
      LastRemoval(c, env, states, events, i - 1);
      LastRemovedStep(c, env, states[i - 1], events[i - 1]);
      RemovalStep(c, states, events, i);
    }
  }

  lemma RemovalStep(c: Config, states: seq<State>, events: seq<Event>, i: nat)
    requires |states| == |events| + 1 && 0 < i < |states| && IsLastRemoval(c, states, events, i - 1)
    requires var s, e, s' := states[i - 1], events[i - 1], states[i];
             && s.now <= s'.now
             && s'.lastRemoved ==
                if LosesMemory(c, s, e) then None
                else if e.Unsubscribe? && e.subscriber in s.subscribers then Some(s.now)
                else s.lastRemoved
    ensures IsLastRemoval(c, states, events, i)
  {
    var s, e, s' := states[i - 1], events[i - 1], states[i];
    assert e.Unsubscribe? ==> !LosesMemory(c, s, e);
    hide LeftAt, LosesMemory;
    if s'.lastRemoved.Some? {
      if e.Unsubscribe? && e.subscriber in s.subscribers {
        LeftGrows(c, states, events, i - 1, i);
      } else {
        var j: nat :| LeftAt(c, states, events, j, i - 1) && states[j].now == s.lastRemoved.value;
        LeftBefore(c, states, events, j, i - 1);
        LeftGrows(c, states, events, j, i);
      }
    }
    forall j: nat | LeftAt(c, states, events, j, i)
      ensures s'.lastRemoved.Some? && states[j].now <= s'.lastRemoved.value
    {
      LeftBefore(c, states, events, j, i);
      LeftGrows(c, states, events, j, i);
    }
  }

  lemma LeftBefore(c: Config, states: seq<State>, events: seq<Event>, j: nat, i: nat)
    requires |states| == |events| + 1 && i < |states| && LeftAt(c, states, events, j, i)
    ensures j < i
  {
  }

  /** The grace period runs from the moment at which a subscriber left: in any state, an htlc of a new
      payment is expected without auto-settle and without subscribers exactly when some subscriber
      left, in the life of this process, not longer ago than the grace period. */
  lemma GracePeriod(c: Config, env: Environment, states: seq<State>, events: seq<Event>, i: nat, h: Hash)
    requires IsRun(c, env, states, events) && i < |states|
    requires h !in states[i].sets && !c.autoSettle && states[i].subscribers == {}
    ensures Expected(c, states[i], h) <==>
              exists j: nat :: LeftAt(c, states, events, j, i) && states[i].now - states[j].now <= c.gracePeriod
  {
    hide Step, Enabled, LosesMemory;
    LastRemoval(c, env, states, events, i);
    var s := states[i];
    if s.lastRemoved.Some? {
      var j: nat :| LeftAt(c, states, events, j, i) && states[j].now == s.lastRemoved.value;
      assert s.now - s.lastRemoved.value == s.now - states[j].now;
    }
  }
}
