/** The invoice registry as a step machine: the handlers of its event loop as functions on the
    state, crashes at any point, and the runs they make up. */
module Registry {
  import opened Types
  import opened SetId
  import opened StatelessData
  import opened Persistence
  import opened Persister
  import opened Amounts
  import opened Mux

  datatype Config = Config(
    privKey: seq<byte>,
    policy: RoutingPolicy,
    finalCltvRejectDelta: int32,
    holdDuration: Duration,
    acceptTimeout: Duration,
    autoSettle: bool,
    gracePeriod: int)

  /** An htlc key always stands for the same htlc, however often it is offered. */
  type Environment = HtlcKey -> Htlc

  // ----- State -----

  /** When a set became complete, and which completion that was. */
  datatype Completion = Completion(serial: nat, at: Time)

  /** An in-memory htlc set. `since` (when each htlc was accepted) and `completed` are history. */
  datatype HtlcSet = HtlcSet(
    preimage: Preimage,
    value: int64,
    paymentAddr: PaymentAddr,
    htlcs: map<HtlcKey, int>,
    since: map<HtlcKey, Time>,
    completed: Option<Completion>)
  {
    /** isComplete() != nil: the 64 bit total equals the value. */
    ghost predicate IsComplete() {
      ToInt64(Sum(htlcs)) == value
    }

    ghost function Id(): SetID {
      SetIdOf(htlcs.Keys)
    }
  }

  datatype ReleaseEvent =
    | HtlcRelease(hash: Hash, releaseTime: Time, key: HtlcKey)
    | AcceptTimeout(hash: Hash, releaseTime: Time)

  datatype FailOutcome =
    | ExpiryTooSoon | InvoiceNotOpen | MppTimeout | AddressMismatch | HtlcSetTotalMismatch
    | HtlcSetTotalTooLow | HtlcSetOverpayment | HtlcInvoiceTypeMismatch | InvoiceExpired
    | NoAcceptSubscriber | AcceptTimedOut

  datatype Resolution = Settle(preimage: Preimage, replay: bool) | Fail(outcome: FailOutcome)

  /** The callback of one arrival was invoked with a resolution. */
  datatype Entry = Entry(arrival: nat, key: HtlcKey, resolution: Resolution)

  /** An accept subscriber was told of a complete set. */
  datatype Notice = Notice(subscriber: nat, serial: nat, hash: Hash, id: SetID)

  /** The memory of the process (`sets` to `lastRemoved`), the database, the clock, and what the
      process has done so far: `log`, `notices` and two counters. */
  datatype State = State(
    sets: map<Hash, HtlcSet>,
    subs: map<HtlcKey, seq<nat>>,
    heap: multiset<ReleaseEvent>,
    subscribers: set<nat>,
    nextSubscriber: nat,
    lastRemoved: Option<Time>,
    db: Db,
    now: Time,
    log: seq<Entry>,
    notices: seq<Notice>,
    arrivals: nat,
    completions: nat)

  function Initial(now: Time): State {
    State(map[], map[], multiset{}, {}, 0, None, EMPTY_DB, now, [], [], 0, 0)
  }

  /** The process ends, in whatever way: memory is lost, the database is kept. */
  function Crashed(s: State): State {
    s.(sets := map[], subs := map[], heap := multiset{}, subscribers := {}, nextSubscriber := 0, lastRemoved := None)
  }

  // ----- Notifications -----

  function Entries(ids: seq<nat>, k: HtlcKey, res: Resolution): (r: seq<Entry>)
    ensures |r| == |ids|
  {
    seq(|ids|, i requires 0 <= i < |ids| => Entry(ids[i], k, res))
  }

  /** Resolve an arrival at once. */
  function Resolve(s: State, arrival: nat, k: HtlcKey, res: Resolution): State {
    s.(log := s.log + [Entry(arrival, k, res)])
  }

  /** hodlSubscribe */
  function Subscribed(subs: map<HtlcKey, seq<nat>>, k: HtlcKey, arrival: nat): map<HtlcKey, seq<nat>> {
    subs[k := (if k in subs then subs[k] else []) + [arrival]]
  }

  /** notifyHodlSubscribers */
  function Notify(s: State, k: HtlcKey, res: Resolution): State {
    if k !in s.subs then s
    else s.(log := s.log + Entries(s.subs[k], k, res), subs := s.subs - {k})
  }

  function NotifyAll(s: State, keys: seq<HtlcKey>, res: Resolution): State {
    if keys == [] then s else Notify(NotifyAll(s, keys[..|keys| - 1], res), keys[|keys| - 1], res)
  }

  /** deleteAll with a callback that notifies: `order` is the iteration order of the htlc map. */
  ghost function DeleteAll(s: State, h: Hash, order: seq<HtlcKey>, res: Resolution): State
    requires h in s.sets
  {
    var s1 := NotifyAll(s, Ordered(order, s.sets[h].htlcs.Keys), res);
    s1.(sets := s1.sets - {h})
  }

  // ----- HTLC arrival -----

  datatype Decision =
    | ReplaySettled(preimage: Preimage)
    | Reject(outcome: FailOutcome)
    | ReAccept
    | Accept(invoice: StatelessInvoice)
    | Inconsistent      // an invoice without htlcs: process returns an error

  function MppOf(htlc: Htlc): Option<Mpp> {
    if htlc.onion.Decoded? then htlc.onion.payload.mpp else None
  }

  predicate HasRecentSubscribers(c: Config, s: State) {
    s.subscribers != {} || (s.lastRemoved.Some? && s.now - s.lastRemoved.value <= c.gracePeriod)
  }

  /** The total that the set would have with this htlc, in unsigned 64 bit arithmetic. */
  ghost function NewSetTotal(s: State, htlc: Htlc): uint64 {
    var setTotal := if htlc.hash in s.sets then ToInt64(Sum(s.sets[htlc.hash].htlcs)) else 0;
    ToUint64(ToUint64(setTotal) + htlc.outgoingAmountMsat)
  }

  predicate ExpiresTooSoon(c: Config, htlc: Htlc, height: int32) {
    htlc.outgoingExpiry < ToUint32(ToInt32(height + c.finalCltvRejectDelta))
  }

  /** The decision that process takes on an htlc whose hash is not in the database. */
  ghost function DecideOpen(c: Config, s: State, k: HtlcKey, htlc: Htlc, height: int32): Decision {
    if MppOf(htlc).None? then Reject(HtlcInvoiceTypeMismatch) else
    var mpp := MppOf(htlc).value;
    if mpp.totalMsat == 0 then Reject(HtlcSetTotalTooLow) else
    var invoice := DecodeStatelessData(c.privKey, mpp.paymentAddr);
    if Sha256(invoice.preimage) != htlc.hash then Reject(AddressMismatch) else
    if mpp.totalMsat != ToUint64(invoice.amtMsat) then Reject(HtlcSetTotalMismatch) else
    if htlc.hash in s.sets && k in s.sets[htlc.hash].htlcs then ReAccept else
    if invoice.expiry < s.now then Reject(InvoiceExpired) else
    if NewSetTotal(s, htlc) > mpp.totalMsat then Reject(HtlcSetOverpayment) else
    if ExpiresTooSoon(c, htlc, height) then Reject(ExpiryTooSoon) else
    if htlc.hash !in s.sets && !c.autoSettle && !HasRecentSubscribers(c, s) then Reject(NoAcceptSubscriber) else
    Accept(invoice)
  }

  /** The decision that process takes: the database is asked first. */
  ghost function Decide(c: Config, s: State, k: HtlcKey, htlc: Htlc, height: int32): Decision {
    match Lookup(s.db, htlc.hash)
    case Found(invoice, htlcs) =>
      if htlcs == map[] then Inconsistent
      else if k in htlcs then ReplaySettled(invoice.preimage)
      else Reject(InvoiceNotOpen)
    case _ => DecideOpen(c, s, k, htlc, height)
  }

  function AddrOf(htlc: Htlc): PaymentAddr {
    if MppOf(htlc).Some? then MppOf(htlc).value.paymentAddr else seq(32, _ => 0)
  }

  /** The set after adding an accepted htlc, before its completion is noted. */
  function Extended(s: State, k: HtlcKey, htlc: Htlc, invoice: StatelessInvoice): HtlcSet {
    var set0 := if htlc.hash in s.sets then s.sets[htlc.hash]
                else HtlcSet(invoice.preimage, invoice.amtMsat, AddrOf(htlc), map[], map[], None);
    set0.(htlcs := set0.htlcs[k := ToInt64(htlc.outgoingAmountMsat)], since := set0.since[k := s.now])
  }

  /** An htlc is released after the hold duration or at the expiry of the invoice. */
  function HoldUntil(c: Config, now: Time, expiry: Time): Time {
    if now + c.holdDuration > expiry then expiry else now + c.holdDuration
  }

  /** The calls of the accept callbacks, in the order of the subscribers. */
  function NoticesTo(subscribers: seq<nat>, h: Hash, serial: nat, id: SetID): seq<Notice> {
    seq(|subscribers|, i requires 0 <= i < |subscribers| => Notice(subscribers[i], serial, h, id))
  }

  ghost function NoticesFor(s: State, order: seq<nat>, h: Hash, serial: nat, id: SetID): seq<Notice> {
    NoticesTo(Ordered(order, s.subscribers), h, serial, id)
  }

  /** The set is still incomplete: hold the htlc. */
  ghost function Hold(c: Config, s: State, k: HtlcKey, htlc: Htlc, invoice: StatelessInvoice, set1: HtlcSet): State {
    s.(sets := s.sets[htlc.hash := set1],
       subs := Subscribed(s.subs, k, s.arrivals),
       heap := s.heap + multiset{HtlcRelease(htlc.hash, HoldUntil(c, s.now, invoice.expiry), k)})
  }

  /** The set is complete: start the accept timer and tell the subscribers. */
  ghost function Complete(c: Config, s: State, k: HtlcKey, htlc: Htlc, set1: HtlcSet, order: seq<nat>): State {
    s.(sets := s.sets[htlc.hash := set1.(completed := Some(Completion(s.completions, s.now)))],
       subs := Subscribed(s.subs, k, s.arrivals),
       heap := s.heap + multiset{AcceptTimeout(htlc.hash, s.now + c.acceptTimeout)},
       notices := s.notices + NoticesFor(s, order, htlc.hash, s.completions, set1.Id()),
       completions := s.completions + 1)
  }

  ghost predicate Admits(s: State, h: Hash)
    requires h in s.sets
  {
    RowsAdmitted(s.db, s.sets[h].preimage, s.sets[h].value, s.sets[h].htlcs)
  }

  /** markSettleRequested, followed by requestSettle. */
  ghost function CommitAndSettle(s: State, h: Hash, order: seq<HtlcKey>): State
    requires h in s.sets
  {
    var set0 := s.sets[h];
    DeleteAll(s.(db := Inserted(s.db, set0.preimage, set0.value, set0.htlcs)), h, order, Settle(set0.preimage, false))
  }

  /** The choices that the environment makes while an event is handled: whether the database can
      be reached and commits, and the iteration orders of maps. */
  datatype Choice = Choice(
    getOk: bool,
    commitOk: bool,
    keyOrder: seq<HtlcKey>,
    subscriberOrder: seq<nat>,
    hashOrder: seq<Hash>)

  /** In auto-settle mode a complete set is stored and settled at once. */
  ghost function AutoSettled(c: Config, s: State, h: Hash, choice: Choice): State
    requires h in s.sets
  {
    if c.autoSettle && choice.commitOk && Admits(s, h) then CommitAndSettle(s, h, choice.keyOrder) else s
  }

  /** The accepted htlc is in its set and waits, before the set is settled automatically. */
  ghost function Taken(c: Config, s: State, k: HtlcKey, htlc: Htlc, invoice: StatelessInvoice,
                       choice: Choice): (s1: State)
    ensures htlc.hash in s1.sets
  {
    var set1 := Extended(s, k, htlc, invoice);
    if !set1.IsComplete() then Hold(c, s, k, htlc, invoice, set1).(arrivals := s.arrivals + 1)
    else Complete(c, s, k, htlc, set1, choice.subscriberOrder).(arrivals := s.arrivals + 1)
  }

  /** What process does with an htlc that it accepts. */
  ghost function AcceptedArrival(
    c: Config, s: State, k: HtlcKey, htlc: Htlc, invoice: StatelessInvoice, choice: Choice): State
  {
    var s1 := Taken(c, s, k, htlc, invoice, choice);
    if Extended(s, k, htlc, invoice).IsComplete() then AutoSettled(c, s1, htlc.hash, choice) else s1
  }

  /** process: one more arrival of the htlc with key `k`. */
  ghost function Process(c: Config, env: Environment, s: State, k: HtlcKey, height: int32, choice: Choice): State {
    var htlc := env(k);
    var arrived := s.(arrivals := s.arrivals + 1);
    if !choice.getOk then arrived else
    match Decide(c, s, k, htlc, height)
    case ReplaySettled(preimage) => Resolve(arrived, s.arrivals, k, Settle(preimage, true))
    case Reject(outcome) => Resolve(arrived, s.arrivals, k, Fail(outcome))
    case Inconsistent => arrived
    case ReAccept => arrived.(subs := Subscribed(s.subs, k, s.arrivals))
    case Accept(invoice) => AcceptedArrival(c, s, k, htlc, invoice, choice)
  }

  // ----- Requests -----

  datatype Reply = Ok | ErrInvoiceNotFound | ErrSettleRequested | ErrAutoSettling | Stopped

  /** getAcceptedSet without a set: what the database says about the request. */
  ghost function ReplyFromDb(s: State, h: Hash, id: SetID, getOk: bool): Reply {
    if !getOk then Stopped
    else if h !in s.db.invoices || id != SetIdOf(KeysOf(s.db, h)) then ErrInvoiceNotFound
    else ErrSettleRequested
  }

  /** getAcceptedSet found a complete set with this id. */
  ghost predicate Accepted(s: State, h: Hash, id: SetID) {
    h in s.sets && s.sets[h].IsComplete() && s.sets[h].Id() == id
  }

  ghost function SettleReply(c: Config, s: State, h: Hash, id: SetID, choice: Choice): Reply {
    if h !in s.sets then
      var r := ReplyFromDb(s, h, id, choice.getOk);
      if r == ErrSettleRequested then Ok else r
    else if !Accepted(s, h, id) then ErrInvoiceNotFound
    else if c.autoSettle then ErrAutoSettling
    else if choice.commitOk && Admits(s, h) then Ok
    else Stopped
  }

  /** handleSettleRequest. An error of the database ends the process. */
  ghost function HandleSettle(c: Config, s: State, h: Hash, id: SetID, choice: Choice): State {
    var reply := SettleReply(c, s, h, id, choice);
    if reply == Stopped then Crashed(s)
    else if reply == Ok && h in s.sets then CommitAndSettle(s, h, choice.keyOrder)
    else s
  }

  ghost function CancelReply(s: State, h: Hash, id: SetID, choice: Choice): Reply {
    if h !in s.sets then ReplyFromDb(s, h, id, choice.getOk)
    else if !Accepted(s, h, id) then ErrInvoiceNotFound
    else Ok
  }

  /** handleCancelRequest */
  ghost function HandleCancel(s: State, h: Hash, id: SetID, choice: Choice): State {
    var reply := CancelReply(s, h, id, choice);
    if reply == Stopped then Crashed(s)
    else if reply == Ok then DeleteAll(s, h, choice.keyOrder, Fail(InvoiceNotOpen))
    else s
  }

  // ----- Timers -----

  /** cancelSingleHtlc would delete an htlc that is not in the set: the process panics. */
  ghost predicate ReleasePanics(s: State, h: Hash, k: HtlcKey) {
    h in s.sets && !s.sets[h].IsComplete() && k !in s.sets[h].htlcs
  }

  /** cancelSingleHtlc */
  ghost function CancelSingle(s: State, h: Hash, k: HtlcKey): State {
    if h !in s.sets || s.sets[h].IsComplete() then s
    else if k !in s.sets[h].htlcs then Crashed(s)
    else
      var set1 := s.sets[h].(htlcs := s.sets[h].htlcs - {k}, since := s.sets[h].since - {k});
      var s1 := s.(sets := if set1.htlcs == map[] then s.sets - {h} else s.sets[h := set1]);
      Notify(s1, k, Fail(MppTimeout))
  }

  /** failInvoice */
  ghost function FailInvoice(s: State, h: Hash, order: seq<HtlcKey>): State {
    if h !in s.sets then s else DeleteAll(s, h, order, Fail(AcceptTimedOut))
  }

  function Popped(s: State, ev: ReleaseEvent): State {
    s.(heap := s.heap - multiset{ev})
  }

  /** The release tick: the event at the top of the heap is handled. */
  ghost function Release(s: State, ev: ReleaseEvent, order: seq<HtlcKey>): State {
    match ev
    case HtlcRelease(h, _, k) => CancelSingle(Popped(s, ev), h, k)
    case AcceptTimeout(h, _) => FailInvoice(Popped(s, ev), h, order)
  }

  /** The event may be at the top of the heap, and its time has come. */
  ghost predicate Due(s: State, ev: ReleaseEvent) {
    && ev in s.heap && ev.releaseTime <= s.now
    && forall other :: other in s.heap ==> ev.releaseTime <= other.releaseTime
  }

  // ----- Accept subscribers -----

  ghost function CompleteHashes(s: State): set<Hash> {
    set h | h in s.sets && s.sets[h].IsComplete()
  }

  function SerialOf(s: State, h: Hash): nat {
    if h in s.sets && s.sets[h].completed.Some? then s.sets[h].completed.value.serial else 0
  }

  /** What a new subscriber is told of the complete sets. */
  ghost function AcceptedNotices(s: State, id: nat, hashes: seq<Hash>): seq<Notice> {
    seq(|hashes|, i requires 0 <= i < |hashes| =>
      Notice(id, SerialOf(s, hashes[i]), hashes[i], if hashes[i] in s.sets then s.sets[hashes[i]].Id() else []))
  }

  /** addAcceptSubscriber: the subscriber is told of all complete sets. */
  ghost function AddSubscriber(s: State, order: seq<Hash>): State {
    var hashes := Ordered(order, CompleteHashes(s));
    s.(subscribers := s.subscribers + {s.nextSubscriber + 1},
       nextSubscriber := s.nextSubscriber + 1,
       notices := s.notices + AcceptedNotices(s, s.nextSubscriber + 1, hashes))
  }

  /** deleteAcceptSubscription */
  function RemoveSubscriber(s: State, id: nat): State {
    if id !in s.subscribers then s
    else s.(subscribers := s.subscribers - {id}, lastRemoved := Some(s.now))
  }

  // ----- Steps and runs -----

  /** Where in a handler the process crashes: while subscribers are told of an accepted set, or
      after the commit, if there is one, while htlcs are being resolved. */
  datatype CrashPoint = WhileNotifying(notices: nat) | WhileResolving(entries: nat)

  datatype Event =
    | Arrive(key: HtlcKey, height: int32, choice: Choice)
    | Tick(event: ReleaseEvent, choice: Choice)
    | SettleRequest(hash: Hash, id: SetID, choice: Choice)
    | CancelRequest(hash: Hash, id: SetID, choice: Choice)
    | Subscribe(choice: Choice)
    | Unsubscribe(subscriber: nat)
    | Advance(to: Time)
    | MarkFinal(key: HtlcKey, settled: bool)
    | Crash
    | CrashDuring(during: Event, point: CrashPoint)

  /** A crash in the middle of a handler that takes `s` to `s'`. */
  function Interrupted(s: State, s': State, point: CrashPoint): State {
    match point
    case WhileNotifying(n) =>
      var upTo := if |s.notices| + n <= |s'.notices| then |s.notices| + n else |s'.notices|;
      Crashed(s'.(db := s.db, log := s.log, notices := s'.notices[..upTo]))
    case WhileResolving(n) =>
      var upTo := if |s.log| + n <= |s'.log| then |s.log| + n else |s'.log|;
      Crashed(s'.(log := s'.log[..upTo]))
  }

  ghost predicate Enabled(c: Config, env: Environment, s: State, e: Event) {
    match e
    case Arrive(k, _, _) => ProcessHtlc(c.policy, env(k)).ToRegistry?
    case Tick(ev, _) => Due(s, ev)
    case Advance(to) => s.now <= to
    case CrashDuring(during, _) => !during.CrashDuring? && Enabled(c, env, s, during)
    case _ => true
  }

  ghost predicate Panics(s: State, e: Event) {
    e.Tick? && e.event.HtlcRelease? && ReleasePanics(s, e.event.hash, e.event.key)
  }

  ghost function Step(c: Config, env: Environment, s: State, e: Event): State {
    match e
    case Arrive(k, height, choice) => Process(c, env, s, k, height, choice)
    case Tick(ev, choice) => Release(s, ev, choice.keyOrder)
    case SettleRequest(h, id, choice) => HandleSettle(c, s, h, id, choice)
    case CancelRequest(h, id, choice) => HandleCancel(s, h, id, choice)
    case Subscribe(choice) => AddSubscriber(s, choice.hashOrder)
    case Unsubscribe(id) => RemoveSubscriber(s, id)
    case Advance(to) => s.(now := to)
    case MarkFinal(k, settled) => s.(db := Mark(s.db, k, settled))
    case Crash => Crashed(s)
    case CrashDuring(during, point) => Interrupted(s, Step(c, env, s, during), point)
  }

  /** A run: the states and the events between them, from an empty database on. */
  ghost predicate IsRun(c: Config, env: Environment, states: seq<State>, events: seq<Event>) {
    && |states| == |events| + 1
    && states[0] == Initial(states[0].now)
    && forall i {:trigger events[i]} :: 0 <= i < |events| ==>
         Enabled(c, env, states[i], events[i]) && states[i + 1] == Step(c, env, states[i], events[i])
  }

  // ----- Assumptions about the environment -----

  const MAX_MSAT: int := 2_100_000_000_000_000_000

  /** Lightning carries positive amounts of at most the total supply, and the addresses that
      lnmux has handed out are for invoices with a positive amount. */
  ghost predicate EnvOk(c: Config, env: Environment) {
    forall k ::
      var htlc := env(k);
      && 0 < htlc.outgoingAmountMsat <= MAX_MSAT
      && (MppOf(htlc).Some? && htlc.hash == Sha256(Hmac(c.privKey, MppOf(htlc).value.paymentAddr)) ==>
            DecodeStatelessData(c.privKey, MppOf(htlc).value.paymentAddr).amtMsat > 0)
  }
}
