/** Waiting for the final status of an invoice: a waiter registers a channel before it reads the
    database, and every invoice that becomes final is announced after the commit. */
module SettledHandler {
  import opened Types
  import opened Persistence
  import opened Persister
  import opened NodeSettledHandler

  // ----- The protocol -----

  datatype Answer = Final(settled: bool) | InvoiceMissing | ReadFailed | Cancelled

  datatype Progress = Registered | Waiting | Returned(answer: Answer)

  /** A call of WaitForInvoiceFinalStatus with its channel, which buffers one value. */
  datatype Waiter = Waiter(hash: Hash, at: Progress, buffer: seq<bool>, closed: bool)

  /** `pending` are the announcements of committed final statuses that are still to be made, and
      `announced` are the hashes whose announcement was made or was lost in a crash. */
  datatype State = State(
    db: Db,
    waiters: map<nat, Waiter>,
    lists: map<Hash, seq<nat>>,
    pending: seq<FinalCall>,
    announced: set<Hash>)

  datatype Event =
    | RequestSettle(preimage: Preimage, value: int, htlcs: map<HtlcKey, int>)
    | MarkFinal(key: HtlcKey, settled: bool)
    | Announce(i: nat)
    | Register(id: nat, hash: Hash)
    | ReadDb(id: nat)
    | FailRead(id: nat)
    | Receive(id: nat)
    | Cancel(id: nat)
    | Crash

  function ListOf(s: State, h: Hash): seq<nat> {
    if h in s.lists then s.lists[h] else []
  }

  /** Sending on this channel would block or panic. */
  predicate Stuck(w: Waiter) {
    |w.buffer| >= 1 || w.closed
  }

  function Send(w: Waiter, settled: bool): Waiter {
    w.(buffer := w.buffer + [settled], closed := true)
  }

  ghost predicate Enabled(s: State, e: Event) {
    match e
    case RequestSettle(preimage, value, htlcs) => htlcs != map[] && RowsAdmitted(s.db, preimage, value, htlcs)
    case MarkFinal(_, _) => true
    case Announce(i) => i < |s.pending|
    case Register(id, _) => id !in s.waiters
    case ReadDb(id) => id in s.waiters && s.waiters[id].at == Registered
    case FailRead(id) => id in s.waiters && s.waiters[id].at == Registered
    case Receive(id) => id in s.waiters && s.waiters[id].at == Waiting && s.waiters[id].buffer != []
    case Cancel(id) => id in s.waiters && s.waiters[id].at == Waiting
    case Crash => true
  }

  /** The calls, their channels and the announcements under way are lost; the database is kept. */
  function Crashed(s: State): State {
    s.(waiters := map[], lists := map[], pending := [], announced := set h | h in s.db.invoices && IsFinal(s.db, h))
  }

  function Update(s: State, id: nat, w: Waiter): State {
    s.(waiters := s.waiters[id := w])
  }

  ghost function Step(s: State, e: Event): State
    requires Enabled(s, e)
  {
    match e
    case RequestSettle(preimage, value, htlcs) => s.(db := Inserted(s.db, preimage, value, htlcs))
    case MarkFinal(key, settled) =>
      var (db, r) := MarkHtlcFinal(s.db, key, settled);
      s.(db := db,
         pending := s.pending + News(r, settled))
    case Announce(i) =>
      var call := s.pending[i];
      var told := ListOf(s, call.hash);
      s.(waiters := map id | id in s.waiters ::
           if id in told then Send(s.waiters[id], call.settled) else s.waiters[id],
         lists := s.lists[call.hash := []],
         pending := s.pending[..i] + s.pending[i + 1..],
         announced := s.announced + {call.hash})
    case Register(id, h) =>
      Update(s, id, Waiter(h, Registered, [], false)).(lists := s.lists[h := ListOf(s, h) + [id]])
    case ReadDb(id) =>
      var w := s.waiters[id];
      Update(s, id, w.(at :=
        if w.hash !in s.db.invoices then Returned(InvoiceMissing)
        else if s.db.invoices[w.hash].status.IsFinal() then Returned(Final(s.db.invoices[w.hash].status == Settled))
        else Waiting))
    case FailRead(id) =>
      Update(s, id, s.waiters[id].(at := Returned(ReadFailed)))
    case Receive(id) =>
      var w := s.waiters[id];
      Update(s, id, w.(at := Returned(Final(w.buffer[0])), buffer := w.buffer[1..]))
    case Cancel(id) =>
      Update(s, id, s.waiters[id].(at := Returned(Cancelled)))
    case Crash => Crashed(s)
  }

  // ----- What every interleaving keeps -----

  predicate IsFinal(db: Db, h: Hash) {
    h in db.invoices && db.invoices[h].status.IsFinal()
  }

  ghost predicate Awaits(pending: seq<FinalCall>, h: Hash) {
    exists i :: 0 <= i < |pending| && pending[i].hash == h
  }

  ghost predicate Pending(s: State, h: Hash) {
    Awaits(s.pending, h)
  }

  /** Announcements carry the committed status, and each final invoice has exactly one. */
  ghost predicate AnnouncementsInv(db: Db, pending: seq<FinalCall>, announced: set<Hash>) {
    && (forall i :: 0 <= i < |pending| ==>
          && IsFinal(db, pending[i].hash) && pending[i].hash !in announced
          && db.invoices[pending[i].hash].status == FinalStatus(pending[i].settled))
    && (forall i, j :: 0 <= i < j < |pending| ==> pending[i].hash != pending[j].hash)
    && (forall h :: h in announced ==> IsFinal(db, h))
    && (forall h :: IsFinal(db, h) ==> h in announced || Awaits(pending, h))
  }

  ghost predicate CallsInv(s: State) {
    AnnouncementsInv(s.db, s.pending, s.announced)
  }

  /** Listed channels are open, empty and listed once. */
  ghost predicate ListsInv(s: State) {
    forall h :: h in s.lists ==>
      && NoDuplicates(s.lists[h])
      && forall i :: 0 <= i < |s.lists[h]| ==>
           && s.lists[h][i] in s.waiters && s.waiters[s.lists[h][i]].hash == h
           && !Stuck(s.waiters[s.lists[h][i]])
  }

  ghost predicate WaiterInv(s: State, id: nat)
    requires id in s.waiters
  {
    var w := s.waiters[id];
    && (w.at.Registered? && w.hash !in s.announced ==> id in ListOf(s, w.hash))
    && (w.at.Waiting? ==>
          && w.hash in s.db.invoices
          && if w.hash in s.announced then w.buffer == [s.db.invoices[w.hash].status == Settled]
             else id in ListOf(s, w.hash))
    && (w.at.Returned? && w.at.answer.Final? ==>
          IsFinal(s.db, w.hash) && w.at.answer.settled == (s.db.invoices[w.hash].status == Settled))
  }

  ghost predicate Inv(s: State) {
    && DbInv(s.db) && CallsInv(s) && ListsInv(s)
    && forall id :: id in s.waiters ==> WaiterInv(s, id)
  }

  /** The database moves on: final statuses stay, and at most one invoice becomes final. */
  ghost predicate Advances(db: Db, db': Db, news: seq<FinalCall>) {
    && |news| <= 1
    && (forall h :: h in db.invoices ==> h in db'.invoices)
    && (forall h :: IsFinal(db, h) ==> db'.invoices[h].status == db.invoices[h].status)
    && (forall h :: IsFinal(db', h) && !IsFinal(db, h) ==> |news| == 1 && news[0].hash == h)
    && (|news| == 1 ==>
          && IsFinal(db', news[0].hash) && !IsFinal(db, news[0].hash)
          && db'.invoices[news[0].hash].status == FinalStatus(news[0].settled))
  }

  lemma DatabaseKeepsCalls(db: Db, pending: seq<FinalCall>, announced: set<Hash>, db': Db, news: seq<FinalCall>)
    requires AnnouncementsInv(db, pending, announced) && Advances(db, db', news)
    ensures AnnouncementsInv(db', pending + news, announced)
  {
    var pending' := pending + news;
    forall h | IsFinal(db', h) && h !in announced ensures Awaits(pending', h) {
      if !IsFinal(db, h) {
        assert pending'[|pending|].hash == h;
      } else {
        var i :| 0 <= i < |pending| && pending[i].hash == h;
        assert pending'[i].hash == h;
      }
    }
  }

  lemma DatabaseStep(s: State, db': Db, news: seq<FinalCall>)
    requires Inv(s) && DbInv(db') && Advances(s.db, db', news)
    ensures Inv(s.(db := db', pending := s.pending + news))
  {
    var s' := s.(db := db', pending := s.pending + news);
    DatabaseKeepsCalls(s.db, s.pending, s.announced, db', news);
    forall id | id in s'.waiters ensures WaiterInv(s', id) {
      assert WaiterInv(s, id);
    }
  }

  lemma RequestSettleStep(s: State, preimage: Preimage, value: int, htlcs: map<HtlcKey, int>)
    requires Inv(s) && Enabled(s, RequestSettle(preimage, value, htlcs))
    ensures Inv(Step(s, RequestSettle(preimage, value, htlcs)))
  {
    hide DbInv, Inv, Inserted, RowsAdmitted, Advances;
    assert DbInv(s.db) by {
      InvHasDb(s);
    }
    RequestSettleKeepsInv(s.db, preimage, value, htlcs);
    InsertAdvances(s.db, preimage, value, htlcs);
    assert s.pending + [] == s.pending;
    DatabaseStep(s, Inserted(s.db, preimage, value, htlcs), []);
  }

  lemma InvHasDb(s: State)
    requires Inv(s)
    ensures DbInv(s.db)
  {
  }

  /** A new invoice is not final, and no other invoice changes. */
  lemma InsertAdvances(db: Db, preimage: Preimage, value: int, htlcs: map<HtlcKey, int>)
    requires RowsAdmitted(db, preimage, value, htlcs)
    ensures Advances(db, Inserted(db, preimage, value, htlcs), [])
  {
  }

  lemma ReturnedIsStored(db: Db, key: HtlcKey, settled: bool)
    ensures forall h :: MarkHtlcFinal(db, key, settled).1 == Marked(Some(h)) ==> h in db.invoices
  {
  }

  lemma MarkAdvances(db: Db, key: HtlcKey, settled: bool)
    requires DbInv(db)
    ensures Advances(db, Mark(db, key, settled), News(MarkHtlcFinal(db, key, settled).1, settled))
  {
    ReturnedIsStored(db, key, settled);
    hide DbInv, MarkHtlcFinal;
    var (db', r) := MarkHtlcFinal(db, key, settled);
    MarkFrame(db, key, settled);
    forall h | h in db.invoices
      ensures IsFinal(db, h) ==> db'.invoices[h].status == db.invoices[h].status
      ensures IsFinal(db', h) && !IsFinal(db, h) <==> r == Marked(Some(h))
      ensures r == Marked(Some(h)) ==> db'.invoices[h].status == FinalStatus(settled)
    {
      MarkReturnsOnFinal(db, key, settled, h);
    }
  }

  lemma MarkStep(s: State, key: HtlcKey, settled: bool)
    requires Inv(s)
    ensures Inv(Step(s, MarkFinal(key, settled)))
  {
    MarkKeepsInv(s.db, key, settled);
    MarkAdvances(s.db, key, settled);
    DatabaseStep(s, Mark(s.db, key, settled), News(MarkHtlcFinal(s.db, key, settled).1, settled));
  }

  lemma AnnounceKeepsCalls(db: Db, pending: seq<FinalCall>, announced: set<Hash>, i: nat)
    requires AnnouncementsInv(db, pending, announced) && i < |pending|
    ensures AnnouncementsInv(db, pending[..i] + pending[i + 1..], announced + {pending[i].hash})
  {
    var pending' := pending[..i] + pending[i + 1..];
    assert forall j :: 0 <= j < |pending'| ==> pending'[j] == pending[if j < i then j else j + 1];
    forall h | IsFinal(db, h) && h !in announced + {pending[i].hash} ensures Awaits(pending', h) {
      var j :| 0 <= j < |pending| && pending[j].hash == h;
      assert pending'[if j < i then j else j - 1].hash == h;
    }
  }

  lemma AnnounceStep(s: State, i: nat)
    requires Inv(s) && i < |s.pending|
    ensures Inv(Step(s, Announce(i)))
  {
    hide DbInv;
    var s' := Step(s, Announce(i));
    var call := s.pending[i];
    AnnounceKeepsCalls(s.db, s.pending, s.announced, i);
    assert IsFinal(s.db, call.hash) && s.db.invoices[call.hash].status == FinalStatus(call.settled);
    hide AnnouncementsInv;
    forall id | id in s'.waiters ensures WaiterInv(s', id) {
      assert WaiterInv(s, id);
      if id in ListOf(s, call.hash) {
        assert s.waiters[id].hash == call.hash && s.waiters[id].buffer == [];
      }
    }
    forall h, j | h in s'.lists && 0 <= j < |s'.lists[h]| ensures !Stuck(s'.waiters[s'.lists[h][j]]) {
      assert h != call.hash;
      assert s.waiters[s.lists[h][j]].hash == h;
      assert forall k :: k in ListOf(s, call.hash) ==> s.waiters[k].hash == call.hash;
    }
  }

  lemma RegisterLists(s: State, id: nat, h: Hash)
    requires ListsInv(s) && id !in s.waiters
    ensures ListsInv(Step(s, Register(id, h)))
  {
    assert forall k :: 0 <= k < |ListOf(s, h)| ==> ListOf(s, h)[k] in s.waiters;
  }

  lemma RegisterStep(s: State, id: nat, h: Hash)
    requires Inv(s) && id !in s.waiters
    ensures Inv(Step(s, Register(id, h)))
  {
    hide DbInv, AnnouncementsInv;
    var s' := Step(s, Register(id, h));
    RegisterLists(s, id, h);
    hide ListsInv;
    forall other | other in s'.waiters ensures WaiterInv(s', other) {
      if other != id {
        assert WaiterInv(s, other);
      }
    }
  }

  predicate IsWaiterEvent(e: Event) {
    e.ReadDb? || e.FailRead? || e.Receive? || e.Cancel?
  }

  lemma MovedWaiter(s: State, e: Event, id: nat)
    requires CallsInv(s) && ListsInv(s) && Enabled(s, e) && IsWaiterEvent(e) && id == e.id && WaiterInv(s, id)
    ensures WaiterInv(Step(s, e), id)
  {
    if e.Receive? {
      assert s.waiters[id].hash in s.announced;
    }
  }

  /** A waiter that moves on its own leaves all others as they were. */
  lemma WaiterStep(s: State, e: Event, id: nat)
    requires Inv(s) && Enabled(s, e)
    requires IsWaiterEvent(e) && id == e.id
    ensures Inv(Step(s, e))
  {
    hide DbInv, AnnouncementsInv;
    var s' := Step(s, e);
    assert WaiterInv(s, id);
    MovedWaiter(s, e, id);
    forall other | other in s'.waiters && other != id ensures WaiterInv(s', other) {
      assert WaiterInv(s, other);
    }
  }

  lemma StepKeepsInv(s: State, e: Event)
    requires Inv(s) && Enabled(s, e)
    ensures Inv(Step(s, e))
  {
    match e
    case RequestSettle(preimage, value, htlcs) => RequestSettleStep(s, preimage, value, htlcs);
    case MarkFinal(key, settled) => MarkStep(s, key, settled);
    case Announce(i) => AnnounceStep(s, i);
    case Register(id, h) => RegisterStep(s, id, h);
    case ReadDb(id) => WaiterStep(s, e, id);
    case FailRead(id) => WaiterStep(s, e, id);
    case Receive(id) => WaiterStep(s, e, id);
    case Cancel(id) => WaiterStep(s, e, id);
    case Crash =>
  }

  // ----- Runs -----

  ghost predicate IsRun(states: seq<State>, events: seq<Event>) {
    && |states| == |events| + 1
    && states[0] == State(EMPTY_DB, map[], map[], [], {})
    && forall i {:trigger events[i]} :: 0 <= i < |events| ==>
         Enabled(states[i], events[i]) && states[i + 1] == Step(states[i], events[i])
  }

  lemma {:induction false} RunKeepsInv(states: seq<State>, events: seq<Event>, i: nat)
    requires IsRun(states, events) && i < |states|
    ensures Inv(states[i])
  {
    if i > 0 {
      RunKeepsInv(states, events, i - 1);
      StepKeepsInv(states[i - 1], events[i - 1]);
    }
  }

  /** No wakeup is lost, with crashes and failing reads at any point: a waiter that found the
      invoice not final in the database has, once the invoice is final and announced, exactly the
      committed status in its channel; until then it is on the list of waiters. Every answer given
      is the committed status, and a call made after a crash never waits for an announcement that
      was lost in it. */
  lemma NoLostWakeup(states: seq<State>, events: seq<Event>, i: nat, id: nat)
    requires IsRun(states, events) && i < |states| && id in states[i].waiters
    ensures var s, w := states[i], states[i].waiters[id];
            && (w.at.Waiting? && IsFinal(s.db, w.hash) && !Pending(s, w.hash) ==>
                  w.buffer == [s.db.invoices[w.hash].status == Settled])
            && (w.at.Waiting? && !IsFinal(s.db, w.hash) ==> id in ListOf(s, w.hash) && w.buffer == [])
            && (w.at.Waiting? && Pending(s, w.hash) ==> id in ListOf(s, w.hash) && w.buffer == [])
            && (w.at.Returned? && w.at.answer.Final? ==>
                  IsFinal(s.db, w.hash) && w.at.answer.settled == (s.db.invoices[w.hash].status == Settled))
  {
    RunKeepsInv(states, events, i);
    assert WaiterInv(states[i], id);
  }

  /** Announcing a final status never blocks on a channel and never sends on a closed one. */
  lemma AnnounceNeverBlocks(states: seq<State>, events: seq<Event>, i: nat, c: nat, w: nat)
    requires IsRun(states, events) && i < |states| && c < |states[i].pending|
    requires w in ListOf(states[i], states[i].pending[c].hash)
    ensures w in states[i].waiters && !Stuck(states[i].waiters[w])
  {
    RunKeepsInv(states, events, i);
  }

  // ----- The handler -----

  /** A channel with a buffer of one value. */
  class Channel {
    var buffer: seq<bool>
    var closed: bool

    constructor ()
      ensures buffer == [] && !closed
    {
      buffer, closed := [], false;
    }

    /** Blocks when the buffer is full and panics when the channel is closed. */
    method Send(value: bool)
      requires |buffer| < 1 && !closed
      modifies this
      ensures buffer == old(buffer) + [value] && closed == old(closed)
    {
      buffer := buffer + [value];
    }

    method Close()
      requires !closed
      modifies this
      ensures closed && buffer == old(buffer)
    {
      closed := true;
    }
  }

  /** No channel is listed twice. */
  ghost predicate ListedOnce(waiters: map<Hash, seq<Channel>>) {
    forall h, i, h', i' ::
      h in waiters && 0 <= i < |waiters[h]| && h' in waiters && 0 <= i' < |waiters[h']| ==>
        (waiters[h][i] == waiters[h'][i'] ==> h == h' && i == i')
  }

  lemma NewIsListedOnce(waiters: map<Hash, seq<Channel>>, hash: Hash, list: seq<Channel>, c: Channel)
    requires ListedOnce(waiters) && list == if hash in waiters then waiters[hash] else []
    requires forall h, i :: h in waiters && 0 <= i < |waiters[h]| ==> waiters[h][i] != c
    ensures ListedOnce(waiters[hash := list + [c]])
  {
    var waiters' := waiters[hash := list + [c]];
    forall h, i, h', i' | h in waiters' && 0 <= i < |waiters'[h]| && h' in waiters' && 0 <= i' < |waiters'[h']| &&
                          waiters'[h][i] == waiters'[h'][i']
      ensures h == h' && i == i'
    {
      assert waiters'[h][i] == c || (h in waiters && i < |waiters[h]| && waiters'[h][i] == waiters[h][i]);
      assert waiters'[h'][i'] == c || (h' in waiters && i' < |waiters[h']| && waiters'[h'][i'] == waiters[h'][i']);
    }
  }

  /** How far a call gets before it has to wait. */
  datatype WaitResult = Answered(answer: Answer) | WaitOn(channel: Channel)

  class Waiters {
    var waiters: map<Hash, seq<Channel>>

    ghost function Channels(): set<Channel>
      reads this
    {
      set h, i | h in waiters && 0 <= i < |waiters[h]| :: waiters[h][i]
    }

    /** Every listed channel is open and empty, and is listed once. */
    ghost predicate Valid()
      reads this, Channels()
    {
      && (forall h, i :: h in waiters && 0 <= i < |waiters[h]| ==> waiters[h][i].buffer == [] && !waiters[h][i].closed)
      && ListedOnce(waiters)
    }

    ghost function List(h: Hash): seq<Channel>
      reads this
    {
      if h in waiters then waiters[h] else []
    }

    constructor ()
      ensures Valid() && waiters == map[]
    {
      waiters := map[];
    }

    /** The first part of WaitForInvoiceFinalStatus: register before reading the database. */
    method Subscribe(hash: Hash) returns (waitChan: Channel)
      requires Valid()
      modifies this
      ensures Valid() && fresh(waitChan) && waitChan.buffer == [] && !waitChan.closed
      ensures List(hash) == old(List(hash)) + [waitChan]
      ensures forall h :: h != hash ==> List(h) == old(List(h))
    {
      waitChan := new Channel();
      var list := if hash in waiters then waiters[hash] else [];
      hide ListedOnce;
      assert forall h, i :: h in waiters && 0 <= i < |waiters[h]| ==> waiters[h][i] in old(Channels());
      NewIsListedOnce(waiters, hash, list, waitChan);
      waiters := waiters[hash := list + [waitChan]];
    }

    /** WaitForInvoiceFinalStatus, up to the point where it waits for its channel. The channel is
        registered before the database is read, and stays registered whatever the answer is. */
    method WaitForInvoiceFinalStatus(persister: PostgresPersister, available: bool, hash: Hash)
      returns (r: WaitResult, waitChan: Channel)
      requires Valid()
      modifies this
      ensures Valid() && fresh(waitChan) && waitChan.buffer == [] && !waitChan.closed
      ensures List(hash) == old(List(hash)) + [waitChan]
      ensures forall h :: h != hash ==> List(h) == old(List(h))
      ensures available && IsFinal(persister.Tables(), hash) <==> r.Answered? && r.answer.Final?
      ensures r.Answered? && r.answer.Final? ==> persister.invoices[hash].status == FinalStatus(r.answer.settled)
      ensures r == Answered(InvoiceMissing) <==> available && hash !in persister.invoices
      ensures r == Answered(ReadFailed) <==> !available
      ensures r.WaitOn? <==>
                available && hash in persister.invoices && persister.invoices[hash].status == SettleRequested
      ensures r.WaitOn? ==> r.channel == waitChan
    {
      waitChan := Subscribe(hash);
      var found := persister.Get(available, hash);
      match found
      case Unavailable => r := Answered(ReadFailed);
      case NotFound => r := Answered(InvoiceMissing);
      case Found(invoice, _) =>
        if invoice.status.IsFinal() {
          r := Answered(Final(invoice.status == Settled));
        } else {
          r := WaitOn(waitChan);
        }
    }

    /** InvoiceSettled: send the status to every waiter of the invoice and forget them. */
    method InvoiceSettled(hash: Hash, settled: bool)
      requires Valid()
      modifies this, List(hash)
      ensures Valid()
      ensures List(hash) == []
      ensures forall h :: h != hash ==> List(h) == old(List(h))
      ensures forall i :: 0 <= i < |old(List(hash))| ==>
                old(List(hash))[i].buffer == [settled] && old(List(hash))[i].closed
    {
      var list := if hash in waiters then waiters[hash] else [];
      assert list == List(hash);
      var i := 0;
      while i < |list|
        invariant 0 <= i <= |list|
        invariant waiters == old(waiters)
        invariant forall j :: 0 <= j < i ==> list[j].buffer == [settled] && list[j].closed
        invariant forall j :: i <= j < |list| ==> list[j].buffer == [] && !list[j].closed
        invariant forall h, j :: h in waiters && h != hash && 0 <= j < |waiters[h]| ==>
                    waiters[h][j].buffer == [] && !waiters[h][j].closed
        modifies list
      {
        list[i].Send(settled);
        list[i].Close();
        i := i + 1;
      }
      waiters := waiters[hash := []];
    }
  }
}
