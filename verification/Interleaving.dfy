/** MarkHtlcFinal and Get at the level of their SQL statements. Any number of transactions run
    concurrently under READ COMMITTED: a statement sees what has been committed when it runs,
    together with the writes of its own transaction. The row lock that SELECT ... FOR UPDATE
    takes on the invoice, and the one that SELECT ... FOR SHARE takes, are held until the
    transaction ends. */
module Interleaving {
  import opened Types
  import opened Persistence
  import opened Persister

  /** Where a transaction stands: the statements it has executed and what they returned. */
  datatype Progress =
    | Begun
    | Located(hash: Hash)                     // SELECT htlc
    | Selected(hash: Hash, seen: Status)      // SELECT invoice FOR UPDATE
    | HtlcUpdated(hash: Hash, seen: Status)   // UPDATE htlc
    | Finalizing(hash: Hash)                  // SELECT count(*), or skipped after a failure
    | Ready(hash: Hash, result: Option<Hash>) // all statements done
    | Ended(outcome: MarkResult)
    | Disconnected

  datatype Tx = Tx(key: HtlcKey, settled: bool, at: Progress, htlcWritten: bool, invoiceWritten: bool)

  /** Where a Get stands. */
  datatype ReadProgress =
    | ReadBegun
    | InvoiceRead(row: InvoiceRow)                               // SELECT invoice FOR SHARE
    | HtlcsRead(row: InvoiceRow, htlcs: map<HtlcKey, int>)       // SELECT htlcs
    | ReadEnded(result: GetResult)
    | ReadAborted

  datatype Reader = Reader(hash: Hash, at: ReadProgress)

  datatype Op =
    | MarkOp(id: nat, key: HtlcKey, settled: bool, outcome: MarkResult)
    | InsertOp(preimage: Preimage, value: int, htlcs: map<HtlcKey, int>)
    | ReadOp(id: nat, hash: Hash, result: GetResult)

  /** `locking` tells whether the select of the invoice takes the row lock. */
  datatype System = System(
    locking: bool,
    db: Db,
    locks: map<Hash, nat>,
    readers: map<nat, Reader>,
    txs: map<nat, Tx>,
    history: seq<Op>)

  datatype Action =
    | Begin(id: nat, key: HtlcKey, settled: bool)
    | Statement(id: nat)
    | Disconnect(id: nat)
    | Insert(preimage: Preimage, value: int, htlcs: map<HtlcKey, int>)
    | BeginRead(id: nat, hash: Hash)
    | ReadStatement(id: nat)
    | AbortRead(id: nat)

  /** What the transaction itself sees: its own writes on top of the committed rows. */
  function Overlay(db: Db, tx: Tx, h: Hash): Db {
    var db1 := if tx.htlcWritten && tx.key in db.htlcs then SetHtlcStatus(db, tx.key, FinalStatus(tx.settled)) else db;
    if tx.invoiceWritten && h in db1.invoices then SetInvoiceStatus(db1, h, FinalStatus(tx.settled)) else db1
  }

  function Release(locks: map<Hash, nat>, id: nat): map<Hash, nat> {
    map h | h in locks && locks[h] != id :: locks[h]
  }

  function Move(s: System, id: nat, tx: Tx): System {
    s.(txs := s.txs[id := tx])
  }

  /** End a transaction: drop its locks and record its outcome. */
  function Finish(s: System, id: nat, db: Db, outcome: MarkResult): System
    requires id in s.txs
  {
    var tx := s.txs[id];
    s.(db := db, locks := Release(s.locks, id), txs := s.txs[id := tx.(at := Ended(outcome))],
       history := s.history + [MarkOp(id, tx.key, tx.settled, outcome)])
  }

  predicate HoldsShare(at: ReadProgress) {
    at.InvoiceRead? || at.HtlcsRead?
  }

  /** Some Get holds the share lock on the invoice. */
  predicate Shared(readers: map<nat, Reader>, h: Hash) {
    exists id :: id in readers && readers[id].hash == h && HoldsShare(readers[id].at)
  }

  function MoveRead(s: System, id: nat, at: ReadProgress): System
    requires id in s.readers
  {
    s.(readers := s.readers[id := s.readers[id].(at := at)])
  }

  function FinishRead(s: System, id: nat, result: GetResult): System
    requires id in s.readers
  {
    MoveRead(s, id, ReadEnded(result)).(history := s.history + [ReadOp(id, s.readers[id].hash, result)])
  }

  /** Execute the next statement of a Get. */
  function ExecuteRead(s: System, id: nat): System
    requires id in s.readers
  {
    var h := s.readers[id].hash;
    match s.readers[id].at
    case ReadBegun =>
      if h in s.locks then s
      else if h !in s.db.invoices then FinishRead(s, id, NotFound)
      else MoveRead(s, id, InvoiceRead(s.db.invoices[h]))
    case InvoiceRead(row) => MoveRead(s, id, HtlcsRead(row, HtlcsOf(s.db, h)))
    case HtlcsRead(row, htlcs) => FinishRead(s, id, Found(row, htlcs))
    case _ => s
  }

  /** Execute the next statement of a transaction. A blocked statement changes nothing. */
  function Execute(s: System, id: nat): System
    requires id in s.txs
  {
    var tx := s.txs[id];
    match tx.at
    case Begun =>
      if tx.key !in s.db.htlcs then Finish(s, id, s.db, MarkFailed(HtlcNotFound))
      else Move(s, id, tx.(at := Located(s.db.htlcs[tx.key].hash)))
    case Located(h) =>
      if h in s.locks || (s.locking && Shared(s.readers, h)) then s
      else if h !in s.db.invoices then Finish(s, id, s.db, MarkFailed(InvoiceNotFound))
      else Move(s, id, tx.(at := Selected(h, s.db.invoices[h].status)))
           .(locks := if s.locking then s.locks[h := id] else s.locks)
    case Selected(h, seen) =>
      if seen == Settled then Finish(s, id, s.db, MarkFailed(InvoiceAlreadySettled))
      else if tx.key !in s.db.htlcs || s.db.htlcs[tx.key].status != SettleRequested
      then Finish(s, id, s.db, MarkFailed(HtlcAlreadyFinal))
      else Move(s, id, tx.(at := HtlcUpdated(h, seen), htlcWritten := true))
    case HtlcUpdated(h, seen) =>
      if seen == Failed || (tx.settled && PendingOf(Overlay(s.db, tx, h), h) != {})
      then Move(s, id, tx.(at := Ready(h, None)))
      else Move(s, id, tx.(at := Finalizing(h)))
    case Finalizing(h) =>
      if h !in s.db.invoices || s.db.invoices[h].status != SettleRequested
      then Finish(s, id, s.db, MarkFailed(FinalizationFailed))
      else Move(s, id, tx.(at := Ready(h, Some(h)), invoiceWritten := true))
    case Ready(h, result) =>
      Finish(s, id, Overlay(s.db, tx, h), Marked(result))
    case _ => s
  }

  ghost function Step(s: System, a: Action): System {
    match a
    case Begin(id, key, settled) =>
      if id in s.txs then s else s.(txs := s.txs[id := Tx(key, settled, Begun, false, false)])
    case Statement(id) =>
      if id !in s.txs || s.txs[id].at.Ended? || s.txs[id].at.Disconnected? then s else Execute(s, id)
    case Disconnect(id) =>
      if id !in s.txs || s.txs[id].at.Ended? then s
      else Move(s, id, s.txs[id].(at := Disconnected)).(locks := Release(s.locks, id))
    case Insert(preimage, value, htlcs) =>
      if htlcs == map[] || !RowsAdmitted(s.db, preimage, value, htlcs) then s
      else s.(db := Inserted(s.db, preimage, value, htlcs),
              history := s.history + [InsertOp(preimage, value, htlcs)])
    case BeginRead(id, hash) =>
      if id in s.readers then s else s.(readers := s.readers[id := Reader(hash, ReadBegun)])
    case ReadStatement(id) =>
      if id !in s.readers then s else ExecuteRead(s, id)
    case AbortRead(id) =>
      if id !in s.readers || s.readers[id].at.ReadEnded? then s else MoveRead(s, id, ReadAborted)
  }

  // ----- Serial executions -----

  ghost function ApplyOp(db: Db, op: Op): Db {
    match op
    case MarkOp(_, key, settled, _) => Mark(db, key, settled)
    case InsertOp(preimage, value, htlcs) => Inserted(db, preimage, value, htlcs)
    case ReadOp(_, _, _) => db
  }

  /** One transaction after the other, in the order of the list. */
  ghost function Serial(db: Db, ops: seq<Op>): Db {
    if ops == [] then db else ApplyOp(Serial(db, ops[..|ops| - 1]), ops[|ops| - 1])
  }

  /** Executed on its own, the operation has the recorded outcome. */
  ghost predicate HasOutcome(db: Db, op: Op) {
    match op
    case MarkOp(_, key, settled, outcome) => MarkHtlcFinal(db, key, settled).1 == outcome
    case InsertOp(preimage, value, htlcs) => htlcs != map[] && RowsAdmitted(db, preimage, value, htlcs)
    case ReadOp(_, hash, result) => Lookup(db, hash) == result
  }

  ghost predicate SerialOutcomes(db: Db, ops: seq<Op>) {
    ops == [] || (SerialOutcomes(db, ops[..|ops| - 1]) && HasOutcome(Serial(db, ops[..|ops| - 1]), ops[|ops| - 1]))
  }

  lemma SerialExtend(db: Db, ops: seq<Op>, op: Op)
    requires SerialOutcomes(db, ops) && HasOutcome(Serial(db, ops), op)
    ensures SerialOutcomes(db, ops + [op])
    ensures Serial(db, ops + [op]) == ApplyOp(Serial(db, ops), op)
  {
    assert (ops + [op])[..|ops|] == ops;
  }

  // ----- What every interleaving keeps -----

  predicate HoldsLock(at: Progress) {
    at.Selected? || at.HtlcUpdated? || at.Finalizing? || at.Ready?
  }

  /** What a transaction that holds the lock knows about the committed rows of its invoice. */
  ghost predicate Knows(db: Db, tx: Tx)
    requires HoldsLock(tx.at)
  {
    var h := tx.at.hash;
    && h in db.invoices && tx.key in db.htlcs && db.htlcs[tx.key].hash == h
    && (tx.at.Selected? ==> tx.at.seen == db.invoices[h].status && !tx.htlcWritten && !tx.invoiceWritten)
    && (!tx.at.Selected? ==>
          tx.htlcWritten && db.htlcs[tx.key].status == SettleRequested && db.invoices[h].status != Settled)
    && (tx.at.HtlcUpdated? ==> tx.at.seen == db.invoices[h].status && !tx.invoiceWritten)
    && (tx.at.Finalizing? ==> !tx.invoiceWritten)
    && (tx.at.Ready? ==> tx.invoiceWritten == tx.at.result.Some?)
    && (tx.at.Ready? && tx.at.result.Some? ==> tx.at.result == Some(h))
    && (tx.at.Ready? && tx.at.result.None? ==>
          db.invoices[h].status == Failed || (tx.settled && PendingOf(db, h) - {tx.key} != {}))
    && (tx.at.Finalizing? || (tx.at.Ready? && tx.at.result.Some?) ==>
          db.invoices[h].status == SettleRequested && (tx.settled ==> PendingOf(db, h) - {tx.key} == {}))
  }

  ghost predicate TxInv(s: System, id: nat)
    requires id in s.txs
  {
    var tx := s.txs[id];
    && (tx.at.Begun? || tx.at.Located? ==> !tx.htlcWritten && !tx.invoiceWritten)
    && (tx.at.Located? ==> tx.key in s.db.htlcs && s.db.htlcs[tx.key].hash == tx.at.hash)
    && (HoldsLock(tx.at) ==> tx.at.hash in s.locks && s.locks[tx.at.hash] == id && Knows(s.db, tx))
  }

  /** What a Get that holds the share lock has read is still what is committed. */
  ghost predicate ReaderInv(r: Reader, db: Db, locks: map<Hash, nat>) {
    HoldsShare(r.at) ==>
      && r.hash in db.invoices && db.invoices[r.hash] == r.at.row && r.hash !in locks
      && (r.at.HtlcsRead? ==> r.at.htlcs == HtlcsOf(db, r.hash))
  }

  ghost predicate ReadersInv(readers: map<nat, Reader>, db: Db, locks: map<Hash, nat>) {
    forall id :: id in readers ==> ReaderInv(readers[id], db, locks)
  }

  ghost predicate SystemInv(init: Db, s: System) {
    && s.locking
    && DbInv(s.db)
    && ReadersInv(s.readers, s.db, s.locks)
    && (forall id :: id in s.txs ==> TxInv(s, id))
    && SerialOutcomes(init, s.history) && s.db == Serial(init, s.history)
  }

  /** Readers keep what they know when the rows of their invoices stay and no lock is added. */
  lemma ReadersFramed(readers: map<nat, Reader>, db: Db, locks: map<Hash, nat>, db': Db, locks': map<Hash, nat>)
    requires ReadersInv(readers, db, locks)
    requires forall h :: h in locks' ==> h in locks
    requires forall h :: h in db.invoices && h !in locks ==> SameRows(db, db', h)
    ensures ReadersInv(readers, db', locks')
  {
    forall id | id in readers ensures ReaderInv(readers[id], db', locks') {
      var r := readers[id];
      assert ReaderInv(r, db, locks);
      if HoldsShare(r.at) {
        assert SameRows(db, db', r.hash);
        SameRowsHtlcs(db, db', r.hash);
      }
    }
  }

  lemma SameRowsHtlcs(db: Db, db': Db, h: Hash)
    requires SameRows(db, db', h)
    ensures HtlcsOf(db, h) == HtlcsOf(db', h)
  {
    assert forall k :: k in KeysOf(db, h) <==> k in KeysOf(db', h);
  }

  lemma SameRowsRefl(db: Db)
    ensures forall h :: h in db.invoices ==> SameRows(db, db, h)
  {
  }

  /** Knowledge about one invoice survives changes to the rows of others. */
  lemma KnowledgeFramed(db: Db, db': Db, tx: Tx)
    requires HoldsLock(tx.at) && Knows(db, tx)
    requires SameRows(db, db', tx.at.hash)
    ensures Knows(db', tx)
  {
    SameRowsPending(db, db', tx.at.hash);
    assert tx.key in KeysOf(db, tx.at.hash);
    assert tx.key in KeysOf(db', tx.at.hash);
  }

  lemma PendingAfterUpdate(db: Db, k: HtlcKey, settled: bool, h: Hash)
    requires k in db.htlcs
    ensures PendingOf(SetHtlcStatus(db, k, FinalStatus(settled)), h) == PendingOf(db, h) - {k}
  {
  }

  /** A transaction that is about to commit writes what the atomic MarkHtlcFinal would write. */
  lemma ReadyIsAtomic(db: Db, tx: Tx)
    requires tx.at.Ready? && Knows(db, tx)
    ensures MarkHtlcFinal(db, tx.key, tx.settled) == (Overlay(db, tx, tx.at.hash), Marked(tx.at.result))
  {
    PendingAfterUpdate(db, tx.key, tx.settled, tx.at.hash);
  }

  lemma KnowsRow(db: Db, tx: Tx)
    requires HoldsLock(tx.at) && Knows(db, tx)
    ensures tx.at.hash in db.invoices && tx.key in db.htlcs && db.htlcs[tx.key].hash == tx.at.hash
  {
  }

  /** When a transaction ends, every other transaction still knows its own rows. */
  lemma FinishKeepsOthers(s: System, id: nat, db': Db, outcome: MarkResult, other: nat)
    requires id in s.txs && other in s.txs && other != id && TxInv(s, other)
    requires db' == Mark(s.db, s.txs[id].key, s.txs[id].settled)
    requires db' != s.db ==> HoldsLock(s.txs[id].at) && TxInv(s, id)
    ensures TxInv(Finish(s, id, db', outcome), other)
  {
    hide Mark, Knows;
    var tx := s.txs[other];
    if HoldsLock(tx.at) {
      OthersKnow(s, id, db', other);
    } else {
      MarkFrame(s.db, s.txs[id].key, s.txs[id].settled);
    }
  }

  lemma OthersKnow(s: System, id: nat, db': Db, other: nat)
    requires id in s.txs && other in s.txs && other != id && TxInv(s, other) && HoldsLock(s.txs[other].at)
    requires db' == Mark(s.db, s.txs[id].key, s.txs[id].settled)
    requires db' != s.db ==> HoldsLock(s.txs[id].at) && TxInv(s, id)
    ensures Knows(db', s.txs[other])
  {
    hide Mark, Knows, SameRows;
    var tx := s.txs[other];
    KnowsRow(s.db, tx);
    if db' != s.db {
      KnowsRow(s.db, s.txs[id]);
      assert tx.at.hash != s.txs[id].at.hash;
      MarkRows(s.db, s.txs[id].key, s.txs[id].settled, tx.at.hash);
      KnowledgeFramed(s.db, db', tx);
    }
  }

  lemma FinishKeepsReaders(s: System, id: nat, db': Db, outcome: MarkResult)
    requires id in s.txs && TxInv(s, id) && ReadersInv(s.readers, s.db, s.locks)
    requires db' == Mark(s.db, s.txs[id].key, s.txs[id].settled)
    requires db' != s.db ==> HoldsLock(s.txs[id].at)
    ensures ReadersInv(s.readers, db', Release(s.locks, id))
  {
    hide Mark, ReadersInv;
    if db' == s.db {
      SameRowsRefl(s.db);
    } else {
      forall h | h in s.db.invoices && h !in s.locks ensures SameRows(s.db, db', h) {
        MarkRows(s.db, s.txs[id].key, s.txs[id].settled, h);
      }
    }
    ReadersFramed(s.readers, s.db, s.locks, db', Release(s.locks, id));
  }

  lemma FinishKeepsInv(init: Db, s: System, id: nat, db': Db, outcome: MarkResult)
    requires SystemInv(init, s) && id in s.txs && !s.txs[id].at.Ended?
    requires MarkHtlcFinal(s.db, s.txs[id].key, s.txs[id].settled) == (db', outcome)
    requires db' != s.db ==> HoldsLock(s.txs[id].at)
    ensures SystemInv(init, Finish(s, id, db', outcome))
  {
    hide DbInv, MarkHtlcFinal, Knows, ReadersInv, Serial, SerialOutcomes;
    var tx := s.txs[id];
    var s' := Finish(s, id, db', outcome);
    MarkKeepsInv(s.db, tx.key, tx.settled);
    MarkFrame(s.db, tx.key, tx.settled);
    FinishKeepsReaders(s, id, db', outcome);
    SerialExtend(init, s.history, MarkOp(id, tx.key, tx.settled, outcome));
    forall other | other in s'.txs ensures TxInv(s', other) {
      if other != id {
        FinishKeepsOthers(s, id, db', outcome, other);
      }
    }
  }

  /** A statement that neither ends the transaction nor touches the committed rows. */
  lemma MoveKeepsInv(init: Db, s: System, id: nat, s': System)
    requires SystemInv(init, s) && id in s.txs
    requires s' == s.(txs := s'.txs, locks := s'.locks)
    requires s'.txs.Keys == s.txs.Keys && TxInv(s', id)
    requires forall other :: other in s.txs && other != id ==> s'.txs[other] == s.txs[other]
    requires forall h :: h in s.locks && s.locks[h] != id ==> h in s'.locks && s'.locks[h] == s.locks[h]
    requires forall h :: h in s'.locks ==> h in s.locks || !Shared(s.readers, h)
    ensures SystemInv(init, s')
  {
    forall other | other in s'.txs ensures TxInv(s', other) {
      if other != id {
        assert TxInv(s, other);
      }
    }
  }

  /** A transaction may execute its next statement. */
  ghost predicate Running(init: Db, s: System, id: nat) {
    SystemInv(init, s) && id in s.txs && TxInv(s, id)
  }

  lemma SelectKeepsInv(init: Db, s: System, id: nat)
    requires Running(init, s, id) && (s.txs[id].at.Begun? || s.txs[id].at.Located?)
    ensures SystemInv(init, Execute(s, id))
  {
    hide DbInv, Serial, SerialOutcomes, ReadersInv, PendingOf;
    var tx := s.txs[id];
    if tx.at.Begun? {
      LocateKeepsInv(init, s, id);
    } else {
      InvoiceOfRow(s.db, tx.key);
      if tx.at.hash !in s.locks && !Shared(s.readers, tx.at.hash) {
        MoveKeepsInv(init, s, id, Execute(s, id));
      }
    }
  }

  lemma InvoiceOfRow(db: Db, k: HtlcKey)
    requires DbInv(db) && k in db.htlcs
    ensures db.htlcs[k].hash in db.invoices
  {
  }

  lemma LocateKeepsInv(init: Db, s: System, id: nat)
    requires Running(init, s, id) && s.txs[id].at.Begun?
    ensures SystemInv(init, Execute(s, id))
  {
    hide DbInv, Serial, SerialOutcomes, ReadersInv, PendingOf, Knows;
    if s.txs[id].key !in s.db.htlcs {
      FinishKeepsInv(init, s, id, s.db, MarkFailed(HtlcNotFound));
    } else {
      MoveKeepsInv(init, s, id, Execute(s, id));
    }
  }

  lemma UpdateHtlcKeepsInv(init: Db, s: System, id: nat)
    requires Running(init, s, id) && s.txs[id].at.Selected?
    ensures SystemInv(init, Execute(s, id))
  {
    hide DbInv, SerialOutcomes, Serial;
    var tx := s.txs[id];
    if tx.at.seen == Settled {
      FinishKeepsInv(init, s, id, s.db, MarkFailed(InvoiceAlreadySettled));
    } else if s.db.htlcs[tx.key].status != SettleRequested {
      FinishKeepsInv(init, s, id, s.db, MarkFailed(HtlcAlreadyFinal));
    } else {
      MoveKeepsInv(init, s, id, Execute(s, id));
    }
  }

  lemma CountKnows(s: System, id: nat)
    requires id in s.txs && TxInv(s, id) && s.txs[id].at.HtlcUpdated?
    ensures TxInv(Execute(s, id), id)
  {
    PendingAfterUpdate(s.db, s.txs[id].key, s.txs[id].settled, s.txs[id].at.hash);
  }

  lemma CountKeepsInv(init: Db, s: System, id: nat)
    requires Running(init, s, id) && s.txs[id].at.HtlcUpdated?
    ensures SystemInv(init, Execute(s, id))
  {
    hide DbInv, SerialOutcomes, Serial;
    CountKnows(s, id);
    hide Knows;
    MoveKeepsInv(init, s, id, Execute(s, id));
  }

  lemma UpdateInvoiceKeepsInv(init: Db, s: System, id: nat)
    requires Running(init, s, id) && s.txs[id].at.Finalizing?
    ensures SystemInv(init, Execute(s, id))
  {
    assert TxInv(Execute(s, id), id);
    MoveKeepsInv(init, s, id, Execute(s, id));
  }

  lemma CommitKeepsInv(init: Db, s: System, id: nat)
    requires Running(init, s, id) && s.txs[id].at.Ready?
    ensures SystemInv(init, Execute(s, id))
  {
    var tx := s.txs[id];
    ReadyIsAtomic(s.db, tx);
    FinishKeepsInv(init, s, id, Overlay(s.db, tx, tx.at.hash), Marked(tx.at.result));
  }

  lemma ExecuteKeepsInv(init: Db, s: System, id: nat)
    requires Running(init, s, id)
    requires !s.txs[id].at.Ended? && !s.txs[id].at.Disconnected?
    ensures SystemInv(init, Execute(s, id))
  {
    match s.txs[id].at
    case Begun => SelectKeepsInv(init, s, id);
    case Located(_) => SelectKeepsInv(init, s, id);
    case Selected(_, _) => UpdateHtlcKeepsInv(init, s, id);
    case HtlcUpdated(_, _) => CountKeepsInv(init, s, id);
    case Finalizing(_) => UpdateInvoiceKeepsInv(init, s, id);
    case Ready(_, _) => CommitKeepsInv(init, s, id);
  }

  lemma InsertKeepsInv(init: Db, s: System, preimage: Preimage, value: int, htlcs: map<HtlcKey, int>)
    requires SystemInv(init, s) && htlcs != map[] && RowsAdmitted(s.db, preimage, value, htlcs)
    ensures SystemInv(init, s.(db := Inserted(s.db, preimage, value, htlcs),
                               history := s.history + [InsertOp(preimage, value, htlcs)]))
  {
    var db' := Inserted(s.db, preimage, value, htlcs);
    var s' := s.(db := db', history := s.history + [InsertOp(preimage, value, htlcs)]);
    RequestSettleKeepsInv(s.db, preimage, value, htlcs);
    forall h | h in s.db.invoices ensures SameRows(s.db, db', h) {
      InsertedRows(s.db, preimage, value, htlcs, h);
    }
    ReadersFramed(s.readers, s.db, s.locks, db', s.locks);
    SerialExtend(init, s.history, InsertOp(preimage, value, htlcs));
    forall id | id in s'.txs ensures TxInv(s', id) {
      var tx := s.txs[id];
      assert TxInv(s, id);
      if HoldsLock(tx.at) {
        InsertedRows(s.db, preimage, value, htlcs, tx.at.hash);
        KnowledgeFramed(s.db, db', tx);
      }
    }
  }

  /** Only the readers and the history change, and TxInv speaks of neither. */
  lemma SameTransactions(s: System, s': System)
    requires s'.db == s.db && s'.locks == s.locks && s'.txs == s.txs
    requires forall id :: id in s.txs ==> TxInv(s, id)
    ensures forall id :: id in s'.txs ==> TxInv(s', id)
  {
    forall id | id in s'.txs ensures TxInv(s', id) {
      assert TxInv(s, id);
    }
  }

  lemma ReadKeepsInv(init: Db, s: System, id: nat)
    requires SystemInv(init, s) && id in s.readers
    ensures SystemInv(init, ExecuteRead(s, id))
  {
    hide DbInv, Serial, SerialOutcomes, TxInv;
    var r, s' := s.readers[id], ExecuteRead(s, id);
    SameTransactions(s, s');
    assert ReaderInv(r, s.db, s.locks);
    if r.at.HtlcsRead? {
      SerialExtend(init, s.history, ReadOp(id, r.hash, Found(r.at.row, r.at.htlcs)));
    } else if r.at.ReadBegun? && r.hash !in s.db.invoices && r.hash !in s.locks {
      SerialExtend(init, s.history, ReadOp(id, r.hash, NotFound));
    }
  }

  lemma StepKeepsInv(init: Db, s: System, a: Action)
    requires SystemInv(init, s)
    ensures SystemInv(init, Step(s, a))
  {
    hide DbInv, Serial, SerialOutcomes, Knows;
    var s' := Step(s, a);
    match a
    case Begin(id, key, settled) =>
      forall other | other in s'.txs ensures TxInv(s', other) {
        if other in s.txs {
          assert TxInv(s, other);
        }
      }
    case Statement(id) =>
      if id in s.txs && !s.txs[id].at.Ended? && !s.txs[id].at.Disconnected? {
        assert TxInv(s, id);
        ExecuteKeepsInv(init, s, id);
      }
    case Disconnect(id) =>
      if id in s.txs && !s.txs[id].at.Ended? {
        assert TxInv(s, id);
        MoveKeepsInv(init, s, id, s');
      }
    case Insert(preimage, value, htlcs) =>
      if htlcs != map[] && RowsAdmitted(s.db, preimage, value, htlcs) {
        InsertKeepsInv(init, s, preimage, value, htlcs);
      }
    case BeginRead(id, hash) => SameTransactions(s, s');
    case ReadStatement(id) =>
      if id in s.readers {
        ReadKeepsInv(init, s, id);
      }
    case AbortRead(id) => SameTransactions(s, s');
  }

  // ----- Runs -----

  function Start(locking: bool, db: Db): System {
    System(locking, db, map[], map[], map[], [])
  }

  /** The system after a list of actions. */
  ghost function After(s: System, actions: seq<Action>): System {
    if actions == [] then s else Step(After(s, actions[..|actions| - 1]), actions[|actions| - 1])
  }

  lemma {:induction false} RunKeepsInv(init: Db, actions: seq<Action>)
    requires DbInv(init)
    ensures SystemInv(init, After(Start(true, init), actions))
  {
    if actions != [] {
      RunKeepsInv(init, actions[..|actions| - 1]);
      StepKeepsInv(init, After(Start(true, init), actions[..|actions| - 1]), actions[|actions| - 1]);
    }
  }

  // ----- What the transactions return -----

  /** The transaction has ended, and this is the record of what it was asked and what it returned. */
  predicate IsRecordOf(op: Op, id: nat, tx: Tx) {
    tx.at.Ended? && op == MarkOp(id, tx.key, tx.settled, tx.at.outcome)
  }

  /** The history has exactly one record of every transaction that has ended, and none of others. */
  ghost predicate OutcomesRecorded(txs: map<nat, Tx>, history: seq<Op>) {
    && (forall p :: 0 <= p < |history| && history[p].MarkOp? ==>
          history[p].id in txs && IsRecordOf(history[p], history[p].id, txs[history[p].id]))
    && (forall id :: id in txs && txs[id].at.Ended? ==>
      exists p :: 0 <= p < |history| && IsRecordOf(history[p], id, txs[id]))
    && (forall p, q :: 0 <= p < q < |history| && history[p].MarkOp? && history[q].MarkOp? ==>
      history[p].id != history[q].id)
  }

  lemma EndIsRecorded(txs: map<nat, Tx>, history: seq<Op>, id: nat, outcome: MarkResult)
    requires OutcomesRecorded(txs, history) && id in txs && !txs[id].at.Ended?
    ensures OutcomesRecorded(txs[id := txs[id].(at := Ended(outcome))],
                             history + [MarkOp(id, txs[id].key, txs[id].settled, outcome)])
  {
    var txs' := txs[id := txs[id].(at := Ended(outcome))];
    var history' := history + [MarkOp(id, txs[id].key, txs[id].settled, outcome)];
    forall other | other in txs' && txs'[other].at.Ended?
      ensures exists p :: 0 <= p < |history'| && IsRecordOf(history'[p], other, txs'[other])
    {
      if other == id {
        assert IsRecordOf(history'[|history|], id, txs'[id]);
      } else {
        var p :| 0 <= p < |history| && IsRecordOf(history[p], other, txs[other]);
        assert history'[p] == history[p];
      }
    }
  }

  lemma MoveIsNotRecorded(txs: map<nat, Tx>, history: seq<Op>, id: nat, tx: Tx)
    requires OutcomesRecorded(txs, history) && (id in txs ==> !txs[id].at.Ended?) && !tx.at.Ended?
    ensures OutcomesRecorded(txs[id := tx], history)
  {
    var txs' := txs[id := tx];
    forall other | other in txs' && txs'[other].at.Ended?
      ensures exists p :: 0 <= p < |history| && IsRecordOf(history[p], other, txs'[other])
    {
      var p :| 0 <= p < |history| && IsRecordOf(history[p], other, txs[other]);
    }
  }

  lemma OtherIsNotRecorded(txs: map<nat, Tx>, history: seq<Op>, op: Op)
    requires OutcomesRecorded(txs, history) && !op.MarkOp?
    ensures OutcomesRecorded(txs, history + [op])
  {
    var history' := history + [op];
    forall id | id in txs && txs[id].at.Ended?
      ensures exists p :: 0 <= p < |history'| && IsRecordOf(history'[p], id, txs[id])
    {
      var p :| 0 <= p < |history| && IsRecordOf(history[p], id, txs[id]);
      assert history'[p] == history[p];
    }
  }

  /** A statement that ends the transaction records what it returns; any other records nothing. */
  ghost predicate Records(s: System, id: nat, s': System)
    requires id in s.txs
  {
    && id in s'.txs && s'.txs == s.txs[id := s'.txs[id]] && s'.readers == s.readers
    && (if s'.txs[id].at.Ended?
        then s'.txs[id] == s.txs[id].(at := s'.txs[id].at)
             && s'.history == s.history + [MarkOp(id, s.txs[id].key, s.txs[id].settled, s'.txs[id].at.outcome)]
        else s'.history == s.history)
  }

  lemma FinishRecords(s: System, id: nat)
    requires id in s.txs
    ensures forall db, outcome :: Records(s, id, Finish(s, id, db, outcome))
  {
    hide Release;
  }

  lemma MoveRecords(s: System, id: nat)
    requires id in s.txs && !s.txs[id].at.Ended?
    ensures Records(s, id, s)
    ensures forall tx: Tx, locks :: !tx.at.Ended? ==> Records(s, id, Move(s, id, tx).(locks := locks))
    ensures forall tx: Tx :: !tx.at.Ended? ==> Records(s, id, Move(s, id, tx))
  {
    assert s.txs[id := s.txs[id]] == s.txs;
  }

  predicate IsEarly(at: Progress) {
    at.Begun? || at.Located? || at.Disconnected?
  }

  lemma EarlyEffect(s: System, id: nat)
    requires id in s.txs && IsEarly(s.txs[id].at)
    ensures Records(s, id, Execute(s, id))
  {
    FinishRecords(s, id);
    MoveRecords(s, id);
    hide Records, Move, Finish, Shared;
  }

  lemma LateEffect(s: System, id: nat)
    requires id in s.txs && !s.txs[id].at.Ended? && !IsEarly(s.txs[id].at)
    ensures Records(s, id, Execute(s, id))
  {
    FinishRecords(s, id);
    MoveRecords(s, id);
    hide Overlay, PendingOf, Records, Move, Finish;
  }

  lemma ExecuteEffect(s: System, id: nat)
    requires id in s.txs && !s.txs[id].at.Ended?
    ensures Records(s, id, Execute(s, id))
  {
    hide Execute, Records;
    if IsEarly(s.txs[id].at) {
      EarlyEffect(s, id);
    } else {
      LateEffect(s, id);
    }
  }

  lemma ExecuteRecords(s: System, id: nat)
    requires id in s.txs && !s.txs[id].at.Ended? && OutcomesRecorded(s.txs, s.history)
    ensures OutcomesRecorded(Execute(s, id).txs, Execute(s, id).history)
  {
    hide OutcomesRecorded, Execute;
    ExecuteEffect(s, id);
    var s' := Execute(s, id);
    if s'.txs[id].at.Ended? {
      EndIsRecorded(s.txs, s.history, id, s'.txs[id].at.outcome);
    } else {
      MoveIsNotRecorded(s.txs, s.history, id, s'.txs[id]);
    }
  }

  lemma StepRecords(s: System, a: Action)
    requires OutcomesRecorded(s.txs, s.history)
    ensures OutcomesRecorded(Step(s, a).txs, Step(s, a).history)
  {
    hide OutcomesRecorded, Execute, Inserted;
    var s' := Step(s, a);
    match a
    case Begin(id, key, settled) =>
      if id !in s.txs {
        MoveIsNotRecorded(s.txs, s.history, id, s'.txs[id]);
      }
    case Statement(id) =>
      if id in s.txs && !s.txs[id].at.Ended? && !s.txs[id].at.Disconnected? {
        ExecuteRecords(s, id);
      }
    case Disconnect(id) =>
      if id in s.txs && !s.txs[id].at.Ended? {
        MoveIsNotRecorded(s.txs, s.history, id, s'.txs[id]);
      }
    case Insert(preimage, value, htlcs) =>
      OtherIsNotRecorded(s.txs, s.history, InsertOp(preimage, value, htlcs));
    case ReadStatement(id) =>
      if id in s.readers && s'.history != s.history {
        OtherIsNotRecorded(s.txs, s.history, s'.history[|s.history|]);
      }
    case _ =>
  }

  lemma {:induction false} RunRecords(s: System, actions: seq<Action>)
    requires OutcomesRecorded(s.txs, s.history)
    ensures OutcomesRecorded(After(s, actions).txs, After(s, actions).history)
  {
    hide OutcomesRecorded, Step;
    if actions != [] {
      RunRecords(s, actions[..|actions| - 1]);
      StepRecords(After(s, actions[..|actions| - 1]), actions[|actions| - 1]);
    }
  }

  /** Every interleaving is serializable, in the order in which the transactions end: the
      committed tables, and what every transaction returned to its caller, are those of the serial
      execution. */
  lemma InterleavingsAreSerializable(init: Db, actions: seq<Action>)
    requires DbInv(init)
    ensures var s := After(Start(true, init), actions);
            s.db == Serial(init, s.history) && SerialOutcomes(init, s.history) && OutcomesRecorded(s.txs, s.history)
  {
    hide After;
    RunKeepsInv(init, actions);
    RunRecords(Start(true, init), actions);
  }

  // ----- What reads and transactions cannot return -----

  /** Every Get that has ended is recorded with its result. */
  ghost predicate ReadsRecorded(readers: map<nat, Reader>, history: seq<Op>) {
    forall id :: id in readers && readers[id].at.ReadEnded? ==>
      ReadOp(id, readers[id].hash, readers[id].at.result) in history
  }

  /** Nothing happens to the readers and to the history, except that records may be added. */
  lemma HistoryGrows(s: System, a: Action)
    requires !a.BeginRead? && !a.ReadStatement? && !a.AbortRead?
    ensures Step(s, a).readers == s.readers && s.history <= Step(s, a).history
  {
    hide Execute, Inserted;
    if a.Statement? && a.id in s.txs && !s.txs[a.id].at.Ended? {
      ExecuteEffect(s, a.id);
    }
  }

  lemma StepRecordsReads(s: System, a: Action)
    requires ReadsRecorded(s.readers, s.history)
    ensures ReadsRecorded(Step(s, a).readers, Step(s, a).history)
  {
    if a.ReadStatement? {
      hide ReadsRecorded, ExecuteRead;
      if a.id in s.readers {
        ExecuteReadRecords(s, a.id);
      }
    } else if a.BeginRead? || a.AbortRead? {
      hide Execute, ExecuteRead;
    } else {
      hide Step;
      HistoryGrows(s, a);
    }
  }

  lemma ReadMoves(s: System, id: nat, at: ReadProgress)
    requires ReadsRecorded(s.readers, s.history) && id in s.readers && !at.ReadEnded?
    ensures ReadsRecorded(MoveRead(s, id, at).readers, s.history)
  {
  }

  lemma ReadEnds(s: System, id: nat, result: GetResult)
    requires ReadsRecorded(s.readers, s.history) && id in s.readers
    ensures ReadsRecorded(FinishRead(s, id, result).readers, FinishRead(s, id, result).history)
  {
    var s' := FinishRead(s, id, result);
    assert s'.history[|s.history|] == ReadOp(id, s.readers[id].hash, result);
  }

  lemma ExecuteReadRecords(s: System, id: nat)
    requires ReadsRecorded(s.readers, s.history) && id in s.readers
    ensures ReadsRecorded(ExecuteRead(s, id).readers, ExecuteRead(s, id).history)
  {
    hide ReadsRecorded, HtlcsOf;
    var r := s.readers[id];
    match r.at
    case ReadBegun =>
      ReadEnds(s, id, NotFound);
      if r.hash in s.db.invoices {
        ReadMoves(s, id, InvoiceRead(s.db.invoices[r.hash]));
      }
    case InvoiceRead(row) => ReadMoves(s, id, HtlcsRead(row, HtlcsOf(s.db, r.hash)));
    case HtlcsRead(row, htlcs) => ReadEnds(s, id, Found(row, htlcs));
    case _ =>
  }

  lemma {:induction false} RunRecordsReads(s: System, actions: seq<Action>)
    requires ReadsRecorded(s.readers, s.history)
    ensures ReadsRecorded(After(s, actions).readers, After(s, actions).history)
  {
    hide ReadsRecorded, Step;
    if actions != [] {
      RunRecordsReads(s, actions[..|actions| - 1]);
      StepRecordsReads(After(s, actions[..|actions| - 1]), actions[|actions| - 1]);
    }
  }

  /** Every operation of a serial history has its outcome at its place, on consistent tables. */
  lemma {:induction false} SerialPlace(init: Db, ops: seq<Op>, n: nat)
    requires DbInv(init) && SerialOutcomes(init, ops) && n < |ops|
    ensures DbInv(Serial(init, ops[..n])) && HasOutcome(Serial(init, ops[..n]), ops[n])
    decreases |ops|
  {
    hide DbInv;
    if n < |ops| - 1 {
      SerialPlace(init, ops[..|ops| - 1], n);
      assert ops[..|ops| - 1][..n] == ops[..n];
    } else {
      SerialConsistent(init, ops[..n]);
    }
  }

  lemma {:induction false} SerialConsistent(init: Db, ops: seq<Op>)
    requires DbInv(init) && SerialOutcomes(init, ops)
    ensures DbInv(Serial(init, ops))
  {
    hide DbInv, Mark, Inserted, RowsAdmitted;
    if ops != [] {
      var before, last := Serial(init, ops[..|ops| - 1]), ops[|ops| - 1];
      SerialConsistent(init, ops[..|ops| - 1]);
      match last
      case MarkOp(_, key, settled, _) => MarkKeepsInv(before, key, settled);
      case InsertOp(preimage, value, htlcs) => RequestSettleKeepsInv(before, preimage, value, htlcs);
      case ReadOp(_, _, _) =>
    }
  }

  /** A Get with its two statements returns the invoice and the htlcs of one and the same consistent
      state of the tables, in the serial order of all transactions. */
  lemma ReadsAreConsistent(init: Db, actions: seq<Action>, id: nat)
    requires DbInv(init)
    requires id in After(Start(true, init), actions).readers
    requires After(Start(true, init), actions).readers[id].at.ReadEnded?
    ensures var s := After(Start(true, init), actions);
            exists n :: 0 <= n <= |s.history| && DbInv(Serial(init, s.history[..n])) &&
              s.readers[id].at.result == Lookup(Serial(init, s.history[..n]), s.readers[id].hash)
  {
    hide After, DbInv, Serial;
    var s := After(Start(true, init), actions);
    InterleavingsAreSerializable(init, actions);
    RunRecordsReads(Start(true, init), actions);
    var n :| 0 <= n < |s.history| && s.history[n] == ReadOp(id, s.readers[id].hash, s.readers[id].at.result);
    SerialPlace(init, s.history, n);
  }

  /** No transaction ends with an internal inconsistency, whatever the others do meanwhile. */
  lemma NoInconsistencyReported(init: Db, actions: seq<Action>, id: nat)
    requires DbInv(init) && id in After(Start(true, init), actions).txs
    ensures var tx := After(Start(true, init), actions).txs[id];
            tx.at.Ended? ==>
              tx.at.outcome != MarkFailed(FinalizationFailed) && tx.at.outcome != MarkFailed(InvoiceNotFound)
  {
    hide After, DbInv, Serial, MarkHtlcFinal;
    var s := After(Start(true, init), actions);
    InterleavingsAreSerializable(init, actions);
    if s.txs[id].at.Ended? {
      var n :| 0 <= n < |s.history| && IsRecordOf(s.history[n], id, s.txs[id]);
      SerialPlace(init, s.history, n);
      MarkKeepsInv(Serial(init, s.history[..n]), s.txs[id].key, s.txs[id].settled);
    }
  }

  /** No final invoice status is ever missed: it is never the case that all htlcs of an invoice
      are committed as settled while the invoice is not, whatever transactions are still open. */
  lemma NoMissedFinalStatus(init: Db, actions: seq<Action>, h: Hash)
    requires DbInv(init) && h in After(Start(true, init), actions).db.invoices
    ensures var db := After(Start(true, init), actions).db;
            && (db.invoices[h].status == Settled
                <==> forall k :: k in KeysOf(db, h) ==> db.htlcs[k].status == Settled)
            && (db.invoices[h].status == Failed
                <==> exists k :: k in KeysOf(db, h) && db.htlcs[k].status == Failed)
  {
    RunKeepsInv(init, actions);
    StatusIsDerived(After(Start(true, init), actions).db, h);
  }

  /** How many transactions of a history returned the hash of an invoice. */
  function TimesReturned(ops: seq<Op>, h: Hash): nat {
    if ops == [] then 0
    else
      var last := ops[|ops| - 1];
      TimesReturned(ops[..|ops| - 1], h) + if last.MarkOp? && last.outcome == Marked(Some(h)) then 1 else 0
  }

  lemma {:induction false} SerialReturnsOnce(init: Db, ops: seq<Op>, h: Hash)
    requires h !in init.invoices && SerialOutcomes(init, ops)
    ensures TimesReturned(ops, h) ==
            if h in Serial(init, ops).invoices && Serial(init, ops).invoices[h].status.IsFinal() then 1 else 0
  {
    if ops != [] {
      var before, last := Serial(init, ops[..|ops| - 1]), ops[|ops| - 1];
      SerialReturnsOnce(init, ops[..|ops| - 1], h);
      if last.MarkOp? && h in before.invoices {
        MarkReturnsOnFinal(before, last.key, last.settled, h);
      }
    }
  }

  /** The transactions that returned the hash of an invoice. */
  function Returning(txs: map<nat, Tx>, h: Hash): set<nat> {
    set id | id in txs && txs[id].at == Ended(Marked(Some(h)))
  }

  function RecordedReturning(ops: seq<Op>, h: Hash): (ids: set<nat>)
    ensures forall id :: id in ids <==> exists p :: 0 <= p < |ops| && IsReturn(ops[p], id, h)
  {
    set p | 0 <= p < |ops| && ops[p].MarkOp? && IsReturn(ops[p], ops[p].id, h) :: ops[p].id
  }

  predicate IsReturn(op: Op, id: nat, h: Hash) {
    op.MarkOp? && op.id == id && op.outcome == Marked(Some(h))
  }

  /** Counting records is counting transactions, because no transaction has two records. */
  lemma {:induction false} CountReturning(ops: seq<Op>, h: Hash)
    requires forall p, q :: 0 <= p < q < |ops| && ops[p].MarkOp? && ops[q].MarkOp? ==> ops[p].id != ops[q].id
    ensures |RecordedReturning(ops, h)| == TimesReturned(ops, h)
  {
    hide RecordedReturning;
    if ops != [] {
      var n := |ops| - 1;
      var before, last := ops[..n], ops[n];
      CountReturning(before, h);
      if last.MarkOp? && last.outcome == Marked(Some(h)) {
        assert IsReturn(ops[n], last.id, h);
        assert last.id !in RecordedReturning(before, h);
        OneMoreReturns(ops, h, {last.id});
      } else {
        OneMoreReturns(ops, h, {});
      }
    }
  }

  lemma OneMoreReturns(ops: seq<Op>, h: Hash, more: set<nat>)
    requires ops != []
    requires var last := ops[|ops| - 1];
             more == (if last.MarkOp? && IsReturn(last, last.id, h) then {last.id} else {})
    ensures RecordedReturning(ops, h) == RecordedReturning(ops[..|ops| - 1], h) + more
  {
    var n := |ops| - 1;
    forall id ensures id in RecordedReturning(ops, h) <==> id in RecordedReturning(ops[..n], h) + more {
      if id in RecordedReturning(ops, h) {
        var p :| 0 <= p < |ops| && IsReturn(ops[p], id, h);
        assert p < n ==> ops[..n][p] == ops[p];
      }
      if id in RecordedReturning(ops[..n], h) {
        var p :| 0 <= p < n && IsReturn(ops[..n][p], id, h);
        assert IsReturn(ops[p], id, h);
      }
      if id in more {
        assert IsReturn(ops[n], id, h);
      }
    }
  }

  lemma ReturningIsRecorded(txs: map<nat, Tx>, history: seq<Op>, h: Hash)
    requires OutcomesRecorded(txs, history)
    ensures Returning(txs, h) == RecordedReturning(history, h)
  {
    forall id ensures id in Returning(txs, h) <==> id in RecordedReturning(history, h) {
      if id in Returning(txs, h) {
        var p :| 0 <= p < |history| && IsRecordOf(history[p], id, txs[id]);
        assert IsReturn(history[p], id, h);
      }
      if id in RecordedReturning(history, h) {
        var p :| 0 <= p < |history| && IsReturn(history[p], id, h);
        assert IsRecordOf(history[p], id, txs[id]);
      }
    }
  }

  /** Exactly one of all concurrent transactions returns the hash of an invoice that is final,
      and none returns the hash of one that is not. */
  lemma FinalHashReturnedOnce(init: Db, actions: seq<Action>, h: Hash)
    requires DbInv(init) && h !in init.invoices
    ensures var s := After(Start(true, init), actions);
            |Returning(s.txs, h)| == if h in s.db.invoices && s.db.invoices[h].status.IsFinal() then 1 else 0
  {
    hide After, DbInv, TimesReturned, RecordedReturning;
    var s := After(Start(true, init), actions);
    InterleavingsAreSerializable(init, actions);
    SerialReturnsOnce(init, s.history, h);
    CountReturning(s.history, h);
    ReturningIsRecorded(s.txs, s.history, h);
  }

  // ----- Why the row lock is needed -----

  /** Two htlcs of one invoice, both awaiting their outcome. */
  function TwoPending(preimage: Preimage, k0: HtlcKey, k1: HtlcKey): Db {
    var h := Sha256(preimage);
    Db(map[h := InvoiceRow(preimage, 2, SettleRequested)],
       map[k0 := HtlcRow(h, 1, SettleRequested), k1 := HtlcRow(h, 1, SettleRequested)])
  }

  /** All statements of one transaction, up to but not including its commit. */
  function Statements(id: nat): seq<Action> {
    [Statement(id), Statement(id), Statement(id), Statement(id)]
  }

  lemma {:induction false} AfterConcat(s: System, a: seq<Action>, b: seq<Action>)
    ensures After(s, a + b) == After(After(s, a), b)
  {
    hide Step;
    if b == [] {
      assert a + b == a;
    } else {
      AfterConcat(s, a, b[..|b| - 1]);
      assert (a + b)[..|a + b| - 1] == a + b[..|b| - 1];
    }
  }

  lemma AfterFour(s: System, a: Action)
    ensures After(s, [a, a, a, a]) == Step(Step(Step(Step(s, a), a), a), a)
  {
    hide Step;
    assert After(s, []) == s;
    assert [a][..0] == [] && [a, a][..1] == [a] && [a, a, a][..2] == [a, a] && [a, a, a, a][..3] == [a, a, a];
    assert After(s, [a]) == Step(s, a);
    assert After(s, [a, a]) == Step(Step(s, a), a);
  }

  /** The transaction of an htlc that is settled, as far as `at`. */
  function Settling(s: System, id: nat, k: HtlcKey, at: Progress, written: bool): System {
    Move(s, id, Tx(k, true, at, written, false))
  }

  lemma UnlockedSelects(s: System, id: nat)
    requires !s.locking && s.locks == map[] && id in s.txs && s.txs[id] == Tx(s.txs[id].key, true, Begun, false, false)
    requires s.txs[id].key in s.db.htlcs && s.db.htlcs[s.txs[id].key].hash in s.db.invoices
    requires s.db.invoices[s.db.htlcs[s.txs[id].key].hash].status == SettleRequested
    ensures var k, a := s.txs[id].key, Statement(id);
            Step(Step(s, a), a) == Settling(s, id, k, Selected(s.db.htlcs[k].hash, SettleRequested), false)
  {
    hide Overlay, PendingOf, Shared, Release;
    var k, a := s.txs[id].key, Statement(id);
    assert Step(s, a) == Settling(s, id, k, Located(s.db.htlcs[k].hash), false);
  }

  lemma UnlockedUpdates(s: System, id: nat, k: HtlcKey, h: Hash)
    requires k in s.db.htlcs && s.db.htlcs[k].status == SettleRequested
    ensures Step(Settling(s, id, k, Selected(h, SettleRequested), false), Statement(id))
            == Settling(s, id, k, HtlcUpdated(h, SettleRequested), true)
  {
    hide Overlay, PendingOf, Shared, Release;
  }

  lemma UnlockedCounts(s: System, id: nat, k: HtlcKey, h: Hash, other: HtlcKey)
    requires k in s.db.htlcs && other != k && other in PendingOf(s.db, h)
    ensures Step(Settling(s, id, k, HtlcUpdated(h, SettleRequested), true), Statement(id))
            == Settling(s, id, k, Ready(h, None), true)
  {
    hide Shared, Release;
    var s3 := Settling(s, id, k, HtlcUpdated(h, SettleRequested), true);
    assert other in PendingOf(Overlay(s3.db, s3.txs[id], h), h);
  }

  /** Without the lock, a transaction that settles one of two pending htlcs decides not to settle
      the invoice, whatever other transactions are under way. */
  lemma UnlockedTxSeesPending(s: System, id: nat, other: HtlcKey)
    requires !s.locking && s.locks == map[] && id in s.txs
    requires s.txs[id] == Tx(s.txs[id].key, true, Begun, false, false)
    requires s.txs[id].key in s.db.htlcs && s.db.htlcs[s.txs[id].key].hash in s.db.invoices
    requires s.db.invoices[s.db.htlcs[s.txs[id].key].hash].status == SettleRequested
    requires s.db.htlcs[s.txs[id].key].status == SettleRequested
    requires other != s.txs[id].key && other in PendingOf(s.db, s.db.htlcs[s.txs[id].key].hash)
    ensures After(s, Statements(id)) ==
            Move(s, id, Tx(s.txs[id].key, true, Ready(s.db.htlcs[s.txs[id].key].hash, None), true, false))
  {
    hide Step;
    var a, k := Statement(id), s.txs[id].key;
    var h := s.db.htlcs[k].hash;
    UnlockedSelects(s, id);
    UnlockedUpdates(s, id, k, h);
    UnlockedCounts(s, id, k, h, other);
    AfterFour(s, a);
  }

  /** Two transactions that settle the two htlcs, both as far as `at`. */
  ghost function Racing(init: Db, k0: HtlcKey, at0: Progress, k1: HtlcKey, at1: Progress): System {
    System(false, init, map[], map[],
           map[0 := Tx(k0, true, at0, at0.Ready?, false), 1 := Tx(k1, true, at1, at1.Ready?, false)], [])
  }

  lemma RaceBegins(init: Db, k0: HtlcKey, k1: HtlcKey)
    ensures After(Start(false, init), [Begin(0, k0, true), Begin(1, k1, true)]) == Racing(init, k0, Begun, k1, Begun)
  {
    var begin := [Begin(0, k0, true), Begin(1, k1, true)];
    assert begin[..1] == [Begin(0, k0, true)];
    assert After(Start(false, init), []) == Start(false, init);
    assert After(Start(false, init), begin[..1]) == Step(Start(false, init), Begin(0, k0, true));
  }

  lemma RaceReady(preimage: Preimage, k0: HtlcKey, k1: HtlcKey)
    requires k0 != k1
    ensures var init, h := TwoPending(preimage, k0, k1), Sha256(preimage);
            After(Racing(init, k0, Begun, k1, Begun), Statements(0) + Statements(1))
            == Racing(init, k0, Ready(h, None), k1, Ready(h, None))
  {
    var init, h := TwoPending(preimage, k0, k1), Sha256(preimage);
    assert k0 in PendingOf(init, h) && k1 in PendingOf(init, h);
    var begun := Racing(init, k0, Begun, k1, Begun);
    var mid := Racing(init, k0, Ready(h, None), k1, Begun);
    UnlockedTxSeesPending(begun, 0, k1);
    assert Move(begun, 0, mid.txs[0]) == mid;
    UnlockedTxSeesPending(mid, 1, k0);
    AfterConcat(begun, Statements(0), Statements(1));
  }

  lemma RaceCommits(preimage: Preimage, k0: HtlcKey, k1: HtlcKey)
    requires k0 != k1
    ensures var h := Sha256(preimage);
            var s := After(Racing(TwoPending(preimage, k0, k1), k0, Ready(h, None), k1, Ready(h, None)),
                           [Statement(0), Statement(1)]);
            && s.txs.Keys == {0, 1} && s.txs[0].at.Ended? && s.txs[1].at.Ended?
            && s.db == Db(map[h := InvoiceRow(preimage, 2, SettleRequested)],
                          map[k0 := HtlcRow(h, 1, Settled), k1 := HtlcRow(h, 1, Settled)])
  {
    hide Step;
    var h := Sha256(preimage);
    var s := Racing(TwoPending(preimage, k0, k1), k0, Ready(h, None), k1, Ready(h, None));
    var commit := [Statement(0), Statement(1)];
    assert commit[..1] == [Statement(0)];
    assert After(s, []) == s;
    assert After(s, commit[..1]) == Step(s, Statement(0));
    UnlockedCommits(s, 0, k0, h);
    UnlockedCommits(Step(s, Statement(0)), 1, k1, h);
    assert SetHtlcStatus(SetHtlcStatus(s.db, k0, Settled), k1, Settled).htlcs
        == map[k0 := HtlcRow(h, 1, Settled), k1 := HtlcRow(h, 1, Settled)];
  }

  lemma UnlockedCommits(s: System, id: nat, k: HtlcKey, h: Hash)
    requires id in s.txs && s.txs[id] == Tx(k, true, Ready(h, None), true, false) && k in s.db.htlcs
    ensures Step(s, Statement(id)).db == SetHtlcStatus(s.db, k, Settled)
    ensures Step(s, Statement(id)).txs == s.txs[id := Tx(k, true, Ended(Marked(None)), true, false)]
  {
    hide PendingOf, Shared, Release;
  }

  /** Without the row lock, two concurrent transactions each see the other htlc as pending and
      both commit: all htlcs are settled, no transaction is open and the invoice never is. */
  lemma RowLockNeeded(preimage: Preimage, k0: HtlcKey, k1: HtlcKey) returns (actions: seq<Action>)
    requires k0 != k1
    ensures DbInv(TwoPending(preimage, k0, k1))
    ensures var s := After(Start(false, TwoPending(preimage, k0, k1)), actions);
            && (forall id :: id in s.txs ==> s.txs[id].at.Ended?)
            && Sha256(preimage) in s.db.invoices
            && s.db.invoices[Sha256(preimage)].status == SettleRequested
            && forall k :: k in KeysOf(s.db, Sha256(preimage)) ==> s.db.htlcs[k].status == Settled
  {
    hide Step, DbInv;
    TwoPendingInv(preimage, k0, k1);
    var s0 := Start(false, TwoPending(preimage, k0, k1));
    var begin := [Begin(0, k0, true), Begin(1, k1, true)];
    var race := Statements(0) + Statements(1);
    var commit := [Statement(0), Statement(1)];
    RaceBegins(TwoPending(preimage, k0, k1), k0, k1);
    RaceReady(preimage, k0, k1);
    RaceCommits(preimage, k0, k1);
    AfterConcat(s0, begin, race);
    AfterConcat(s0, begin + race, commit);
    actions := begin + race + commit;
  }

  lemma TwoPendingInv(preimage: Preimage, k0: HtlcKey, k1: HtlcKey)
    requires k0 != k1
    ensures DbInv(TwoPending(preimage, k0, k1))
  {
    var init, h := TwoPending(preimage, k0, k1), Sha256(preimage);
    assert k0 in PendingOf(init, h) && k0 in KeysOf(init, h);
    assert InvoiceInv(init, h);
  }
}
