/** The two database tables and the transactions of the persister, as functions on values.
    Row counts and constraints follow persistence/migrations. */
module Persistence {
  import opened Types

  datatype InvoiceRow = InvoiceRow(preimage: Preimage, amountMsat: int, status: Status)
  datatype HtlcRow = HtlcRow(hash: Hash, amountMsat: int, status: Status)
  datatype Db = Db(invoices: map<Hash, InvoiceRow>, htlcs: map<HtlcKey, HtlcRow>)

  const EMPTY_DB: Db := Db(map[], map[])

  /** The keys of the htlcs recorded for an invoice. */
  function KeysOf(db: Db, h: Hash): set<HtlcKey> {
    set k | k in db.htlcs && db.htlcs[k].hash == h
  }

  /** The keys that still await their final outcome. */
  function PendingOf(db: Db, h: Hash): set<HtlcKey> {
    set k | k in db.htlcs && db.htlcs[k].hash == h && db.htlcs[k].status == SettleRequested
  }

  /** The htlc map that Get returns for an invoice. */
  function HtlcsOf(db: Db, h: Hash): (m: map<HtlcKey, int>)
    ensures m.Keys == KeysOf(db, h)
  {
    map k | k in KeysOf(db, h) :: db.htlcs[k].amountMsat
  }

  // ----- RequestSettle -----

  /** The constraints of the two tables admit the new rows. */
  ghost predicate RowsAdmitted(db: Db, preimage: Preimage, value: int, htlcs: map<HtlcKey, int>) {
    && Sha256(preimage) !in db.invoices
    && (forall h :: h in db.invoices ==> db.invoices[h].preimage != preimage)
    && value > 0
    && (forall k :: k in htlcs ==> k !in db.htlcs && htlcs[k] > 0)
  }

  /** The tables after a committed RequestSettle. */
  ghost function Inserted(db: Db, preimage: Preimage, value: int, htlcs: map<HtlcKey, int>): Db {
    var h := Sha256(preimage);
    Db(db.invoices[h := InvoiceRow(preimage, value, SettleRequested)],
       db.htlcs + map k | k in htlcs :: HtlcRow(h, htlcs[k], SettleRequested))
  }

  /** The constraints that the two tables satisfy, besides their primary keys. */
  ghost predicate Constraints(db: Db) {
    && (forall h :: h in db.invoices ==> db.invoices[h].amountMsat > 0)
    && (forall h, h' :: h in db.invoices && h' in db.invoices && h != h' ==>
          db.invoices[h].preimage != db.invoices[h'].preimage)
    && (forall k :: k in db.htlcs ==> db.htlcs[k].amountMsat > 0)
  }

  /** The rows of a settle request are admitted exactly when none of their keys is taken and the tables
      satisfy the constraints with them. */
  lemma AdmittedIff(db: Db, preimage: Preimage, value: int, htlcs: map<HtlcKey, int>)
    requires Constraints(db)
    ensures RowsAdmitted(db, preimage, value, htlcs) <==>
            && Sha256(preimage) !in db.invoices && (forall k :: k in htlcs ==> k !in db.htlcs)
            && Constraints(Inserted(db, preimage, value, htlcs))
  {
    var h, db' := Sha256(preimage), Inserted(db, preimage, value, htlcs);
    assert h in db'.invoices && db'.invoices[h] == InvoiceRow(preimage, value, SettleRequested);
    if h !in db.invoices && (forall k :: k in htlcs ==> k !in db.htlcs) && Constraints(db') {
      forall h' | h' in db.invoices ensures db.invoices[h'].preimage != preimage {
        assert h' in db'.invoices && db'.invoices[h'] == db.invoices[h'];
      }
      forall k | k in htlcs ensures htlcs[k] > 0 {
        assert k in db'.htlcs && db'.htlcs[k] == HtlcRow(h, htlcs[k], SettleRequested);
      }
    }
  }

  // ----- MarkHtlcFinal -----

  datatype MarkError =
    | HtlcNotFound
    | InvoiceNotFound
    | InvoiceAlreadySettled
    | HtlcAlreadyFinal
    | FinalizationFailed
    | Unreachable // the transaction could not be executed

  /** Outcome of MarkHtlcFinal: the hash of an invoice that has just become final, if any. */
  datatype MarkResult = Marked(finalized: Option<Hash>) | MarkFailed(error: MarkError)

  function SetHtlcStatus(db: Db, k: HtlcKey, s: Status): Db
    requires k in db.htlcs
  {
    db.(htlcs := db.htlcs[k := db.htlcs[k].(status := s)])
  }

  function SetInvoiceStatus(db: Db, h: Hash, s: Status): Db
    requires h in db.invoices
  {
    db.(invoices := db.invoices[h := db.invoices[h].(status := s)])
  }

  /** MarkHtlcFinal as one atomic transaction. */
  function MarkHtlcFinal(db: Db, k: HtlcKey, settled: bool): (Db, MarkResult) {
    if k !in db.htlcs then (db, MarkFailed(HtlcNotFound)) else
    var h := db.htlcs[k].hash;
    if h !in db.invoices then (db, MarkFailed(InvoiceNotFound)) else
    var status := db.invoices[h].status;
    if status == Settled then (db, MarkFailed(InvoiceAlreadySettled)) else
    if db.htlcs[k].status != SettleRequested then (db, MarkFailed(HtlcAlreadyFinal)) else
    var db1 := SetHtlcStatus(db, k, FinalStatus(settled));
    if status == Failed || (settled && PendingOf(db1, h) != {}) then (db1, Marked(None)) else
    if db1.invoices[h].status != SettleRequested then (db, MarkFailed(FinalizationFailed)) else
    (SetInvoiceStatus(db1, h, FinalStatus(settled)), Marked(Some(h)))
  }

  function Mark(db: Db, k: HtlcKey, settled: bool): Db {
    MarkHtlcFinal(db, k, settled).0
  }

  // ----- What the tables always satisfy -----

  /** The status that the statuses of its htlcs call for. */
  ghost predicate StatusMatches(db: Db, h: Hash)
    requires h in db.invoices
  {
    match db.invoices[h].status
    case Settled => forall k :: k in KeysOf(db, h) ==> db.htlcs[k].status == Settled
    case Failed => exists k :: k in KeysOf(db, h) && db.htlcs[k].status == Failed
    case SettleRequested =>
      && PendingOf(db, h) != {}
      && forall k :: k in KeysOf(db, h) ==> db.htlcs[k].status != Failed
  }

  /** What holds of every stored invoice. */
  ghost predicate InvoiceInv(db: Db, h: Hash)
    requires h in db.invoices
  {
    h == Sha256(db.invoices[h].preimage) && KeysOf(db, h) != {} && StatusMatches(db, h)
  }

  ghost predicate DbInv(db: Db) {
    && (forall k :: k in db.htlcs ==> db.htlcs[k].hash in db.invoices)
    && (forall h :: h in db.invoices ==> InvoiceInv(db, h))
  }

  /** The rows of one invoice are the same in two states of the database. */
  ghost predicate SameRows(db: Db, db': Db, h: Hash) {
    && h in db.invoices && h in db'.invoices && db.invoices[h] == db'.invoices[h]
    && KeysOf(db, h) == KeysOf(db', h)
    && forall k :: k in KeysOf(db, h) ==> db.htlcs[k] == db'.htlcs[k]
  }

  lemma SameRowsPending(db: Db, db': Db, h: Hash)
    requires SameRows(db, db', h)
    ensures PendingOf(db, h) == PendingOf(db', h)
  {
    assert forall k :: k in PendingOf(db, h) <==> k in KeysOf(db, h) && db.htlcs[k].status == SettleRequested;
    assert forall k :: k in PendingOf(db', h) <==> k in KeysOf(db', h) && db'.htlcs[k].status == SettleRequested;
  }

  lemma SameRowsInv(db: Db, db': Db, h: Hash)
    requires SameRows(db, db', h) && InvoiceInv(db, h)
    ensures InvoiceInv(db', h)
  {
    assert forall k :: k in KeysOf(db, h) <==> k in KeysOf(db', h);
    SameRowsPending(db, db', h);
    if db.invoices[h].status == Failed {
      var f :| f in KeysOf(db, h) && db.htlcs[f].status == Failed;
      assert f in KeysOf(db', h) && db'.htlcs[f].status == Failed;
    }
  }

  lemma InsertedRows(db: Db, preimage: Preimage, value: int, htlcs: map<HtlcKey, int>, h: Hash)
    requires DbInv(db) && RowsAdmitted(db, preimage, value, htlcs)
    requires h in db.invoices
    ensures SameRows(db, Inserted(db, preimage, value, htlcs), h)
  {
    var db' := Inserted(db, preimage, value, htlcs);
    forall k ensures k in KeysOf(db', h) <==> k in KeysOf(db, h) {
      if k in htlcs {
        assert db'.htlcs[k].hash == Sha256(preimage) != h;
      }
    }
  }

  lemma InsertedHtlcsOf(db: Db, preimage: Preimage, value: int, htlcs: map<HtlcKey, int>, h: Hash)
    requires DbInv(db) && RowsAdmitted(db, preimage, value, htlcs)
    requires h in db.invoices
    ensures var db' := Inserted(db, preimage, value, htlcs);
            h in db'.invoices && KeysOf(db', h) == KeysOf(db, h) && HtlcsOf(db', h) == HtlcsOf(db, h)
  {
    hide DbInv, RowsAdmitted, Inserted;
    InsertedRows(db, preimage, value, htlcs, h);
    assert forall k :: k in KeysOf(db, h) <==> k in KeysOf(Inserted(db, preimage, value, htlcs), h);
  }

  /** A committed RequestSettle keeps the invariant exactly when it records at least one htlc,
      and Get then returns the recorded htlcs. */
  lemma RequestSettleKeepsInv(db: Db, preimage: Preimage, value: int, htlcs: map<HtlcKey, int>)
    requires DbInv(db) && RowsAdmitted(db, preimage, value, htlcs)
    ensures DbInv(Inserted(db, preimage, value, htlcs)) <==> htlcs != map[]
    ensures HtlcsOf(Inserted(db, preimage, value, htlcs), Sha256(preimage)) == htlcs
    ensures htlcs != map[] ==> Unreported(Inserted(db, preimage, value, htlcs), Sha256(preimage))
  {
    var db' := Inserted(db, preimage, value, htlcs);
    var h := Sha256(preimage);
    InsertedKeys(db, preimage, value, htlcs);
    if htlcs == map[] {
      assert !InvoiceInv(db', h);
    } else {
      var k :| k in htlcs;
      assert k in PendingOf(db', h);
      assert InvoiceInv(db', h);
      forall h' | h' in db'.invoices && h' != h ensures InvoiceInv(db', h') {
        InsertedRows(db, preimage, value, htlcs, h');
        SameRowsInv(db, db', h');
      }
    }
  }

  lemma InsertedKeys(db: Db, preimage: Preimage, value: int, htlcs: map<HtlcKey, int>)
    requires DbInv(db) && RowsAdmitted(db, preimage, value, htlcs)
    ensures var db' := Inserted(db, preimage, value, htlcs);
            && KeysOf(db', Sha256(preimage)) == htlcs.Keys
            && HtlcsOf(db', Sha256(preimage)) == htlcs
  {
    var db' := Inserted(db, preimage, value, htlcs);
    assert forall k :: k in KeysOf(db', Sha256(preimage)) <==> k in htlcs;
  }

  /** Only statuses differ between two states of the database. */
  ghost predicate SameShape(db: Db, db': Db) {
    && db'.htlcs.Keys == db.htlcs.Keys && db'.invoices.Keys == db.invoices.Keys
    && (forall k :: k in db.htlcs ==> db'.htlcs[k] == db.htlcs[k].(status := db'.htlcs[k].status))
    && (forall h :: h in db.invoices ==> db'.invoices[h] == db.invoices[h].(status := db'.invoices[h].status))
  }

  lemma SameShapeKeys(db: Db, db': Db, h: Hash)
    requires SameShape(db, db')
    ensures KeysOf(db', h) == KeysOf(db, h) && HtlcsOf(db', h) == HtlcsOf(db, h)
  {
    assert forall k :: k in KeysOf(db', h) <==> k in KeysOf(db, h);
  }

  /** MarkHtlcFinal changes statuses only: of the given htlc and of its invoice. */
  lemma MarkFrame(db: Db, k: HtlcKey, settled: bool)
    ensures SameShape(db, Mark(db, k, settled))
    ensures forall k' :: k' in db.htlcs && k' != k ==> Mark(db, k, settled).htlcs[k'] == db.htlcs[k']
    ensures forall h :: h in db.invoices && (k in db.htlcs ==> db.htlcs[k].hash != h) ==>
              Mark(db, k, settled).invoices[h] == db.invoices[h]
  {
  }

  lemma MarkRows(db: Db, k: HtlcKey, settled: bool, h: Hash)
    requires h in db.invoices && (k in db.htlcs ==> db.htlcs[k].hash != h)
    ensures SameRows(db, Mark(db, k, settled), h)
  {
    MarkFrame(db, k, settled);
    SameShapeKeys(db, Mark(db, k, settled), h);
  }

  /** MarkHtlcFinal keeps the invariant, and its two internal consistency errors never occur. */
  lemma MarkKeepsInv(db: Db, k: HtlcKey, settled: bool)
    requires DbInv(db)
    ensures DbInv(Mark(db, k, settled))
    ensures MarkHtlcFinal(db, k, settled).1 != MarkFailed(FinalizationFailed)
    ensures MarkHtlcFinal(db, k, settled).1 != MarkFailed(InvoiceNotFound)
  {
    MarkKeepsDb(db, k, settled);
    assert k in db.htlcs ==> InvoiceInv(db, db.htlcs[k].hash);
  }

  lemma MarkKeepsDb(db: Db, k: HtlcKey, settled: bool)
    requires DbInv(db)
    ensures DbInv(Mark(db, k, settled))
  {
    hide Mark, InvoiceInv;
    var db' := Mark(db, k, settled);
    MarkFrame(db, k, settled);
    if db' != db {
      MarkedRow(db, k, settled);
      forall h | h in db'.invoices ensures InvoiceInv(db', h) {
        if h == db.htlcs[k].hash {
          MarkedInvoiceInv(db, k, settled);
        } else {
          MarkRows(db, k, settled, h);
          SameRowsInv(db, db', h);
        }
      }
    }
  }

  /** What a call that changes anything writes. */
  lemma MarkedRow(db: Db, k: HtlcKey, settled: bool)
    requires Mark(db, k, settled) != db
    ensures k in db.htlcs && db.htlcs[k].hash in db.invoices && db.htlcs[k].status == SettleRequested
    ensures var h, db1 := db.htlcs[k].hash, SetHtlcStatus(db, k, FinalStatus(settled));
            && db.invoices[h].status != Settled && Mark(db, k, settled).htlcs == db1.htlcs
            && h in Mark(db, k, settled).invoices
            && Mark(db, k, settled).invoices[h] == db.invoices[h].(status :=
                 if db.invoices[h].status == Failed || (settled && PendingOf(Mark(db, k, settled), h) != {})
                 then db.invoices[h].status else FinalStatus(settled))
  {
    var h, db1 := db.htlcs[k].hash, SetHtlcStatus(db, k, FinalStatus(settled));
    assert PendingOf(Mark(db, k, settled), h) == PendingOf(db1, h);
  }

  /** The status that MarkHtlcFinal writes is the one that the htlcs call for. */
  lemma NewStatusMatches(db: Db, k: HtlcKey, settled: bool, db': Db)
    requires k in db.htlcs && db.htlcs[k].hash in db.invoices && InvoiceInv(db, db.htlcs[k].hash)
    requires db.htlcs[k].status == SettleRequested && db.invoices[db.htlcs[k].hash].status != Settled
    requires db'.htlcs == SetHtlcStatus(db, k, FinalStatus(settled)).htlcs && db.htlcs[k].hash in db'.invoices
    requires var h := db.htlcs[k].hash;
             db'.invoices[h] == db.invoices[h].(status :=
               if db.invoices[h].status == Failed || (settled && PendingOf(db', h) != {}) then db.invoices[h].status
               else FinalStatus(settled))
    ensures InvoiceInv(db', db.htlcs[k].hash)
  {
    var h := db.htlcs[k].hash;
    assert k in KeysOf(db', h);
    if db.invoices[h].status == Failed {
      var f :| f in KeysOf(db, h) && db.htlcs[f].status == Failed;
      assert f in KeysOf(db', h) && db'.htlcs[f].status == Failed;
    } else if settled && PendingOf(db', h) == {} {
      forall k' | k' in KeysOf(db', h) ensures db'.htlcs[k'].status == Settled {
        assert k' !in PendingOf(db', h) && k' in KeysOf(db, h);
      }
    } else if settled {
      forall k' | k' in KeysOf(db', h) ensures db'.htlcs[k'].status != Failed {
        assert k' in KeysOf(db, h);
      }
    }
  }

  lemma MarkedInvoiceInv(db: Db, k: HtlcKey, settled: bool)
    requires DbInv(db) && Mark(db, k, settled) != db
    ensures k in db.htlcs && db.htlcs[k].hash in Mark(db, k, settled).invoices
    ensures InvoiceInv(Mark(db, k, settled), db.htlcs[k].hash)
  {
    var h := db.htlcs[k].hash;
    var db' := Mark(db, k, settled);
    assert InvoiceInv(db, h);
    hide DbInv;
    MarkedRow(db, k, settled);
    NewStatusMatches(db, k, settled, db');
  }

  /** The status of an invoice is a function of the statuses of its htlcs. */
  lemma StatusIsDerived(db: Db, h: Hash)
    requires h in db.invoices && InvoiceInv(db, h)
    ensures db.invoices[h].status == Failed <==> exists k :: k in KeysOf(db, h) && db.htlcs[k].status == Failed
    ensures db.invoices[h].status == Settled <==> forall k :: k in KeysOf(db, h) ==> db.htlcs[k].status == Settled
  {
    var some :| some in KeysOf(db, h);
    if db.invoices[h].status == SettleRequested {
      var k :| k in PendingOf(db, h);
      assert k in KeysOf(db, h);
    }
  }

  /** While an invoice is unsettled, counting the pending rows decides whether all are settled. */
  lemma CountDecidesAllSettled(db: Db, h: Hash)
    requires DbInv(db) && h in db.invoices && db.invoices[h].status != Failed
    ensures PendingOf(db, h) == {} <==> forall k :: k in KeysOf(db, h) ==> db.htlcs[k].status == Settled
  {
    if PendingOf(db, h) == {} {
      forall k | k in KeysOf(db, h) ensures db.htlcs[k].status == Settled {
        assert k !in PendingOf(db, h);
      }
    } else {
      var k :| k in PendingOf(db, h);
      assert k in KeysOf(db, h);
    }
  }

  // ----- Every order and repetition of final reports -----

  datatype Report = Report(key: HtlcKey, settled: bool)

  /** The tables after a list of reports. */
  function AfterReports(db: Db, reports: seq<Report>): Db {
    if reports == [] then db
    else
      var n := |reports| - 1;
      Mark(AfterReports(db, reports[..n]), reports[n].key, reports[n].settled)
  }

  /** How many of the calls returned the hash of an invoice. */
  function TimesReturned(db: Db, reports: seq<Report>, h: Hash): nat {
    if reports == [] then 0
    else
      var n := |reports| - 1;
      TimesReturned(db, reports[..n], h)
      + (if MarkHtlcFinal(AfterReports(db, reports[..n]), reports[n].key, reports[n].settled).1 == Marked(Some(h))
         then 1 else 0)
  }

  /** The first report about a key. */
  function FirstReport(reports: seq<Report>, k: HtlcKey): Option<bool> {
    if reports == [] then None
    else
      var n := |reports| - 1;
      match FirstReport(reports[..n], k)
      case Some(b) => Some(b)
      case None => if reports[n].key == k then Some(reports[n].settled) else None
  }

  function ReportedStatus(r: Option<bool>): Status {
    if r.None? then SettleRequested else FinalStatus(r.value)
  }

  /** An invoice as RequestSettle leaves it: nothing has been reported yet. */
  ghost predicate Unreported(db: Db, h: Hash) {
    && h in db.invoices && db.invoices[h].status == SettleRequested
    && forall k :: k in KeysOf(db, h) ==> db.htlcs[k].status == SettleRequested
  }

  lemma {:induction false} ReportsKeepInv(db: Db, reports: seq<Report>)
    requires DbInv(db)
    ensures DbInv(AfterReports(db, reports))
    ensures SameShape(db, AfterReports(db, reports))
  {
    if reports != [] {
      var n := |reports| - 1;
      ReportsKeepInv(db, reports[..n]);
      MarkKeepsInv(AfterReports(db, reports[..n]), reports[n].key, reports[n].settled);
      MarkFrame(AfterReports(db, reports[..n]), reports[n].key, reports[n].settled);
    }
  }

  /** A pending htlc takes the reported status; a final one keeps its own. */
  lemma MarkSetsHtlc(db: Db, k: HtlcKey, settled: bool)
    requires DbInv(db) && k in db.htlcs
    ensures k in Mark(db, k, settled).htlcs
    ensures Mark(db, k, settled).htlcs[k].status ==
            if db.htlcs[k].status == SettleRequested then FinalStatus(settled) else db.htlcs[k].status
  {
    var h := db.htlcs[k].hash;
    assert InvoiceInv(db, h) && k in KeysOf(db, h);
    MarkKeepsInv(db, k, settled);
  }

  /** The first report about a key wins. */
  lemma {:induction false} FirstReportWins(db: Db, reports: seq<Report>, h: Hash, k: HtlcKey)
    requires DbInv(db) && Unreported(db, h) && k in KeysOf(db, h)
    ensures k in AfterReports(db, reports).htlcs
    ensures AfterReports(db, reports).htlcs[k].status == ReportedStatus(FirstReport(reports, k))
  {
    hide DbInv, Mark, MarkHtlcFinal;
    if reports != [] {
      var n := |reports| - 1;
      var before := AfterReports(db, reports[..n]);
      ReportsKeepInv(db, reports[..n]);
      FirstReportWins(db, reports[..n], h, k);
      MarkFrame(before, reports[n].key, reports[n].settled);
      if reports[n].key == k {
        MarkSetsHtlc(before, k, reports[n].settled);
      }
    }
  }

  /** The call that makes an invoice final, and no other, returns its hash; it also reports
      the status that the invoice now has. A final status never changes again. */
  lemma MarkReturnsOnFinal(db: Db, k: HtlcKey, settled: bool, h: Hash)
    requires h in db.invoices
    ensures h in Mark(db, k, settled).invoices
    ensures MarkHtlcFinal(db, k, settled).1 == Marked(Some(h))
            <==> !db.invoices[h].status.IsFinal() && Mark(db, k, settled).invoices[h].status.IsFinal()
    ensures MarkHtlcFinal(db, k, settled).1 == Marked(Some(h)) ==>
              Mark(db, k, settled).invoices[h].status == FinalStatus(settled)
    ensures db.invoices[h].status.IsFinal() ==> Mark(db, k, settled).invoices[h] == db.invoices[h]
  {
  }

  lemma {:induction false} FinalIsForever(db: Db, reports: seq<Report>, h: Hash)
    requires h in db.invoices && db.invoices[h].status.IsFinal()
    ensures h in AfterReports(db, reports).invoices
    ensures AfterReports(db, reports).invoices[h] == db.invoices[h]
    ensures TimesReturned(db, reports, h) == 0
  {
    if reports != [] {
      var n := |reports| - 1;
      FinalIsForever(db, reports[..n], h);
      MarkReturnsOnFinal(AfterReports(db, reports[..n]), reports[n].key, reports[n].settled, h);
    }
  }

  lemma {:induction false} ReturnedOnceWhenFinal(db: Db, reports: seq<Report>, h: Hash)
    requires h in db.invoices && !db.invoices[h].status.IsFinal()
    ensures h in AfterReports(db, reports).invoices
    ensures TimesReturned(db, reports, h) == if AfterReports(db, reports).invoices[h].status.IsFinal() then 1 else 0
  {
    if reports != [] {
      var n := |reports| - 1;
      ReturnedOnceWhenFinal(db, reports[..n], h);
      MarkReturnsOnFinal(AfterReports(db, reports[..n]), reports[n].key, reports[n].settled, h);
    }
  }

  /** Confluence: whatever the order and repetition of the reports, they make the invoice FAILED
      when the first report about some htlc is a failure, SETTLED when the first report about
      every htlc is a settle, and leave it SETTLE_REQUESTED otherwise. Exactly one call returns
      the hash of an invoice that became final. */
  lemma ReportsDecideInvoice(db: Db, reports: seq<Report>, h: Hash)
    requires DbInv(db) && Unreported(db, h)
    ensures h in AfterReports(db, reports).invoices
    ensures var status := AfterReports(db, reports).invoices[h].status;
            && (status == Failed <==> exists k :: k in KeysOf(db, h) && FirstReport(reports, k) == Some(false))
            && (status == Settled <==> forall k :: k in KeysOf(db, h) ==> FirstReport(reports, k) == Some(true))
            && TimesReturned(db, reports, h) == if status.IsFinal() then 1 else 0
  {
    var db' := AfterReports(db, reports);
    ReportsKeepInv(db, reports);
    ReturnedOnceWhenFinal(db, reports, h);
    SameShapeKeys(db, db', h);
    forall k | k in KeysOf(db, h)
      ensures k in KeysOf(db', h) && db'.htlcs[k].status == ReportedStatus(FirstReport(reports, k))
    {
      FirstReportWins(db, reports, h, k);
    }
    StatusIsDerived(db', h);
    if db'.invoices[h].status == Failed {
      var k :| k in KeysOf(db', h) && db'.htlcs[k].status == Failed;
      assert k in KeysOf(db, h);
    }
    assert forall k :: k in KeysOf(db, h) <==> k in KeysOf(db', h);
  }

  /** Two lists of reports that agree on the first report per htlc agree on the invoice. */
  lemma ReportOrderIrrelevant(db: Db, a: seq<Report>, b: seq<Report>, h: Hash)
    requires DbInv(db) && Unreported(db, h)
    requires forall k :: k in KeysOf(db, h) ==> FirstReport(a, k) == FirstReport(b, k)
    ensures h in AfterReports(db, a).invoices && h in AfterReports(db, b).invoices
    ensures AfterReports(db, a).invoices[h] == AfterReports(db, b).invoices[h]
    ensures TimesReturned(db, a, h) == TimesReturned(db, b, h)
  {
    hide DbInv, AfterReports, TimesReturned, FirstReport;
    ReportsDecideInvoice(db, a, h);
    ReportsDecideInvoice(db, b, h);
    ReportsKeepInv(db, a);
    ReportsKeepInv(db, b);
  }
}
