/** The persister: the tables live in fields, and a transaction works on a copy that replaces
    them when it commits. `available` is false when the database cannot be reached; the
    transaction is then not executed at all. */
module Persister {
  import opened Types
  import opened Persistence

  datatype GetResult = Found(invoice: InvoiceRow, htlcs: map<HtlcKey, int>) | NotFound | Unavailable

  /** What Get answers when the database can be reached. */
  function Lookup(db: Db, h: Hash): GetResult {
    if h in db.invoices then Found(db.invoices[h], HtlcsOf(db, h)) else NotFound
  }

  /** What MarkHtlcFinal does to the tables and returns, if the database can be reached. */
  function MarkAttempt(db: Db, available: bool, k: HtlcKey, settled: bool): (Db, MarkResult) {
    if available then MarkHtlcFinal(db, k, settled) else (db, MarkFailed(Unreachable))
  }

  datatype TxResult<+T> = Continue(value: T) | Rollback(error: MarkError)

  class PostgresPersister {
    var invoices: map<Hash, InvoiceRow>
    var htlcs: map<HtlcKey, HtlcRow>

    ghost function Tables(): Db
      reads this
    {
      Db(invoices, htlcs)
    }

    constructor ()
      ensures Tables() == EMPTY_DB
    {
      invoices, htlcs := map[], map[];
    }

    method Get(available: bool, hash: Hash) returns (r: GetResult)
      ensures r == if available then Lookup(Tables(), hash) else Unavailable
    {
      if !available {
        return Unavailable;
      }
      if hash !in invoices {
        return NotFound;
      }
      var result: map<HtlcKey, int> := map[];
      var rows := htlcs.Keys;
      while rows != {}
        invariant rows <= htlcs.Keys
        invariant result == map k | k in htlcs.Keys - rows && htlcs[k].hash == hash :: htlcs[k].amountMsat
        decreases rows
      {
        var k :| k in rows;
        if htlcs[k].hash == hash {
          result := result[k := htlcs[k].amountMsat];
        }
        rows := rows - {k};
      }
      r := Found(invoices[hash], result);
      assert result == HtlcsOf(Tables(), hash);
    }

    /** The htlcs of a node that are requested to be settled but have no final outcome yet, or None
        when the database cannot be reached. */
    method GetPendingHtlcs(available: bool, node: PubKey) returns (r: Option<set<HtlcKey>>)
      ensures r.Some? <==> available
      ensures r.Some? ==> r.value == set k | k in htlcs && k.node == node && htlcs[k].status == SettleRequested
    {
      if !available {
        return None;
      }
      var pending := {};
      var rows := htlcs.Keys;
      while rows != {}
        invariant rows <= htlcs.Keys
        invariant pending == set k | k in htlcs.Keys - rows && k.node == node && htlcs[k].status == SettleRequested
        decreases rows
      {
        var k :| k in rows;
        if k.node == node && htlcs[k].status == SettleRequested {
          pending := pending + {k};
        }
        rows := rows - {k};
      }
      r := Some(pending);
    }

    /** Insert the invoice and its htlcs, or nothing at all. */
    method RequestSettle(available: bool, preimage: Preimage, value: int, newHtlcs: map<HtlcKey, int>)
      returns (ok: bool)
      modifies this
      ensures ok <==> available && RowsAdmitted(old(Tables()), preimage, value, newHtlcs)
      ensures Tables() == if ok then Inserted(old(Tables()), preimage, value, newHtlcs) else old(Tables())
    {
      var hash := Sha256(preimage);
      if !available || hash in invoices || value <= 0
         || (exists h :: h in invoices && invoices[h].preimage == preimage) {
        return false;
      }
      var rows := InsertHtlcs(htlcs, hash, newHtlcs);
      if rows.None? {
        return false;
      }
      invoices := invoices[hash := InvoiceRow(preimage, value, SettleRequested)];
      htlcs := rows.value;
      ok := true;
    }

    /** Insert the htlcs of an invoice one by one, until one violates a constraint. */
    static method InsertHtlcs(rows: map<HtlcKey, HtlcRow>, hash: Hash, newHtlcs: map<HtlcKey, int>)
      returns (r: Option<map<HtlcKey, HtlcRow>>)
      ensures r.Some? <==> forall k :: k in newHtlcs ==> k !in rows && newHtlcs[k] > 0
      ensures r.Some? ==> r.value == rows + map k | k in newHtlcs :: HtlcRow(hash, newHtlcs[k], SettleRequested)
    {
      var all, todo := rows, newHtlcs.Keys;
      while todo != {}
        invariant todo <= newHtlcs.Keys
        invariant all.Keys == rows.Keys + (newHtlcs.Keys - todo)
        invariant forall k :: k in rows ==> k !in newHtlcs.Keys - todo && all[k] == rows[k]
        invariant forall k :: k in newHtlcs.Keys - todo ==>
                    newHtlcs[k] > 0 && all[k] == HtlcRow(hash, newHtlcs[k], SettleRequested)
        decreases todo
      {
        var k :| k in todo;
        if k in all || newHtlcs[k] <= 0 {
          return None;
        }
        all := all[k := HtlcRow(hash, newHtlcs[k], SettleRequested)];
        todo := todo - {k};
      }
      r := Some(all);
    }

    /** Record the final outcome of an htlc. */
    method MarkHtlcFinal(available: bool, key: HtlcKey, settled: bool) returns (r: MarkResult)
      modifies this
      ensures (Tables(), r) == MarkAttempt(old(Tables()), available, key, settled)
    {
      if !available {
        return MarkFailed(Unreachable);
      }
      var tx := Db(invoices, htlcs);
      var selected := SelectInvoiceForUpdate(tx, key);
      if selected.Rollback? {
        assert key in tx.htlcs ==> key in KeysOf(tx, tx.htlcs[key].hash);
        return MarkFailed(selected.error);
      }
      var (hash, invoice) := selected.value;
      if invoice.status == Settled {
        return MarkFailed(InvoiceAlreadySettled);
      }
      var updated := FinalizeHtlc(tx, key, settled);
      if updated.Rollback? {
        return MarkFailed(updated.error);
      }
      tx := updated.value;
      ghost var marked := SetHtlcStatus(old(Tables()), key, FinalStatus(settled));
      assert tx.htlcs == marked.htlcs;
      assert PendingOf(tx, hash) == PendingOf(marked, hash);
      if invoice.status == Failed {
        Commit(tx);
        return Marked(None);
      }
      if settled {
        var allSettled := AllHtlcsAreSettled(tx, hash);
        if !allSettled {
          Commit(tx);
          return Marked(None);
        }
      }
      var finalized := FinalizeInvoice(tx, hash, settled);
      if finalized.Rollback? {
        return MarkFailed(FinalizationFailed);
      }
      assert finalized.value.invoices == SetInvoiceStatus(marked, hash, FinalStatus(settled)).invoices;
      Commit(finalized.value);
      r := Marked(Some(hash));
    }

    method Commit(tx: Db)
      modifies this
      ensures Tables() == tx
    {
      invoices, htlcs := tx.invoices, tx.htlcs;
    }

    /** Finds the invoice that the htlc was recorded for. In consistent tables it fails only for an
        htlc that was never recorded. */
    static method SelectInvoiceForUpdate(tx: Db, key: HtlcKey) returns (r: TxResult<(Hash, InvoiceRow)>)
      ensures r.Continue? ==> key in KeysOf(tx, r.value.0)
      ensures r.Continue? ==> r.value.0 in tx.invoices && tx.invoices[r.value.0] == r.value.1
      ensures r.Continue? && DbInv(tx) ==> r.value.0 == Sha256(r.value.1.preimage)
      ensures r == Rollback(HtlcNotFound) <==> forall h :: key !in KeysOf(tx, h)
      ensures r.Rollback? && r != Rollback(HtlcNotFound) ==>
                && r == Rollback(MarkError.InvoiceNotFound) && !DbInv(tx)
                && key in tx.htlcs && tx.htlcs[key].hash !in tx.invoices
    {
      if key !in tx.htlcs {
        return Rollback(HtlcNotFound);
      }
      var hash := tx.htlcs[key].hash;
      assert key in KeysOf(tx, hash);
      if hash !in tx.invoices {
        return Rollback(MarkError.InvoiceNotFound);
      }
      assert DbInv(tx) ==> InvoiceInv(tx, hash);
      r := Continue((hash, tx.invoices[hash]));
    }

    /** Takes one htlc off the pending ones of its invoice and changes no other row. It fails only
        for an htlc without a row or with a final outcome. */
    static method FinalizeHtlc(tx: Db, key: HtlcKey, settled: bool) returns (r: TxResult<Db>)
      ensures r.Continue? <==> exists h :: key in PendingOf(tx, h)
      ensures r.Rollback? ==> r.error == HtlcAlreadyFinal && (key in tx.htlcs ==> tx.htlcs[key].status.IsFinal())
      ensures r.Continue? ==> SameShape(tx, r.value) && r.value.invoices == tx.invoices
      ensures r.Continue? ==> forall h :: PendingOf(r.value, h) == PendingOf(tx, h) - {key}
      ensures r.Continue? ==> r.value.htlcs[key].status == FinalStatus(settled)
      ensures r.Continue? ==> forall k :: k in tx.htlcs && k != key ==> r.value.htlcs[k] == tx.htlcs[k]
    {
      if key !in tx.htlcs || tx.htlcs[key].status != SettleRequested {
        return Rollback(HtlcAlreadyFinal);
      }
      assert key in PendingOf(tx, tx.htlcs[key].hash);
      r := Continue(SetHtlcStatus(tx, key, FinalStatus(settled)));
    }

    /** Makes a pending invoice final and changes no other row. The invoice then has the status that
        its htlcs call for, if the caller was right about them. */
    static method FinalizeInvoice(tx: Db, hash: Hash, settled: bool) returns (r: TxResult<Db>)
      ensures r.Continue? <==> hash in tx.invoices && !tx.invoices[hash].status.IsFinal()
      ensures r.Rollback? ==> r.error == FinalizationFailed
      ensures r.Continue? ==> SameShape(tx, r.value) && r.value.htlcs == tx.htlcs
      ensures r.Continue? ==> forall h :: h in tx.invoices && h != hash ==> r.value.invoices[h] == tx.invoices[h]
      ensures r.Continue? ==> r.value.invoices[hash].status == FinalStatus(settled)
      ensures r.Continue? ==>
                (StatusMatches(r.value, hash) <==>
                 if settled then forall k :: k in KeysOf(tx, hash) ==> tx.htlcs[k].status == Settled
                 else exists k :: k in KeysOf(tx, hash) && tx.htlcs[k].status == Failed)
    {
      if hash !in tx.invoices || tx.invoices[hash].status != SettleRequested {
        return Rollback(FinalizationFailed);
      }
      r := Continue(SetInvoiceStatus(tx, hash, FinalStatus(settled)));
      assert KeysOf(r.value, hash) == KeysOf(tx, hash);
    }

    /** Counts the htlcs that are not settled yet. */
    static method AllHtlcsAreSettled(tx: Db, hash: Hash) returns (all: bool)
      ensures all <==> PendingOf(tx, hash) == {}
    {
      ghost var pending := PendingOf(tx, hash);
      assert forall k :: k in pending <==>
        k in tx.htlcs && tx.htlcs[k].hash == hash && tx.htlcs[k].status == SettleRequested;
      hide PendingOf;
      ghost var counted: set<HtlcKey> := {};
      var count := 0;
      var rows := tx.htlcs.Keys;
      while rows != {}
        invariant rows <= tx.htlcs.Keys
        invariant forall k :: k in counted <==> k in pending && k !in rows
        invariant count == |counted|
        decreases rows
      {
        var k :| k in rows;
        if tx.htlcs[k].hash == hash && tx.htlcs[k].status == SettleRequested {
          counted := counted + {k};
          count := count + 1;
        }
        rows := rows - {k};
      }
      assert counted == pending;
      all := count == 0;
    }
  }
}
