/** What every step of the registry keeps, in every run: memory, database and log agree with each
    other, and amounts are conserved. */
module RegistryInvariants {
  import opened Types
  import opened StatelessData
  import opened Persistence
  import opened Amounts
  import opened ByteOrder
  import opened Mux
  import opened Registry

  // ----- The effect of notifying a list of keys -----

  ghost function KeySet(keys: seq<HtlcKey>): set<HtlcKey> {
    set k | k in keys
  }

  /** The entries that notifying the subscribers of the keys appends to the log. */
  function Emitted(subs: map<HtlcKey, seq<nat>>, keys: seq<HtlcKey>, res: Resolution): seq<Entry> {
    if keys == [] then []
    else
      var k := keys[|keys| - 1];
      Emitted(subs, keys[..|keys| - 1], res) + if k in subs then Entries(subs[k], k, res) else []
  }

  lemma {:induction false} NotifyAllEffect(s: State, keys: seq<HtlcKey>, res: Resolution)
    requires NoDuplicates(keys)
    ensures NotifyAll(s, keys, res) == s.(log := s.log + Emitted(s.subs, keys, res), subs := s.subs - KeySet(keys))
  {
    hide Notify;
    if keys == [] {
      assert s.subs - KeySet(keys) == s.subs;
      assert s.log + [] == s.log;
    } else {
      var n := |keys| - 1;
      var s1 := NotifyAll(s, keys[..n], res);
      NotifyAllEffect(s, keys[..n], res);
      assert keys[n] !in KeySet(keys[..n]);
      assert KeySet(keys) == KeySet(keys[..n]) + {keys[n]};
      NotifyEffect(s, s1, KeySet(keys[..n]), keys[n], res);
      assert s1.log + (if keys[n] in s.subs then Entries(s.subs[keys[n]], keys[n], res) else [])
          == s.log + Emitted(s.subs, keys, res);
    }
  }

  lemma NotifyEffect(s: State, s1: State, done: set<HtlcKey>, k: HtlcKey, res: Resolution)
    requires s1.subs == s.subs - done && k !in done
    ensures Notify(s1, k, res)
            == s1.(log := s1.log + (if k in s.subs then Entries(s.subs[k], k, res) else []),
              subs := s.subs - (done + {k}))
  {
    hide Entries;
    assert s1.log + [] == s1.log;
    assert s.subs - (done + {k}) == (s.subs - done) - {k};
  }

  lemma {:induction false} EmittedEntries(subs: map<HtlcKey, seq<nat>>, keys: seq<HtlcKey>, res: Resolution)
    ensures forall i :: 0 <= i < |Emitted(subs, keys, res)| ==>
              var e := Emitted(subs, keys, res)[i];
              e.resolution == res && e.key in keys && e.key in subs && e.arrival in subs[e.key]
  {
    if keys != [] {
      EmittedEntries(subs, keys[..|keys| - 1], res);
    }
  }

  lemma DeleteAllEffect(s: State, h: Hash, order: seq<HtlcKey>, res: Resolution)
    requires h in s.sets
    ensures var keys := Ordered(order, s.sets[h].htlcs.Keys);
            DeleteAll(s, h, order, res)
            == s.(sets := s.sets - {h}, subs := s.subs - s.sets[h].htlcs.Keys,
              log := s.log + Emitted(s.subs, keys, res))
  {
    var keys := Ordered(order, s.sets[h].htlcs.Keys);
    NotifyAllEffect(s, keys, res);
    assert KeySet(keys) == s.sets[h].htlcs.Keys;
  }

  /** What taking an accepted htlc changes, and what it leaves alone. */
  lemma TakenFrame(c: Config, s: State, k: HtlcKey, htlc: Htlc, invoice: StatelessInvoice, choice: Choice)
    ensures var set1, s1 := Extended(s, k, htlc, invoice), Taken(c, s, k, htlc, invoice, choice);
            var completed := if set1.IsComplete() then Some(Completion(s.completions, s.now)) else set1.completed;
            && s1.sets == s.sets[htlc.hash := set1.(completed := completed)]
            && s1.subs == Subscribed(s.subs, k, s.arrivals) && s1.arrivals == s.arrivals + 1
            && s1.db == s.db && s1.log == s.log && s1.now == s.now
  {
    hide HtlcSet.IsComplete, Extended, NoticesFor, Subscribed, HtlcSet.Id;
  }

  // ----- The invariant -----

  /** An htlc of the set of a hash: it pays to the address and declares the value of the set. */
  ghost predicate MemberInv(c: Config, env: Environment, h: Hash, s: HtlcSet, k: HtlcKey)
    requires k in s.htlcs
  {
    && env(k).hash == h && ProcessHtlc(c.policy, env(k)).ToRegistry?
    && MppOf(env(k)) == Some(Mpp(ToUint64(s.value), s.paymentAddr))
    && s.htlcs[k] == env(k).outgoingAmountMsat
  }

  /** An in-memory set is not empty, is stored under the hash of its own preimage, and holds a
      positive total of at most its value. The 64 bit total is the mathematical one. */
  ghost predicate SetInv(c: Config, env: Environment, h: Hash, s: HtlcSet) {
    && s.htlcs != map[] && s.since.Keys == s.htlcs.Keys
    && s.preimage == Hmac(c.privKey, s.paymentAddr) && h == Sha256(s.preimage)
    && s.value == DecodeStatelessData(c.privKey, s.paymentAddr).amtMsat
    && (forall k :: k in s.htlcs ==> MemberInv(c, env, h, s, k))
    && 0 < Sum(s.htlcs) <= s.value
    && (s.completed.Some? <==> s.IsComplete())
  }

  ghost predicate SetsInv(c: Config, env: Environment, sets: map<Hash, HtlcSet>, db: Db) {
    forall h :: h in sets ==> SetInv(c, env, h, sets[h]) && h !in db.invoices
  }

  /** The keys with subscriptions are exactly the keys of the sets, and the sets are disjoint. */
  ghost predicate SubsInv(env: Environment, sets: map<Hash, HtlcSet>, subs: map<HtlcKey, seq<nat>>) {
    && (forall k :: k in subs ==> env(k).hash in sets && k in sets[env(k).hash].htlcs)
    && (forall h, k :: h in sets && k in sets[h].htlcs ==> env(k).hash == h && k in subs)
  }

  /** A stored htlc passed the checks of the multiplexer and pays to the invoice it is stored for. */
  ghost predicate RowInv(c: Config, env: Environment, db: Db, k: HtlcKey)
    requires k in db.htlcs
  {
    && env(k).hash == db.htlcs[k].hash && ProcessHtlc(c.policy, env(k)).ToRegistry?
    && db.htlcs[k].amountMsat == env(k).outgoingAmountMsat
  }

  /** A stored invoice has the value that its payment address promises, and its htlcs pay exactly
      that value. */
  ghost predicate PaidInv(c: Config, db: Db, h: Hash)
    requires h in db.invoices
  {
    var row := db.invoices[h];
    && row.preimage.privKey == c.privKey && |row.preimage.message| == 32
    && row.amountMsat == DecodeStatelessData(c.privKey, row.preimage.message).amtMsat
    && Sum(HtlcsOf(db, h)) == row.amountMsat
  }

  ghost predicate StoreInv(c: Config, env: Environment, db: Db) {
    && DbInv(db)
    && (forall k :: k in db.htlcs ==> RowInv(c, env, db, k))
    && (forall h :: h in db.invoices ==> PaidInv(c, db, h))
  }

  /** A settle has been emitted only for a stored htlc, with the preimage of its invoice. */
  ghost predicate EntryInv(env: Environment, db: Db, e: Entry) {
    e.resolution.Settle? ==>
      && e.key in db.htlcs && env(e.key).hash in db.invoices
      && e.resolution.preimage == db.invoices[env(e.key).hash].preimage
  }

  ghost predicate LogInv(env: Environment, db: Db, log: seq<Entry>) {
    forall i :: 0 <= i < |log| ==> EntryInv(env, db, log[i])
  }

  ghost predicate Inv(c: Config, env: Environment, s: State) {
    && SetsInv(c, env, s.sets, s.db)
    && SubsInv(env, s.sets, s.subs)
    && StoreInv(c, env, s.db)
    && LogInv(env, s.db, s.log)
  }

  // ----- Arrivals -----

  /** What is known of an htlc that process accepts. */
  ghost predicate Acceptable(c: Config, s: State, k: HtlcKey, htlc: Htlc, invoice: StatelessInvoice) {
    && htlc.hash !in s.db.invoices && htlc.hash == Sha256(invoice.preimage)
    && invoice == DecodeStatelessData(c.privKey, AddrOf(htlc)) && invoice.amtMsat > 0
    && MppOf(htlc) == Some(Mpp(ToUint64(invoice.amtMsat), AddrOf(htlc)))
    && s.now <= invoice.expiry
    && (htlc.hash in s.sets ==>
          && k !in s.sets[htlc.hash].htlcs
          && s.sets[htlc.hash].paymentAddr == AddrOf(htlc) && s.sets[htlc.hash].value == invoice.amtMsat)
    && (if htlc.hash in s.sets then Sum(s.sets[htlc.hash].htlcs) else 0) + htlc.outgoingAmountMsat <= invoice.amtMsat
  }

  lemma AcceptFacts(c: Config, env: Environment, s: State, k: HtlcKey, height: int32, invoice: StatelessInvoice)
    requires Inv(c, env, s) && EnvOk(c, env)
    requires Decide(c, s, k, env(k), height) == Accept(invoice)
    ensures Acceptable(c, s, k, env(k), invoice)
  {
    hide ToInt64, ToUint64, Uint64, ProcessHtlc, SubsInv, StoreInv, LogInv;
    NewTotalExact(c, env, s, k);
    if env(k).hash in s.sets {
      assert SetInv(c, env, env(k).hash, s.sets[env(k).hash]);
    }
  }

  /** The 64 bit arithmetic of the overpayment check is exact. */
  lemma NewTotalExact(c: Config, env: Environment, s: State, k: HtlcKey)
    requires SetsInv(c, env, s.sets, s.db) && EnvOk(c, env)
    ensures NewSetTotal(s, env(k))
            == (if env(k).hash in s.sets then Sum(s.sets[env(k).hash].htlcs) else 0) + env(k).outgoingAmountMsat
  {
    hide ToInt64, ToUint64, ProcessHtlc;
    if env(k).hash in s.sets {
      assert SetInv(c, env, env(k).hash, s.sets[env(k).hash]);
    }
  }

  /** The amounts and members of a set after adding an accepted htlc. */
  lemma ExtendedMembers(c: Config, env: Environment, s: State, k: HtlcKey, invoice: StatelessInvoice)
    requires SetsInv(c, env, s.sets, s.db) && EnvOk(c, env)
    requires ProcessHtlc(c.policy, env(k)).ToRegistry? && Acceptable(c, s, k, env(k), invoice)
    ensures var set1 := Extended(s, k, env(k), invoice);
            && (forall k' :: k' in set1.htlcs ==> MemberInv(c, env, env(k).hash, set1, k'))
            && Sum(set1.htlcs)
               == (if env(k).hash in s.sets then Sum(s.sets[env(k).hash].htlcs) else 0) + env(k).outgoingAmountMsat
  {
    hide ToInt64, ToUint64, Uint64, ProcessHtlc, HtlcSet.IsComplete, DecodeStatelessData;
    var htlc := env(k);
    var old0: map<HtlcKey, int> := if htlc.hash in s.sets then s.sets[htlc.hash].htlcs else map[];
    SumAdd(old0, k, ToInt64(htlc.outgoingAmountMsat));
    if htlc.hash in s.sets {
      assert SetInv(c, env, htlc.hash, s.sets[htlc.hash]);
    }
    var set1 := Extended(s, k, htlc, invoice);
    forall k' | k' in set1.htlcs ensures MemberInv(c, env, htlc.hash, set1, k') {
      if k' != k {
        assert MemberInv(c, env, htlc.hash, s.sets[htlc.hash], k');
      }
    }
  }

  /** A set that accepts another htlc is incomplete. */
  lemma OnlyIncompleteGrows(c: Config, env: Environment, s: State, k: HtlcKey, invoice: StatelessInvoice)
    requires SetsInv(c, env, s.sets, s.db) && EnvOk(c, env) && Acceptable(c, s, k, env(k), invoice)
    ensures var set1 := Extended(s, k, env(k), invoice);
            var h := env(k).hash;
            && set1.completed.None? && (h in s.sets ==> !s.sets[h].IsComplete())
            && set1.htlcs.Keys == (if h in s.sets then s.sets[h].htlcs.Keys else {}) + {k}
  {
    hide ToInt64, ToUint64, ProcessHtlc, DecodeStatelessData, MemberInv;
    if env(k).hash in s.sets {
      assert SetInv(c, env, env(k).hash, s.sets[env(k).hash]);
    }
  }

  /** The set is a proper set again once its completion, if it is complete now, is noted. */
  lemma ExtendedInv(c: Config, env: Environment, s: State, k: HtlcKey, invoice: StatelessInvoice,
                    completed: Option<Completion>)
    requires SetsInv(c, env, s.sets, s.db) && EnvOk(c, env)
    requires ProcessHtlc(c.policy, env(k)).ToRegistry? && Acceptable(c, s, k, env(k), invoice)
    requires completed.Some? <==> Extended(s, k, env(k), invoice).IsComplete()
    ensures SetInv(c, env, env(k).hash, Extended(s, k, env(k), invoice).(completed := completed))
  {
    hide ToInt64, ToUint64, ProcessHtlc, DecodeStatelessData, EnvOk, MemberInv;
    var h := env(k).hash;
    var set1 := Extended(s, k, env(k), invoice);
    var set2 := set1.(completed := completed);
    ExtendedMembers(c, env, s, k, invoice);
    AddressOf(c, env(k), invoice);
    assert env(k).outgoingAmountMsat > 0 by {
      PositiveAmount(c, env, k);
    }
    if h in s.sets {
      assert SetInv(c, env, h, s.sets[h]);
    }
    forall k' | k' in set2.htlcs ensures MemberInv(c, env, h, set2, k') {
      StillMember(c, env, h, set1, k', completed);
    }
    assert set2.IsComplete() == set1.IsComplete();
  }

  lemma StillMember(c: Config, env: Environment, h: Hash, s: HtlcSet, k: HtlcKey, completed: Option<Completion>)
    requires k in s.htlcs && MemberInv(c, env, h, s, k)
    ensures MemberInv(c, env, h, s.(completed := completed), k)
  {
    hide ProcessHtlc;
  }

  lemma PositiveAmount(c: Config, env: Environment, k: HtlcKey)
    requires EnvOk(c, env)
    ensures 0 < env(k).outgoingAmountMsat <= MAX_MSAT
  {
  }

  lemma AddressOf(c: Config, htlc: Htlc, invoice: StatelessInvoice)
    requires invoice == DecodeStatelessData(c.privKey, AddrOf(htlc))
    ensures invoice.preimage == Hmac(c.privKey, AddrOf(htlc))
  {
  }

  lemma SubscribedInv(env: Environment, sets: map<Hash, HtlcSet>, subs: map<HtlcKey, seq<nat>>,
                      sets': map<Hash, HtlcSet>, k: HtlcKey, arrival: nat)
    requires SubsInv(env, sets, subs)
    requires env(k).hash in sets' && sets' == sets[env(k).hash := sets'[env(k).hash]]
    requires sets'[env(k).hash].htlcs.Keys == (if env(k).hash in sets then sets[env(k).hash].htlcs.Keys else {}) + {k}
    ensures SubsInv(env, sets', Subscribed(subs, k, arrival))
  {
    var subs' := Subscribed(subs, k, arrival);
    forall k' | k' in subs' ensures env(k').hash in sets' && k' in sets'[env(k').hash].htlcs {
      assert k' == k || k' in subs;
      assert env(k').hash == env(k).hash ==> k' in sets'[env(k).hash].htlcs.Keys;
    }
    forall h, k' | h in sets' && k' in sets'[h].htlcs ensures env(k').hash == h && k' in subs' {
      assert h == env(k).hash ==> k' in sets'[env(k).hash].htlcs.Keys;
    }
  }

  lemma SetUpdated(c: Config, env: Environment, sets: map<Hash, HtlcSet>, db: Db, h: Hash, s: HtlcSet)
    requires SetsInv(c, env, sets, db) && SetInv(c, env, h, s) && h !in db.invoices
    ensures SetsInv(c, env, sets[h := s], db)
  {
    hide SetInv;
  }

  lemma AcceptedKeepsInv(c: Config, env: Environment, s: State, k: HtlcKey, invoice: StatelessInvoice, set1: HtlcSet,
                         s': State)
    requires Inv(c, env, s) && EnvOk(c, env)
    requires ProcessHtlc(c.policy, env(k)).ToRegistry? && Acceptable(c, s, k, env(k), invoice)
    requires SetInv(c, env, env(k).hash, set1)
    requires set1.htlcs.Keys == (if env(k).hash in s.sets then s.sets[env(k).hash].htlcs.Keys else {}) + {k}
    requires s'.sets == s.sets[env(k).hash := set1] && s'.subs == Subscribed(s.subs, k, s.arrivals)
    requires s'.db == s.db && s'.log == s.log
    ensures Inv(c, env, s')
  {
    hide SetInv, SetsInv, SubsInv, StoreInv, LogInv, ProcessHtlc, EnvOk;
    SetUpdated(c, env, s.sets, s.db, env(k).hash, set1);
    SubscribedInv(env, s.sets, s.subs, s'.sets, k, s.arrivals);
  }

  /** A set has its completion noted exactly when it is complete. */
  lemma CompletedIsComplete(c: Config, env: Environment, s: State, h: Hash)
    requires SetsInv(c, env, s.sets, s.db) && h in s.sets
    ensures s.sets[h].completed.Some? <==> s.sets[h].IsComplete()
  {
    hide MemberInv, HtlcSet.IsComplete, DecodeStatelessData, Sum;
    assert SetInv(c, env, h, s.sets[h]);
  }

  lemma CancelKnowsSet(s: State, h: Hash, id: seq<byte>, choice: Choice)
    requires CancelReply(s, h, id, choice) == Ok
    ensures h in s.sets
  {
  }

  // ----- Deleting and committing sets -----

  lemma SetsDelete(c: Config, env: Environment, sets: map<Hash, HtlcSet>, db: Db, h: Hash)
    requires SetsInv(c, env, sets, db)
    ensures SetsInv(c, env, sets - {h}, db)
  {
    hide SetInv;
  }

  lemma SubsDelete(env: Environment, sets: map<Hash, HtlcSet>, subs: map<HtlcKey, seq<nat>>, h: Hash)
    requires SubsInv(env, sets, subs) && h in sets
    ensures SubsInv(env, sets - {h}, subs - sets[h].htlcs.Keys)
  {
    var sets', subs' := sets - {h}, subs - sets[h].htlcs.Keys;
    forall k | k in subs' ensures env(k).hash in sets' && k in sets'[env(k).hash].htlcs {
      assert k in subs;
    }
    forall h', k | h' in sets' && k in sets'[h'].htlcs ensures env(k).hash == h' && k in subs' {
      assert h' in sets && sets'[h'] == sets[h'];
      assert env(k).hash == h' && k in subs;
    }
  }

  lemma LogPrefix(env: Environment, db: Db, log: seq<Entry>, n: nat)
    requires LogInv(env, db, log) && n <= |log|
    ensures LogInv(env, db, log[..n])
  {
    hide EntryInv;
  }

  lemma LogAppend(env: Environment, db: Db, log: seq<Entry>, more: seq<Entry>)
    requires LogInv(env, db, log) && LogInv(env, db, more)
    ensures LogInv(env, db, log + more)
  {
    hide EntryInv;
  }

  lemma DeleteAllKeepsInv(c: Config, env: Environment, s: State, h: Hash, order: seq<HtlcKey>, res: Resolution)
    requires Inv(c, env, s) && h in s.sets && res.Fail?
    ensures Inv(c, env, DeleteAll(s, h, order, res))
  {
    hide SetsInv, SubsInv, StoreInv, DeleteAll;
    var more := Emitted(s.subs, Ordered(order, s.sets[h].htlcs.Keys), res);
    DeleteAllEffect(s, h, order, res);
    EmittedEntries(s.subs, Ordered(order, s.sets[h].htlcs.Keys), res);
    SetsDelete(c, env, s.sets, s.db, h);
    SubsDelete(env, s.sets, s.subs, h);
    LogAppend(env, s.db, s.log, more);
  }

  /** The row constraints hold for every set, so only the connection can fail. */
  lemma SetIsAdmitted(c: Config, env: Environment, s: State, h: Hash)
    requires SetsInv(c, env, s.sets, s.db) && StoreInv(c, env, s.db) && EnvOk(c, env) && h in s.sets
    ensures Admits(s, h)
  {
    hide ProcessHtlc, PaidInv, Sum, DecodeStatelessData;
    assert SetInv(c, env, h, s.sets[h]);
    forall k | k in s.sets[h].htlcs ensures k !in s.db.htlcs && s.sets[h].htlcs[k] > 0 {
      assert MemberInv(c, env, h, s.sets[h], k);
      assert forall k' :: k' in s.db.htlcs ==> RowInv(c, env, s.db, k');
    }
    forall h' | h' in s.db.invoices ensures s.db.invoices[h'].preimage != s.sets[h].preimage {
      assert InvoiceInv(s.db, h');
    }
  }

  lemma InsertedRowsInv(c: Config, env: Environment, db: Db, h: Hash, s: HtlcSet)
    requires forall k :: k in db.htlcs ==> RowInv(c, env, db, k)
    requires SetInv(c, env, h, s)
    ensures var db' := Inserted(db, s.preimage, s.value, s.htlcs);
            forall k :: k in db'.htlcs ==> RowInv(c, env, db', k)
  {
    hide ProcessHtlc, Sum, DecodeStatelessData, HtlcSet.IsComplete;
    var db' := Inserted(db, s.preimage, s.value, s.htlcs);
    forall k | k in db'.htlcs ensures RowInv(c, env, db', k) {
      if k in s.htlcs {
        assert MemberInv(c, env, h, s, k);
      } else {
        assert RowInv(c, env, db, k);
      }
    }
  }

  lemma InsertedPaidInv(c: Config, env: Environment, db: Db, h: Hash, s: HtlcSet)
    requires DbInv(db) && forall h' :: h' in db.invoices ==> PaidInv(c, db, h')
    requires SetInv(c, env, h, s) && s.IsComplete() && RowsAdmitted(db, s.preimage, s.value, s.htlcs)
    ensures var db' := Inserted(db, s.preimage, s.value, s.htlcs);
            forall h' :: h' in db'.invoices ==> PaidInv(c, db', h')
  {
    hide ProcessHtlc, Sum, DecodeStatelessData, ToInt64, DbInv, MemberInv;
    var db' := Inserted(db, s.preimage, s.value, s.htlcs);
    forall h' | h' in db'.invoices ensures PaidInv(c, db', h') {
      if h' != h {
        assert PaidInv(c, db, h');
        InsertedHtlcsOf(db, s.preimage, s.value, s.htlcs, h');
      } else {
        InsertedKeys(db, s.preimage, s.value, s.htlcs);
      }
    }
  }

  lemma CommitKeepsStore(c: Config, env: Environment, s: State, h: Hash)
    requires SetsInv(c, env, s.sets, s.db) && StoreInv(c, env, s.db) && EnvOk(c, env)
    requires h in s.sets && s.sets[h].IsComplete()
    ensures var db' := Inserted(s.db, s.sets[h].preimage, s.sets[h].value, s.sets[h].htlcs);
            && StoreInv(c, env, db') && h in db'.invoices
            && HtlcsOf(db', h) == s.sets[h].htlcs && db'.invoices[h].preimage == s.sets[h].preimage
  {
    hide ProcessHtlc, Sum, DecodeStatelessData, ToInt64, DbInv, RowInv, PaidInv, MemberInv, EnvOk;
    var set0 := s.sets[h];
    assert SetInv(c, env, h, set0);
    SetIsAdmitted(c, env, s, h);
    InsertedRowsInv(c, env, s.db, h, set0);
    InsertedPaidInv(c, env, s.db, h, set0);
    RequestSettleKeepsInv(s.db, set0.preimage, set0.value, set0.htlcs);
  }

  /** A database that has only gained rows still justifies the log. */
  lemma LogKept(env: Environment, db: Db, db': Db, log: seq<Entry>)
    requires LogInv(env, db, log)
    requires forall k :: k in db.htlcs ==> k in db'.htlcs
    requires forall h :: h in db.invoices ==> h in db'.invoices && db'.invoices[h].preimage == db.invoices[h].preimage
    ensures LogInv(env, db', log)
  {
    forall i | 0 <= i < |log| ensures EntryInv(env, db', log[i]) {
      assert EntryInv(env, db, log[i]);
    }
  }

  /** The settles of a committed set are justified by what was committed. */
  lemma SettlesJustified(c: Config, env: Environment, s: State, h: Hash, keys: seq<HtlcKey>)
    requires SetsInv(c, env, s.sets, s.db) && h in s.sets && Enumerates(keys, s.sets[h].htlcs.Keys)
    ensures var db' := Inserted(s.db, s.sets[h].preimage, s.sets[h].value, s.sets[h].htlcs);
            LogInv(env, db', Emitted(s.subs, keys, Settle(s.sets[h].preimage, false)))
  {
    hide ProcessHtlc, Sum, DecodeStatelessData, HtlcSet.IsComplete;
    var res := Settle(s.sets[h].preimage, false);
    var db' := Inserted(s.db, s.sets[h].preimage, s.sets[h].value, s.sets[h].htlcs);
    assert SetInv(c, env, h, s.sets[h]);
    EmittedEntries(s.subs, keys, res);
    forall i | 0 <= i < |Emitted(s.subs, keys, res)| ensures EntryInv(env, db', Emitted(s.subs, keys, res)[i]) {
      assert MemberInv(c, env, h, s.sets[h], Emitted(s.subs, keys, res)[i].key);
    }
  }

  /** The state after a commit, written out. */
  lemma CommitAndSettleEffect(s: State, h: Hash, order: seq<HtlcKey>)
    requires h in s.sets
    ensures var set0 := s.sets[h];
            CommitAndSettle(s, h, order) ==
            s.(db := Inserted(s.db, set0.preimage, set0.value, set0.htlcs),
               sets := s.sets - {h}, subs := s.subs - set0.htlcs.Keys,
               log := s.log + Emitted(s.subs, Ordered(order, set0.htlcs.Keys), Settle(set0.preimage, false)))
  {
    hide DeleteAll;
    var set0 := s.sets[h];
    DeleteAllEffect(s.(db := Inserted(s.db, set0.preimage, set0.value, set0.htlcs)), h, order,
      Settle(set0.preimage, false));
  }

  lemma CommitAndSettleKeepsInv(c: Config, env: Environment, s: State, h: Hash, order: seq<HtlcKey>)
    requires Inv(c, env, s) && EnvOk(c, env) && h in s.sets && s.sets[h].IsComplete()
    ensures Inv(c, env, CommitAndSettle(s, h, order))
  {
    hide CommitAndSettle, SubsInv, StoreInv, LogInv, EnvOk, SetInv, HtlcSet.IsComplete, Ordered, Emitted;
    var set0 := s.sets[h];
    var db' := Inserted(s.db, set0.preimage, set0.value, set0.htlcs);
    assert SetInv(c, env, h, set0);
    CommitAndSettleEffect(s, h, order);
    CommitKeepsStore(c, env, s, h);
    SetIsAdmitted(c, env, s, h);
    SubsDelete(env, s.sets, s.subs, h);
    SettlesJustified(c, env, s, h, Ordered(order, set0.htlcs.Keys));
    LogKept(env, s.db, db', s.log);
    LogAppend(env, db', s.log, Emitted(s.subs, Ordered(order, set0.htlcs.Keys), Settle(set0.preimage, false)));
    assert h == Sha256(set0.preimage) by {
      SetHash(c, env, h, set0);
    }
    SetsStored(c, env, s.sets, s.db, db', h);
  }

  lemma SetHash(c: Config, env: Environment, h: Hash, s: HtlcSet)
    requires SetInv(c, env, h, s)
    ensures h == Sha256(s.preimage)
  {
  }

  /** The other sets are not stored by storing one. */
  lemma SetsStored(c: Config, env: Environment, sets: map<Hash, HtlcSet>, db: Db, db': Db, h: Hash)
    requires SetsInv(c, env, sets, db) && db'.invoices.Keys == db.invoices.Keys + {h}
    ensures SetsInv(c, env, sets - {h}, db')
  {
    hide SetInv;
  }

  // ----- Timers -----

  /** A set that loses one of several htlcs is still a proper set, and is not complete. */
  lemma ShrunkInv(c: Config, env: Environment, h: Hash, set0: HtlcSet, k: HtlcKey)
    requires SetInv(c, env, h, set0) && EnvOk(c, env) && k in set0.htlcs && !set0.IsComplete()
    ensures var set1 := set0.(htlcs := set0.htlcs - {k}, since := set0.since - {k});
            set1.htlcs != map[] ==> SetInv(c, env, h, set1)
  {
    hide ToInt64, ToUint64, Uint64, ProcessHtlc;
    var set1 := set0.(htlcs := set0.htlcs - {k}, since := set0.since - {k});
    assert MemberInv(c, env, h, set0, k);
    SumRemove(set0.htlcs, k);
    forall k' | k' in set1.htlcs ensures MemberInv(c, env, h, set1, k') && set1.htlcs[k'] > 0 {
      assert MemberInv(c, env, h, set0, k');
    }
    SumPositive(set1.htlcs);
  }

  lemma ShrunkSubs(env: Environment, sets: map<Hash, HtlcSet>, subs: map<HtlcKey, seq<nat>>, h: Hash, k: HtlcKey,
                   set1: HtlcSet)
    requires SubsInv(env, sets, subs) && h in sets && k in sets[h].htlcs && set1.htlcs.Keys == sets[h].htlcs.Keys - {k}
    ensures SubsInv(env, if set1.htlcs == map[] then sets - {h} else sets[h := set1], subs - {k})
  {
    hide SubsInv;
    assert set1.htlcs == map[] ==> set1.htlcs.Keys == {};
    SubsWithout(env, sets, subs, if set1.htlcs == map[] then sets - {h} else sets[h := set1], h, k);
  }

  lemma SubsWithout(env: Environment, sets: map<Hash, HtlcSet>, subs: map<HtlcKey, seq<nat>>,
                    sets': map<Hash, HtlcSet>, h: Hash, k: HtlcKey)
    requires SubsInv(env, sets, subs) && h in sets && k in sets[h].htlcs && sets' - {h} == sets - {h}
    requires (if h in sets' then sets'[h].htlcs.Keys else {}) == sets[h].htlcs.Keys - {k}
    ensures SubsInv(env, sets', subs - {k})
  {
    var subs' := subs - {k};
    assert forall h' :: h' != h ==> (h' in sets' <==> h' in sets - {h});
    assert forall h' :: h' in sets' && h' != h ==> sets'[h'] == (sets' - {h})[h'] == sets[h'];
    forall k' | k' in subs' ensures env(k').hash in sets' && k' in sets'[env(k').hash].htlcs {
      assert k' in subs && k' in sets[env(k').hash].htlcs;
      assert env(k').hash == h ==> k' in sets[h].htlcs.Keys - {k};
    }
    forall h', k' | h' in sets' && k' in sets'[h'].htlcs ensures env(k').hash == h' && k' in subs' {
      assert h' == h ==> k' in sets[h].htlcs.Keys - {k};
      assert h' in sets && k' in sets[h'].htlcs;
    }
  }

  lemma CancelSingleKeepsInv(c: Config, env: Environment, s: State, h: Hash, k: HtlcKey)
    requires Inv(c, env, s) && EnvOk(c, env)
    ensures Inv(c, env, CancelSingle(s, h, k))
  {
    hide ToInt64, ToUint64, Uint64, ProcessHtlc, StoreInv, SetInv, HtlcSet.IsComplete, EnvOk;
    if h in s.sets && !s.sets[h].IsComplete() && k in s.sets[h].htlcs {
      var set0 := s.sets[h];
      var set1 := set0.(htlcs := set0.htlcs - {k}, since := set0.since - {k});
      ShrunkInv(c, env, h, set0, k);
      ShrunkSubs(env, s.sets, s.subs, h, k, set1);
      SetsDelete(c, env, s.sets, s.db, h);
      if set1.htlcs != map[] {
        SetUpdated(c, env, s.sets, s.db, h, set1);
      }
      LogAppend(env, s.db, s.log, Entries(s.subs[k], k, Fail(MppTimeout)));
    }
  }

  // ----- The database and crashes -----

  lemma MarkKeepsStore(c: Config, env: Environment, db: Db, k: HtlcKey, settled: bool)
    requires StoreInv(c, env, db)
    ensures StoreInv(c, env, Mark(db, k, settled))
  {
    hide ProcessHtlc, Sum, DecodeStatelessData, MarkHtlcFinal, DbInv;
    var db' := Mark(db, k, settled);
    MarkKeepsInv(db, k, settled);
    MarkFrame(db, k, settled);
    forall k' | k' in db'.htlcs ensures RowInv(c, env, db', k') {
      assert RowInv(c, env, db, k');
    }
    forall h | h in db'.invoices ensures PaidInv(c, db', h) {
      assert PaidInv(c, db, h);
      SameShapeKeys(db, db', h);
    }
  }

  lemma MarkFinalKeepsInv(c: Config, env: Environment, s: State, k: HtlcKey, settled: bool)
    requires Inv(c, env, s)
    ensures Inv(c, env, s.(db := Mark(s.db, k, settled)))
  {
    hide StoreInv, SubsInv, SetInv, MarkHtlcFinal, Mark;
    MarkKeepsStore(c, env, s.db, k, settled);
    MarkFrame(s.db, k, settled);
    LogKept(env, s.db, Mark(s.db, k, settled), s.log);
  }

  lemma CrashedInv(c: Config, env: Environment, s: State)
    requires StoreInv(c, env, s.db) && LogInv(env, s.db, s.log)
    ensures Inv(c, env, Crashed(s))
  {
    hide StoreInv, LogInv;
  }

  lemma InterruptedKeepsInv(c: Config, env: Environment, s: State, s': State, point: CrashPoint)
    requires Inv(c, env, s) && Inv(c, env, s')
    ensures Inv(c, env, Interrupted(s, s', point))
  {
    hide StoreInv, LogInv, SetsInv, SubsInv, Crashed;
    match point
    case WhileNotifying(n) =>
      var upTo := if |s.notices| + n <= |s'.notices| then |s.notices| + n else |s'.notices|;
      CrashedInv(c, env, s'.(db := s.db, log := s.log, notices := s'.notices[..upTo]));
    case WhileResolving(n) =>
      var upTo := if |s.log| + n <= |s'.log| then |s.log| + n else |s'.log|;
      LogPrefix(env, s'.db, s'.log, upTo);
      CrashedInv(c, env, s'.(log := s'.log[..upTo]));
  }

  // ----- Every step -----

  lemma AcceptKeepsInv(c: Config, env: Environment, s: State, k: HtlcKey, height: int32, choice: Choice)
    requires Inv(c, env, s) && EnvOk(c, env) && ProcessHtlc(c.policy, env(k)).ToRegistry?
    requires choice.getOk && Decide(c, s, k, env(k), height).Accept?
    ensures Inv(c, env, Process(c, env, s, k, height, choice))
  {
    hide Decide, ProcessHtlc, EnvOk, Acceptable, Inv, CommitAndSettle, Admits, Taken, Extended, HtlcSet.IsComplete,
      SetsInv, SubsInv;
    var invoice := Decide(c, s, k, env(k), height).invoice;
    var s1 := Taken(c, s, k, env(k), invoice, choice);
    AcceptFacts(c, env, s, k, height, invoice);
    TakenKeepsInv(c, env, s, k, invoice, choice);
    if Process(c, env, s, k, height, choice) != s1 {
      CommitAndSettleKeepsInv(c, env, s1, env(k).hash, choice.keyOrder);
    }
  }

  lemma TakenKeepsInv(c: Config, env: Environment, s: State, k: HtlcKey, invoice: StatelessInvoice, choice: Choice)
    requires Inv(c, env, s) && EnvOk(c, env) && ProcessHtlc(c.policy, env(k)).ToRegistry?
    requires Acceptable(c, s, k, env(k), invoice)
    ensures var s1 := Taken(c, s, k, env(k), invoice, choice);
            Inv(c, env, s1) && s1.sets[env(k).hash].IsComplete() == Extended(s, k, env(k), invoice).IsComplete()
  {
    hide ProcessHtlc, EnvOk, Acceptable, Inv, SetInv, Taken, Extended, SetsInv, SubsInv, Sum;
    var set1, s1 := Extended(s, k, env(k), invoice), Taken(c, s, k, env(k), invoice, choice);
    var completed := if set1.IsComplete() then Some(Completion(s.completions, s.now)) else None;
    InvHasSets(c, env, s);
    TakenFrame(c, s, k, env(k), invoice, choice);
    OnlyIncompleteGrows(c, env, s, k, invoice);
    ExtendedInv(c, env, s, k, invoice, completed);
    AcceptedKeepsInv(c, env, s, k, invoice, set1.(completed := completed), s1);
  }

  lemma InvHasSets(c: Config, env: Environment, s: State)
    requires Inv(c, env, s)
    ensures SetsInv(c, env, s.sets, s.db) && SubsInv(env, s.sets, s.subs)
  {
  }

  lemma ProcessKeepsInv(c: Config, env: Environment, s: State, k: HtlcKey, height: int32, choice: Choice)
    requires Inv(c, env, s) && EnvOk(c, env) && ProcessHtlc(c.policy, env(k)).ToRegistry?
    ensures Inv(c, env, Process(c, env, s, k, height, choice))
  {
    hide ProcessHtlc, EnvOk, SetInv, StoreInv, ToInt64, ToUint64, DecodeStatelessData;
    if choice.getOk {
      match Decide(c, s, k, env(k), height)
      case ReplaySettled(preimage) =>
        assert EntryInv(env, s.db, Entry(s.arrivals, k, Settle(preimage, true)));
      case Reject(outcome) =>
      case Inconsistent =>
      case ReAccept =>
        assert s.sets == s.sets[env(k).hash := s.sets[env(k).hash]];
        SubscribedInv(env, s.sets, s.subs, s.sets, k, s.arrivals);
      case Accept(invoice) => AcceptKeepsInv(c, env, s, k, height, choice);
    }
  }

  lemma HandlersKeepInv(c: Config, env: Environment, s: State, e: Event)
    requires Inv(c, env, s) && EnvOk(c, env) && Enabled(c, env, s, e) && !e.CrashDuring?
    ensures Inv(c, env, Step(c, env, s, e))
  {
    hide ProcessHtlc, EnvOk, SetsInv, SubsInv, StoreInv, LogInv, Process, CommitAndSettle, DeleteAll, CancelSingle,
      Mark;
    match e
    case Arrive(k, height, choice) => ProcessKeepsInv(c, env, s, k, height, choice);
    case Tick(ev, choice) =>
      var s1 := Popped(s, ev);
      assert Inv(c, env, s1);
      if ev.HtlcRelease? {
        CancelSingleKeepsInv(c, env, s1, ev.hash, ev.key);
      } else if ev.hash in s.sets {
        DeleteAllKeepsInv(c, env, s1, ev.hash, choice.keyOrder, Fail(AcceptTimedOut));
      }
    case SettleRequest(h, id, choice) =>
      CrashedInv(c, env, s);
      if SettleReply(c, s, h, id, choice) == Ok && h in s.sets {
        CommitAndSettleKeepsInv(c, env, s, h, choice.keyOrder);
      }
    case CancelRequest(h, id, choice) =>
      CrashedInv(c, env, s);
      if CancelReply(s, h, id, choice) == Ok {
        DeleteAllKeepsInv(c, env, s, h, choice.keyOrder, Fail(InvoiceNotOpen));
      }
    case Subscribe(choice) =>
    case Unsubscribe(id) =>
    case Advance(to) =>
    case MarkFinal(k, settled) => MarkFinalKeepsInv(c, env, s, k, settled);
    case Crash => CrashedInv(c, env, s);
  }

  lemma StepKeepsInv(c: Config, env: Environment, s: State, e: Event)
    requires Inv(c, env, s) && EnvOk(c, env) && Enabled(c, env, s, e)
    ensures Inv(c, env, Step(c, env, s, e))
  {
    hide Inv, Process, Release, HandleSettle, HandleCancel, AddSubscriber, Interrupted, Crashed;
    if e.CrashDuring? {
      HandlersKeepInv(c, env, s, e.during);
      InterruptedKeepsInv(c, env, s, Step(c, env, s, e.during), e.point);
    } else {
      HandlersKeepInv(c, env, s, e);
    }
  }

  lemma {:induction false} RunKeepsInv(c: Config, env: Environment, states: seq<State>, events: seq<Event>, i: nat)
    requires IsRun(c, env, states, events) && EnvOk(c, env) && i < |states|
    ensures Inv(c, env, states[i])
  {
    hide Step, Enabled;
    if i > 0 {
      RunKeepsInv(c, env, states, events, i - 1);
      StepKeepsInv(c, env, states[i - 1], events[i - 1]);
    }
  }
}
