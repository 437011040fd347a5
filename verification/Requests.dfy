/** What settle and cancel requests answer and do, in every state of a run, said without the
    functions that decide it. */
module Requests {
  import opened Types
  import opened SetId
  import opened StatelessData
  import opened Persistence
  import opened Amounts
  import opened Registry
  import opened RegistryInvariants
  import opened Timing

  /** The htlcs of the set pay the whole value, and the request names exactly them. */
  ghost predicate NamesPaidSet(s: State, h: Hash, id: SetID) {
    h in s.sets && Sum(s.sets[h].htlcs) == s.sets[h].value && id == SetIdOf(s.sets[h].htlcs.Keys)
  }

  lemma CompleteIsPaid(c: Config, env: Environment, s: State, h: Hash)
    requires Inv(c, env, s) && h in s.sets
    ensures s.sets[h].IsComplete() <==> Sum(s.sets[h].htlcs) == s.sets[h].value
  {
    hide SubsInv, StoreInv, LogInv, MemberInv, DecodeStatelessData, Sum;
    assert SetInv(c, env, h, s.sets[h]);
  }

  /** The set leaves memory, and every arrival that waits for one of its htlcs is resolved. */
  function Resolved(s: State, h: Hash, entries: seq<Entry>): State
    requires h in s.sets
  {
    s.(sets := s.sets - {h}, subs := s.subs - s.sets[h].htlcs.Keys, log := s.log + entries)
  }

  /** Exactly the arrivals that wait for htlcs of the set are resolved, each in this way. */
  ghost predicate ResolvesAll(s: State, h: Hash, entries: seq<Entry>, res: Resolution)
    requires h in s.sets
  {
    && (forall p :: 0 <= p < |entries| ==>
          var e := entries[p];
          && e.resolution == res && e.key in s.sets[h].htlcs
          && e.key in s.subs && e.arrival in s.subs[e.key])
    && (forall k, i :: k in s.sets[h].htlcs && k in s.subs && 0 <= i < |s.subs[k]| ==>
          Entry(s.subs[k][i], k, res) in entries)
  }

  lemma {:induction false} EmittedAll(
    subs: map<HtlcKey, seq<nat>>, keys: seq<HtlcKey>, res: Resolution, k: HtlcKey, i: nat)
    requires k in keys && k in subs && i < |subs[k]|
    ensures Entry(subs[k][i], k, res) in Emitted(subs, keys, res)
  {
    var n := |keys| - 1;
    var before := Emitted(subs, keys[..n], res);
    var last := if keys[n] in subs then Entries(subs[keys[n]], keys[n], res) else [];
    assert Emitted(subs, keys, res) == before + last;
    if keys[n] == k {
      assert last[i] == Entry(subs[k][i], k, res);
    } else {
      assert k in keys[..n];
      EmittedAll(subs, keys[..n], res, k, i);
    }
  }

  lemma EmittedResolvesAll(s: State, h: Hash, order: seq<HtlcKey>, res: Resolution)
    requires h in s.sets
    ensures ResolvesAll(s, h, Emitted(s.subs, Ordered(order, s.sets[h].htlcs.Keys), res), res)
  {
    hide Emitted;
    var keys := Ordered(order, s.sets[h].htlcs.Keys);
    EmittedEntries(s.subs, keys, res);
    forall k, i | k in s.sets[h].htlcs && k in s.subs && 0 <= i < |s.subs[k]|
      ensures Entry(s.subs[k][i], k, res) in Emitted(s.subs, keys, res)
    {
      EmittedAll(s.subs, keys, res, k, i);
    }
  }

  // ----- Settle requests -----

  /** A settle request for a set in memory, with the commit going through. In manual mode it succeeds
      if and only if it names a paid set; the set is then stored with exactly its htlcs, and every
      waiting arrival is settled. In auto-settle mode it is refused. Otherwise nothing changes. */
  lemma SettleInMemory(
    c: Config, env: Environment, states: seq<State>, events: seq<Event>, i: nat, h: Hash, id: SetID, choice: Choice)
    requires IsRun(c, env, states, events) && EnvOk(c, env) && i < |states| && h in states[i].sets
    ensures var s, reply := states[i], SettleReply(c, states[i], h, id, choice);
            && (reply == Ok <==> NamesPaidSet(s, h, id) && !c.autoSettle && choice.commitOk)
            && (reply == ErrAutoSettling <==> NamesPaidSet(s, h, id) && c.autoSettle)
            && (reply == Stopped <==> NamesPaidSet(s, h, id) && !c.autoSettle && !choice.commitOk)
            && (reply == ErrInvoiceNotFound <==> !NamesPaidSet(s, h, id))
    ensures var s, reply, s' := states[i], SettleReply(c, states[i], h, id, choice),
                                Step(c, env, states[i], SettleRequest(h, id, choice));
            if reply == Ok then SettlesSet(s, h, s') else s' == if reply == Stopped then Crashed(s) else s
  {
    hide Inv, EnvOk, Enabled, HtlcSet.IsComplete, Admits, CommitAndSettle, SetIdOf, Sum, SettlesSet;
    var s := states[i];
    RunKeepsInv(c, env, states, events, i);
    CompleteIsPaid(c, env, s, h);
    AdmittedHash(c, env, s, h);
    SettleStores(c, env, s, h, choice.keyOrder);
  }

  /** The invoice is stored with the htlcs of the set, and all that waits for them is settled. */
  ghost predicate SettlesSet(s: State, h: Hash, s': State)
    requires h in s.sets
  {
    var set0 := s.sets[h];
    && h in s'.db.invoices && s'.db.invoices[h] == InvoiceRow(set0.preimage, set0.value, SettleRequested)
    && HtlcsOf(s'.db, h) == set0.htlcs
    && (forall h' :: h' != h ==> (h' in s'.db.invoices <==> h' in s.db.invoices))
    && |s.log| <= |s'.log| && ResolvesAll(s, h, s'.log[|s.log|..], Settle(set0.preimage, false))
    && s' == Resolved(s, h, s'.log[|s.log|..]).(db := s'.db)
  }

  lemma SettleStores(c: Config, env: Environment, s: State, h: Hash, order: seq<HtlcKey>)
    requires Inv(c, env, s) && EnvOk(c, env) && h in s.sets
    ensures SettlesSet(s, h, CommitAndSettle(s, h, order))
  {
    hide Inv, EnvOk, CommitAndSettle, Emitted, Ordered, ResolvesAll, DbInv;
    var set0, s' := s.sets[h], CommitAndSettle(s, h, order);
    var entries := Emitted(s.subs, Ordered(order, set0.htlcs.Keys), Settle(set0.preimage, false));
    AdmittedHash(c, env, s, h);
    CommitAndSettleEffect(s, h, order);
    InvHasStore(c, env, s);
    InsertedKeys(s.db, set0.preimage, set0.value, set0.htlcs);
    EmittedResolvesAll(s, h, order, Settle(set0.preimage, false));
    assert s'.log[|s.log|..] == entries;
  }

  lemma InvHasStore(c: Config, env: Environment, s: State)
    requires Inv(c, env, s)
    ensures DbInv(s.db)
  {
  }

  // ----- Cancel requests -----

  /** A cancel request for a set in memory succeeds if and only if it names a paid set; every waiting
      arrival is then failed and nothing is stored. Otherwise nothing changes. */
  lemma CancelInMemory(
    c: Config, env: Environment, states: seq<State>, events: seq<Event>, i: nat, h: Hash, id: SetID, choice: Choice)
    requires IsRun(c, env, states, events) && EnvOk(c, env) && i < |states| && h in states[i].sets
    ensures CancelReply(states[i], h, id, choice) == if NamesPaidSet(states[i], h, id) then Ok else ErrInvoiceNotFound
    ensures var s, s' := states[i], Step(c, env, states[i], CancelRequest(h, id, choice));
            if NamesPaidSet(s, h, id)
            then && |s.log| <= |s'.log| && ResolvesAll(s, h, s'.log[|s.log|..], Fail(InvoiceNotOpen))
                 && s' == Resolved(s, h, s'.log[|s.log|..])
            else s' == s
  {
    hide Inv, EnvOk, Enabled, HtlcSet.IsComplete, DeleteAll, SetIdOf, Sum, Emitted, Ordered, ResolvesAll;
    var s := states[i];
    RunKeepsInv(c, env, states, events, i);
    CompleteIsPaid(c, env, s, h);
    DeleteAllEffect(s, h, choice.keyOrder, Fail(InvoiceNotOpen));
    EmittedResolvesAll(s, h, choice.keyOrder, Fail(InvoiceNotOpen));
    var entries := Emitted(s.subs, Ordered(choice.keyOrder, s.sets[h].htlcs.Keys), Fail(InvoiceNotOpen));
    assert (s.log + entries)[|s.log|..] == entries;
  }

  // ----- Hashes that are not in memory -----

  /** Without a set in memory the database decides; if it cannot be read, the process ends. An unknown
      hash is not found, and no request changes anything. */
  lemma RequestsOutsideMemory(c: Config, env: Environment, s: State, h: Hash, id: SetID, choice: Choice)
    requires h !in s.sets
    ensures !choice.getOk ==>
              && SettleReply(c, s, h, id, choice) == CancelReply(s, h, id, choice) == Stopped
              && Step(c, env, s, SettleRequest(h, id, choice)) == Crashed(s)
              && Step(c, env, s, CancelRequest(h, id, choice)) == Crashed(s)
    ensures choice.getOk && h !in s.db.invoices ==>
              SettleReply(c, s, h, id, choice) == CancelReply(s, h, id, choice) == ErrInvoiceNotFound
    ensures choice.getOk ==>
              Step(c, env, s, SettleRequest(h, id, choice)) == Step(c, env, s, CancelRequest(h, id, choice)) == s
  {
    hide SetIdOf;
  }
}
