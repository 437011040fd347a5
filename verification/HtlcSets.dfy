/** The in-memory htlc sets: objects that are shared between the registry and their parent, which
    keeps them by payment hash. What the source guards with a panic is a precondition here. */
module HtlcSets {
  import opened Types
  import opened SetId
  import opened Amounts
  import opened Registry

  datatype HtlcSetParameters = HtlcSetParameters(preimage: Preimage, value: int64, paymentAddr: PaymentAddr)

  class HtlcSetImpl {
    const params: HtlcSetParameters
    const parent: HtlcSetsImpl
    var htlcs: map<HtlcKey, int64>
    /** History: when each htlc was added, and when the set became complete. */
    var since: map<HtlcKey, Time>
    var completed: Option<Completion>

    function Hash(): Hash {
      Sha256(params.preimage)
    }

    ghost function View(): HtlcSet
      reads this
    {
      HtlcSet(params.preimage, params.value, params.paymentAddr, htlcs, since, completed)
    }

    constructor (parent: HtlcSetsImpl, params: HtlcSetParameters)
      ensures this.parent == parent && this.params == params
      ensures View() == HtlcSet(params.preimage, params.value, params.paymentAddr, map[], map[], None)
    {
      this.parent, this.params := parent, params;
      htlcs, since, completed := map[], map[], None;
    }

    predicate Accepted(key: HtlcKey)
      reads this
    {
      key in htlcs
    }

    /** addHtlc */
    method AddHtlc(key: HtlcKey, amt: int64, now: Time)
      requires !Accepted(key)
      modifies this
      ensures View() == old(View()).(htlcs := old(htlcs)[key := amt], since := old(since)[key := now])
    {
      htlcs := htlcs[key := amt];
      since := since[key := now];
    }

    /** totalSetAmt adds up in 64 bits. */
    method TotalSetAmt() returns (total: int64)
      ensures total == ToInt64(Sum(htlcs))
    {
      total := Total(htlcs);
    }

    /** isComplete returns the id of a complete set. */
    method IsComplete() returns (id: Option<SetID>)
      ensures id == if View().IsComplete() then Some(View().Id()) else None
    {
      var total := TotalSetAmt();
      if total != params.value {
        return None;
      }
      var keys := Elements(htlcs.Keys);
      SetIdOfEnumeration(keys, htlcs.Keys);
      var hash := NewSetID(keys);
      id := Some(hash);
    }

    /** deleteHtlc; a set without htlcs is removed from its parent. */
    method DeleteHtlc(key: HtlcKey)
      requires Accepted(key) && Hash() in parent.sets
      modifies this, parent
      ensures View() == old(View()).(htlcs := old(htlcs) - {key}, since := old(since) - {key})
      ensures parent.sets == if htlcs == map[] then old(parent.sets) - {Hash()} else old(parent.sets)
    {
      htlcs := htlcs - {key};
      since := since - {key};
      if htlcs == map[] {
        parent.Delete(Hash());
      }
    }
  }

  class HtlcSetsImpl {
    var sets: map<Hash, HtlcSetImpl>

    /** Every set is kept under its own hash; so no set is kept twice. */
    ghost predicate Valid()
      reads this
    {
      forall h :: h in sets ==> sets[h].parent == this && sets[h].Hash() == h
    }

    ghost function Objects(): set<HtlcSetImpl>
      reads this
    {
      set h | h in sets :: sets[h]
    }

    ghost function View(): map<Hash, HtlcSet>
      reads this, Objects()
    {
      map h | h in sets :: sets[h].View()
    }

    constructor ()
      ensures Valid() && sets == map[] && View() == map[]
    {
      sets := map[];
    }

    twostate lemma Unchanged()
      requires sets == old(sets)
      requires forall h :: h in old(sets) ==> unchanged(old(sets)[h])
      ensures View() == old(View())
    {
    }

    /** When one set was added or one set object has changed, the others are as they were. */
    twostate lemma OneChanged(h: Hash)
      requires h in sets && sets == old(sets)[h := sets[h]]
      requires forall h' :: h' in old(sets) && h' != h ==> unchanged(old(sets)[h'])
      ensures View() == old(View())[h := sets[h].View()]
    {
    }

    /** When an htlc was deleted from one set, and the set with its last htlc, the others are kept. */
    twostate lemma OneShrunk(h: Hash)
      requires old(Valid()) && h in old(sets)
      requires forall h' :: h' in old(sets) && h' != h ==> unchanged(old(sets)[h'])
      requires sets == if old(sets)[h].htlcs == map[] then old(sets) - {h} else old(sets)
      ensures Valid()
      ensures View() == if old(sets)[h].htlcs == map[] then old(View()) - {h} else old(View())[h := old(sets)[h].View()]
    {
    }

    /** add: a new set with its first htlc. */
    method Add(params: HtlcSetParameters, key: HtlcKey, amt: int64, now: Time) returns (s: HtlcSetImpl)
      requires Valid() && Sha256(params.preimage) !in sets
      modifies this
      ensures Valid() && fresh(s) && s.params == params && s.parent == this
      ensures sets == old(sets)[Sha256(params.preimage) := s]
      ensures View() == old(View())[Sha256(params.preimage) := s.View()]
      ensures s.View() == HtlcSet(params.preimage, params.value, params.paymentAddr, map[key := amt], map[key := now],
                None)
    {
      hide View;
      s := new HtlcSetImpl(this, params);
      s.AddHtlc(key, amt, now);
      sets := sets[Sha256(params.preimage) := s];
      OneChanged(s.Hash());
    }

    method Delete(hash: Hash)
      requires hash in sets
      modifies this
      ensures sets == old(sets) - {hash} && View() == old(View()) - {hash}
      ensures old(Valid()) ==> Valid()
    {
      sets := sets - {hash};
    }
  }

  /** Collect the elements of a map or set in some order. */
  method Elements<T(==,!new)>(elements: set<T>) returns (s: seq<T>)
    ensures Enumerates(s, elements)
  {
    s := [];
    var rest := elements;
    while rest != {}
      invariant rest <= elements
      invariant Enumerates(s, elements - rest)
    {
      var x :| x in rest;
      s := s + [x];
      rest := rest - {x};
    }
  }
}
