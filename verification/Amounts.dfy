/** Sums of the amounts in an htlc map. */
module Amounts {
  import opened Types

  /** The mathematical sum of all amounts, in whatever order they are added. */
  ghost function Sum(m: map<HtlcKey, int>): int {
    if m == map[] then 0 else
      var k :| k in m;
      m[k] + Sum(m - {k})
  }

  lemma {:induction false} SumRemove(m: map<HtlcKey, int>, k: HtlcKey)
    requires k in m
    ensures Sum(m) == m[k] + Sum(m - {k})
    decreases |m|
  {
    var k' :| k' in m && Sum(m) == m[k'] + Sum(m - {k'});
    if k' != k {
      SumRemove(m - {k'}, k);
      SumRemove(m - {k}, k');
      assert m - {k'} - {k} == m - {k} - {k'};
    }
  }

  lemma SumEmpty()
    ensures Sum(map[]) == 0
  {
  }

  lemma SumAdd(m: map<HtlcKey, int>, k: HtlcKey, amt: int)
    requires k !in m
    ensures Sum(m[k := amt]) == Sum(m) + amt
  {
    SumRemove(m[k := amt], k);
    assert m[k := amt] - {k} == m;
  }

  lemma {:induction false} SumPositive(m: map<HtlcKey, int>)
    requires forall k :: k in m ==> m[k] > 0
    ensures Sum(m) >= 0
    ensures m != map[] ==> Sum(m) > 0
    decreases |m|
  {
    if m != map[] {
      var k :| k in m;
      SumRemove(m, k);
      SumPositive(m - {k});
    }
  }

  /** Adding up in 64 bits, with wrap-around at every addition, in any order. */
  method Total(m: map<HtlcKey, int>) returns (total: int64)
    requires forall k :: k in m ==> -TWO_63 <= m[k] < TWO_63
    ensures total == ToInt64(Sum(m))
  {
    hide ToInt64, Sum;
    total := 0;
    var rest := m;
    SumEmpty();
    while rest != map[]
      invariant forall k :: k in rest ==> k in m && rest[k] == m[k]
      invariant ToInt64(total + Sum(rest)) == ToInt64(Sum(m))
      decreases |rest|
    {
      var k :| k in rest;
      SumRemove(rest, k);
      WrapAbsorbs(total + rest[k], Sum(rest - {k}));
      total := ToInt64(total + rest[k]);
      rest := rest - {k};
    }
  }

  lemma WrapAbsorbs(a: int, b: int)
    ensures ToInt64(ToInt64(a) + b) == ToInt64(a + b)
  {
    var q := a / TWO_64;
    var u := a % TWO_64;
    assert a == q * TWO_64 + u;
    var w := ToInt64(a);
    var n := if u < TWO_63 then q else q + 1;
    assert a == w + n * TWO_64;
    ModShift(w + b, n);
  }

  lemma {:induction false} ModShift(x: int, n: int)
    ensures (x + n * TWO_64) % TWO_64 == x % TWO_64
    decreases if n < 0 then -n else n
  {
    if n > 0 {
      ModShift(x, n - 1);
      assert (x + (n - 1) * TWO_64) + TWO_64 == x + n * TWO_64;
    } else if n < 0 {
      ModShift(x, n + 1);
      assert (x + n * TWO_64) + TWO_64 == x + (n + 1) * TWO_64;
    }
  }
}
