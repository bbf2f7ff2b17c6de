/** Sums over the index and the 64-bit arithmetic of the cached total. */
module Totals {

  const U64_MAX: nat := 0xFFFF_FFFF_FFFF_FFFF

  function Min(a: nat, b: nat): nat {
    if a < b then a else b
  }

  function SatAdd(a: nat, b: nat): nat {
    if a + b > U64_MAX then U64_MAX else a + b
  }

  function SatSub(a: nat, b: nat): nat {
    if a < b then 0 else a - b
  }

  /** What `+=` in a release build makes of a true sum. */
  function Wrap(a: nat): (r: nat)
    ensures a <= U64_MAX ==> r == a
  {
    a % (U64_MAX + 1)
  }

  lemma WrapAdd(a: nat, b: nat)
    ensures Wrap(Wrap(a) + b) == Wrap(a + b)
  {
    var m := U64_MAX + 1;
    assert a == m * (a / m) + a % m;
    WrapShift(a % m + b, a / m);
  }

  lemma {:induction false} WrapShift(a: nat, k: nat)
    ensures (a + (U64_MAX + 1) * k) % (U64_MAX + 1) == a % (U64_MAX + 1)
  {
    if k > 0 {
      WrapShift(a, k - 1);
      var b := a + (U64_MAX + 1) * (k - 1);
      assert (b + (U64_MAX + 1)) % (U64_MAX + 1) == b % (U64_MAX + 1);
    }
  }

  ghost function Sum(m: map<string, nat>): nat
    decreases |m|
  {
    if m == map[] then 0
    else
      var k :| k in m;
      assert (m - {k}).Keys == m.Keys - {k};
      m[k] + Sum(m - {k})
  }

  lemma {:induction false} SumRemove(m: map<string, nat>, k: string)
    requires k in m
    ensures Sum(m) == m[k] + Sum(m - {k})
    decreases |m|
  {
    var j :| j in m && Sum(m) == m[j] + Sum(m - {j});
    if j != k {
      assert (m - {j}).Keys == m.Keys - {j} && (m - {k}).Keys == m.Keys - {k};
      SumRemove(m - {j}, k);
      SumRemove(m - {k}, j);
      assert m - {j} - {k} == m - {k} - {j};
    }
  }

  lemma SumUpdate(m: map<string, nat>, k: string, v: nat)
    ensures Sum(m[k := v]) == Sum(m) - (if k in m then m[k] else 0) + v
  {
    var m' := m[k := v];
    SumRemove(m', k);
    assert m' - {k} == m - {k};
    if k in m {
      SumRemove(m, k);
    } else {
      assert m - {k} == m;
    }
  }

  /** Replacing an entry and adjusting the total the way the store does keeps the total exact,
      and does so only as long as the true sum fits 64 bits. */
  lemma SaturatingUpdateExactIff(m: map<string, nat>, total: nat, k: string, v: nat)
    requires total == Sum(m)
    ensures SatAdd(SatSub(total, if k in m then m[k] else 0), v) == Sum(m[k := v])
            <==> Sum(m[k := v]) <= U64_MAX
  {
    SumUpdate(m, k, v);
    if k in m {
      SumRemove(m, k);
    }
  }
}
