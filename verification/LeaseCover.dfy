/** Whether a delivery lease covers its endpoint timeouts (quota_relay.go), in 64-bit arithmetic. */
module LeaseCover {

  /** time.Duration; every operation on it is checked to stay in range. */
  newtype int64 = x: int | -0x8000_0000_0000_0000 <= x < 0x8000_0000_0000_0000

  function Sum(timeouts: seq<int64>): int {
    if timeouts == [] then 0 else Sum(timeouts[..|timeouts| - 1]) + timeouts[|timeouts| - 1] as int
  }

  predicate AllPositive(timeouts: seq<int64>) {
    forall i | 0 <= i < |timeouts| :: timeouts[i] > 0
  }

  /** Every timeout may run out twice within the lease, with at least 2 ns to spare. */
  predicate Covers(lease: int64, timeouts: seq<int64>) {
    if timeouts == [] then lease > 0
    else AllPositive(timeouts) && lease as int >= 2 * Sum(timeouts) + 2
  }

  lemma {:induction false} LongerSums(timeouts: seq<int64>, n: nat)
    requires AllPositive(timeouts) && n <= |timeouts|
    ensures Sum(timeouts[..n]) <= Sum(timeouts)
    ensures n < |timeouts| ==> Sum(timeouts[..n]) + timeouts[n] as int <= Sum(timeouts)
  {
    if n == |timeouts| {
      assert timeouts[..n] == timeouts;
    } else {
      var init := timeouts[..|timeouts| - 1];
      LongerSums(init, n);
      assert init[..n] == timeouts[..n];
    }
  }

  /** deliveryLeaseCovers: subtracts as it goes and never overflows. */
  method DeliveryLeaseCovers(lease: int64, timeouts: seq<int64>) returns (covers: bool)
    ensures covers <==> Covers(lease, timeouts)
  {
    var remaining := lease;
    for i := 0 to |timeouts|
      invariant forall j | 0 <= j < i :: timeouts[j] > 0
      invariant remaining as int == lease as int - 2 * Sum(timeouts[..i])
      invariant i > 0 ==> remaining >= 2
    {
      assert timeouts[..i + 1][..i] == timeouts[..i];
      if timeouts[i] <= 0 || remaining <= 0 || timeouts[i] >= remaining / 2 {
        if AllPositive(timeouts) {
          LongerSums(timeouts, i);
        }
        return false;
      }
      remaining := remaining - 2 * timeouts[i];
    }
    assert timeouts[..|timeouts|] == timeouts;
    return remaining > 0;
  }

  lemma {:induction false} SumWithout(timeouts: seq<int64>, i: nat)
    requires i < |timeouts|
    ensures Sum(timeouts) == Sum(timeouts[..i] + timeouts[i + 1..]) + timeouts[i] as int
  {
    var last := |timeouts| - 1;
    if i == last {
      assert timeouts[..i] + timeouts[i + 1..] == timeouts[..last];
    } else {
      SumWithout(timeouts[..last], i);
      assert timeouts[..last][..i] + timeouts[..last][i + 1..] == (timeouts[..i] + timeouts[i + 1..])[..last - 1];
    }
  }

  lemma Without(timeouts: seq<int64>, i: nat)
    requires i < |timeouts|
    ensures multiset(timeouts[..i] + timeouts[i + 1..]) == multiset(timeouts) - multiset{timeouts[i]}
  {
    assert timeouts == timeouts[..i] + ([timeouts[i]] + timeouts[i + 1..]);
  }

  lemma {:induction false} SumOfMultiset(a: seq<int64>, b: seq<int64>)
    requires multiset(a) == multiset(b)
    ensures Sum(a) == Sum(b)
    decreases |a|
  {
    if a == [] {
      assert |multiset(b)| == |b|;
    } else {
      var last := |a| - 1;
      assert a[last] in multiset(b);
      var i :| 0 <= i < |b| && b[i] == a[last];
      Without(a, last);
      Without(b, i);
      assert a[..last] + a[last + 1..] == a[..last];
      SumOfMultiset(a[..last], b[..i] + b[i + 1..]);
      SumWithout(b, i);
    }
  }

  /** The order of the timeouts does not matter. */
  lemma OrderIsIrrelevant(lease: int64, a: seq<int64>, b: seq<int64>)
    requires multiset(a) == multiset(b)
    ensures Covers(lease, a) <==> Covers(lease, b)
  {
    SumOfMultiset(a, b);
    assert |multiset(a)| == |a| && |multiset(b)| == |b|;
    assert forall i | 0 <= i < |a| :: a[i] in multiset(b);
    assert forall i | 0 <= i < |b| :: b[i] in multiset(a);
  }
}
