/** Idempotency keys and request digests of checkout reservations (store_errors.go). */
module CheckoutKeys {
  import opened Model
  import Decimal

  const NUL := '\0'

  /** What is hashed: generation 1 carries no suffix, later ones a decimal suffix. */
  function KeyMaterial(key: OrderKey, generation: int): string {
    var material := key.tenantId + [NUL] + key.orderId;
    if generation > 1 then material + [NUL] + Decimal.Print(generation) else material
  }

  function IdempotencyKey(key: OrderKey, generation: int): Sha256 {
    Sha256(KeyMaterial(key, generation))
  }

  function RequestDigest(request: CheckoutRequest): Sha256 {
    Sha256(request.successUrl + [NUL] + request.cancelUrl)
  }

  predicate NulFree(s: string) {
    NUL !in s
  }

  /** What validIdentity guarantees of tenant and order ids, as far as the keys need it. */
  predicate KeyIdentity(key: OrderKey) {
    NulFree(key.tenantId) && NulFree(key.orderId)
  }

  /** A text determines its part before and after the first NUL. */
  lemma SplitAtNul(a: string, b: string, c: string, d: string)
    requires NulFree(a) && NulFree(c)
    requires a + [NUL] + b == c + [NUL] + d
    ensures a == c && b == d
  {
    var left, right := a + [NUL] + b, c + [NUL] + d;
    assert left[|a|] == NUL && right[|c|] == NUL;
    assert forall i | 0 <= i < |a| :: left[i] == a[i];
    assert forall i | 0 <= i < |c| :: right[i] == c[i];
    assert |a| == |c|;
    assert a == left[..|a|] && c == right[..|c|];
    assert b == left[|a| + 1..] && d == right[|c| + 1..];
  }

  /** The order id and the generation can be read back from the text after the tenant. */
  lemma SuffixInjective(order: string, generation: int, order': string, generation': int)
    requires NulFree(order) && NulFree(order') && generation >= 1 && generation' >= 1
    requires Suffix(order, generation) == Suffix(order', generation')
    ensures order == order' && generation == generation'
  {
    if generation > 1 && generation' > 1 {
      SplitAtNul(order, Decimal.Print(generation), order', Decimal.Print(generation'));
      Decimal.PrintInjective(generation, generation');
    } else {
      assert NUL in Suffix(order, generation) <==> generation > 1;
      assert NUL in Suffix(order', generation') <==> generation' > 1;
    }
  }

  function Suffix(order: string, generation: int): string {
    if generation > 1 then order + [NUL] + Decimal.Print(generation) else order
  }

  /** Keys of distinct (tenant, order, generation) triples differ, suffixed or not. */
  lemma KeysNeverCollide(key: OrderKey, generation: int, key': OrderKey, generation': int)
    requires KeyIdentity(key) && KeyIdentity(key')
    requires generation >= 1 && generation' >= 1
    ensures IdempotencyKey(key, generation) == IdempotencyKey(key', generation')
       <==> key == key' && generation == generation'
  {
    if IdempotencyKey(key, generation) == IdempotencyKey(key', generation') {
      MaterialSplits(key, generation);
      MaterialSplits(key', generation');
      SplitAtNul(key.tenantId, Suffix(key.orderId, generation),
                 key'.tenantId, Suffix(key'.orderId, generation'));
      SuffixInjective(key.orderId, generation, key'.orderId, generation');
    }
  }

  lemma MaterialSplits(key: OrderKey, generation: int)
    ensures KeyMaterial(key, generation) == key.tenantId + [NUL] + Suffix(key.orderId, generation)
  {
    if generation > 1 {
      var suffix := [NUL] + Decimal.Print(generation);
      assert (key.tenantId + [NUL] + key.orderId) + suffix == key.tenantId + [NUL] + (key.orderId + suffix);
      assert key.orderId + suffix == key.orderId + [NUL] + Decimal.Print(generation);
      assert KeyMaterial(key, generation) == (key.tenantId + [NUL] + key.orderId) + suffix;
    }
  }
}
