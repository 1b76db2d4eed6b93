/** Sequences in the order of a strict relation: one per set of elements. */
module Sorting {

  ghost predicate Ascending<T(!new)>(less: (T, T) -> bool, xs: seq<T>) {
    forall i, j | 0 <= i < j < |xs| :: less(xs[i], xs[j])
  }

  ghost predicate Asymmetric<T(!new)>(less: (T, T) -> bool) {
    forall x, y | less(x, y) :: !less(y, x)
  }

  ghost predicate Transitive<T(!new)>(less: (T, T) -> bool) {
    forall x, y, z | less(x, y) && less(y, z) :: less(x, z)
  }

  function Elements<T(==)>(xs: seq<T>): set<T> {
    set x | x in xs
  }

  /** What is sorted cannot depend on the order it was collected in. */
  lemma {:induction false} AscendingIsUnique<T(!new)>(less: (T, T) -> bool, a: seq<T>, b: seq<T>)
    requires Asymmetric(less) && Ascending(less, a) && Ascending(less, b) && Elements(a) == Elements(b)
    ensures a == b
    decreases |a|
  {
    if a != [] {
      LastIsLast(less, a, b);
      InitKeeps(less, a);
      InitKeeps(less, b);
      AscendingIsUnique(less, a[..|a| - 1], b[..|b| - 1]);
    } else if b != [] {
      LastIsLast(less, b, a);
    }
  }

  lemma LastIsLast<T(!new)>(less: (T, T) -> bool, a: seq<T>, b: seq<T>)
    requires Asymmetric(less) && Ascending(less, a) && Ascending(less, b) && a != [] && Elements(a) == Elements(b)
    ensures b != [] && a[|a| - 1] == b[|b| - 1]
  {
    assert a[|a| - 1] in Elements(b);
    var j :| 0 <= j < |b| && b[j] == a[|a| - 1];
    assert b[|b| - 1] in Elements(a);
    var i :| 0 <= i < |a| && a[i] == b[|b| - 1];
  }

  lemma InitKeeps<T(!new)>(less: (T, T) -> bool, xs: seq<T>)
    requires Asymmetric(less) && Ascending(less, xs) && xs != []
    ensures Ascending(less, xs[..|xs| - 1])
    ensures Elements(xs[..|xs| - 1]) == Elements(xs) - {xs[|xs| - 1]}
  {
    forall i | 0 <= i < |xs| - 1 ensures xs[i] != xs[|xs| - 1] {
      assert less(xs[i], xs[|xs| - 1]);
    }
  }

  /** `x` put in its place. */
  function Insert<T>(less: (T, T) -> bool, xs: seq<T>, x: T): seq<T> {
    if xs == [] || less(xs[|xs| - 1], x) then xs + [x]
    else Insert(less, xs[..|xs| - 1], x) + [xs[|xs| - 1]]
  }

  lemma {:induction false} InsertKeeps<T(!new)>(less: (T, T) -> bool, xs: seq<T>, x: T)
    requires Transitive(less) && Ascending(less, xs)
    requires forall i | 0 <= i < |xs| :: less(xs[i], x) || less(x, xs[i])
    ensures Ascending(less, Insert(less, xs, x))
    ensures Elements(Insert(less, xs, x)) == Elements(xs) + {x}
  {
    if xs == [] {
    } else if less(xs[|xs| - 1], x) {
      assert forall i | 0 <= i < |xs| - 1 :: less(xs[i], xs[|xs| - 1]);
    } else {
      var init, last := xs[..|xs| - 1], xs[|xs| - 1];
      InsertKeeps(less, init, x);
      var inserted := Insert(less, init, x);
      forall i | 0 <= i < |inserted| ensures less(inserted[i], last) {
        assert inserted[i] in Elements(inserted);
        assert inserted[i] in init ==> exists k :: 0 <= k < |init| && xs[k] == inserted[i];
      }
      assert xs == init + [last];
      assert Elements(xs) == Elements(init) + {last};
      assert Elements(inserted + [last]) == Elements(inserted) + {last};
    }
  }
}
