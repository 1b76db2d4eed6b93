/** The order sort.Strings uses, and the sorted sequence of a set of strings. */
module Strings {
  import opened Sorting

  /** Lexicographic order; on UTF-8 text Go's byte order is the order of the code points. */
  predicate AtMost(a: string, b: string) {
    a == "" || (b != "" && (a[0] < b[0] || (a[0] == b[0] && AtMost(a[1..], b[1..]))))
  }

  predicate Below(a: string, b: string) {
    a != b && AtMost(a, b)
  }

  lemma {:induction false} AtMostTotal(a: string, b: string)
    ensures AtMost(a, b) || AtMost(b, a)
  {
    if a != "" && b != "" && a[0] == b[0] {
      AtMostTotal(a[1..], b[1..]);
    }
  }

  lemma {:induction false} AtMostAntisymmetric(a: string, b: string)
    requires AtMost(a, b) && AtMost(b, a)
    ensures a == b
  {
    if a != "" && b != "" {
      AtMostAntisymmetric(a[1..], b[1..]);
      assert a == [a[0]] + a[1..] && b == [b[0]] + b[1..];
    }
  }

  lemma {:induction false} AtMostTransitive(a: string, b: string, c: string)
    requires AtMost(a, b) && AtMost(b, c)
    ensures AtMost(a, c)
  {
    if a != "" && b != "" && c != "" && a[0] == b[0] == c[0] {
      AtMostTransitive(a[1..], b[1..], c[1..]);
    }
  }

  lemma BelowIsStrictOrder()
    ensures Asymmetric(Below) && Transitive(Below)
    ensures forall a, b | a != b :: Below(a, b) || Below(b, a)
  {
    forall a, b | Below(a, b) ensures !Below(b, a) {
      if Below(b, a) {
        AtMostAntisymmetric(a, b);
      }
    }
    forall a, b, c | Below(a, b) && Below(b, c) ensures Below(a, c) {
      AtMostTransitive(a, b, c);
      if a == c {
        AtMostAntisymmetric(a, b);
      }
    }
    forall a, b | a != b ensures Below(a, b) || Below(b, a) {
      AtMostTotal(a, b);
    }
  }

  /** The names of a set in order. */
  ghost predicate Lists(names: seq<string>, s: set<string>) {
    Ascending(Below, names) && Elements(names) == s
  }

  lemma InsertLists(names: seq<string>, s: set<string>, name: string)
    requires Lists(names, s) && name !in s
    ensures Lists(Insert(Below, names, name), s + {name})
  {
    BelowIsStrictOrder();
    assert forall i | 0 <= i < |names| :: names[i] in Elements(names);
    InsertKeeps(Below, names, name);
  }

  lemma {:induction false} SortedExists(s: set<string>) returns (names: seq<string>)
    ensures Lists(names, s)
  {
    if s == {} {
      names := [];
    } else {
      var x :| x in s;
      var rest := SortedExists(s - {x});
      InsertLists(rest, s - {x}, x);
      assert s - {x} + {x} == s;
      names := Insert(Below, rest, x);
    }
  }

  /** The sorted sequence of a set. */
  ghost function Ordered(s: set<string>): (names: seq<string>)
    ensures forall i | 0 <= i < |names| :: names[i] in s
  {
    assert exists n :: Lists(n, s) by {
      var n := SortedExists(s);
    }
    var names :| Lists(names, s);
    assert forall i | 0 <= i < |names| :: names[i] in Elements(names);
    names
  }

  lemma OrderedLists(s: set<string>)
    ensures Lists(Ordered(s), s)
  {
    var names := SortedExists(s);
  }

  /** Collecting names in whatever order a map yields them and sorting them, as sort.Strings does. */
  method SortedNames(s: set<string>) returns (names: seq<string>)
    ensures names == Ordered(s)
  {
    var rest := s;
    names := [];
    while rest != {}
      invariant rest <= s && Lists(names, s - rest)
      decreases rest
    {
      var name :| name in rest;
      InsertLists(names, s - rest, name);
      names := Insert(Below, names, name);
      assert s - rest + {name} == s - (rest - {name});
      rest := rest - {name};
    }
    assert s - rest == s;
    OrderedLists(s);
    BelowIsStrictOrder();
    AscendingIsUnique(Below, names, Ordered(s));
  }
}
