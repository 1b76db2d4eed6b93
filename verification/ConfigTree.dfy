/**
 Configuration trees as values (config/source.go, config/secrets.go): what merging a chain of sources and
 resolving secret references mean. ConfigLoader carries both out in place.
 */
module ConfigTree {
  import opened Wrappers
  import Chars = Text

  /** A decoded configuration value; `Atom` stands for numbers, booleans, times and null. */
  datatype Value =
    | Text(text: string)
    | Atom(atom: int)
    | Items(items: seq<Value>)
    | Table(entries: map<string, Value>)

  const EMPTY := Table(map[])

  // ------------------------------------------------------------------- merging

  /** Tables are merged key by key; anything else is replaced. */
  function Merge(d: Value, s: Value): Value {
    if d.Table? && s.Table? then
      Table(map k | k in d.entries.Keys + s.entries.Keys ::
              if k in d.entries && k in s.entries then Merge(d.entries[k], s.entries[k])
              else if k in s.entries then s.entries[k]
              else d.entries[k])
    else s
  }

  /** The accumulator after the first `n` sources. */
  function MergedTo(sources: seq<Value>, n: nat): Value
    requires n <= |sources|
  {
    if n == 0 then EMPTY else Merge(MergedTo(sources, n - 1), sources[n - 1])
  }

  function Merged(sources: seq<Value>): Value {
    MergedTo(sources, |sources|)
  }

  predicate AllTables(sources: seq<Value>) {
    forall i | 0 <= i < |sources| :: sources[i].Table?
  }

  lemma {:induction false} MergedIsTable(sources: seq<Value>, n: nat)
    requires AllTables(sources) && n <= |sources|
    ensures MergedTo(sources, n).Table?
  {
    if n > 0 {
      MergedIsTable(sources, n - 1);
    }
  }

  /** The value at a path. */
  function At(v: Value, path: seq<string>): Option<Value> {
    if path == [] then Some(v)
    else if v.Table? && path[0] in v.entries then At(v.entries[path[0]], path[1..])
    else None
  }

  ghost predicate LeafAt(v: Value, path: seq<string>, leaf: Value) {
    At(v, path) == Some(leaf) && !leaf.Table?
  }

  /** The source sets the path, or something other than a table at a proper prefix of it. */
  ghost predicate Shadows(v: Value, path: seq<string>) {
    At(v, path).Some? || exists n | 0 <= n < |path| :: Blocks(v, path, n)
  }

  ghost predicate Blocks(v: Value, path: seq<string>, n: nat)
    requires n < |path|
  {
    At(v, path[..n]).Some? && !At(v, path[..n]).value.Table?
  }

  /** Shadowing, one step down the path. */
  lemma ShadowsBelow(v: Value, path: seq<string>)
    requires v.Table? && path != []
    ensures Shadows(v, path) <==> path[0] in v.entries && Shadows(v.entries[path[0]], path[1..])
  {
    if path[0] in v.entries {
      var child, rest := v.entries[path[0]], path[1..];
      forall n: nat | n < |rest| ensures Blocks(v, path, n + 1) <==> Blocks(child, rest, n) {
        assert path[..n + 1][0] == path[0] && path[..n + 1][1..] == rest[..n];
      }
      if Shadows(v, path) && At(v, path).None? {
        var n: nat :| n < |path| && Blocks(v, path, n);
        assert n > 0;
        assert Blocks(child, rest, n - 1);
      }
      if Shadows(child, rest) && At(child, rest).None? {
        var n: nat :| n < |rest| && Blocks(child, rest, n);
        assert Blocks(v, path, n + 1);
      }
    } else {
      forall n: nat | n < |path| ensures !Blocks(v, path, n) {
        if n > 0 {
          assert path[..n][0] == path[0];
        }
      }
    }
  }

  /** A leaf of a merge comes from the source, or from below where the source does not shadow it. */
  lemma {:induction false} LeafOfMerge(d: Value, s: Value, path: seq<string>, leaf: Value)
    requires d.Table? && s.Table? && path != []
    ensures LeafAt(Merge(d, s), path, leaf) <==> LeafAt(s, path, leaf) || (LeafAt(d, path, leaf) && !Shadows(s, path))
    decreases path
  {
    var k, rest := path[0], path[1..];
    ShadowsBelow(s, path);
    if k in d.entries && k in s.entries {
      var dk, sk := d.entries[k], s.entries[k];
      assert Merge(d, s).entries[k] == Merge(dk, sk);
      assert At(Merge(d, s), path) == At(Merge(dk, sk), rest);
      if rest == [] {
        assert Shadows(sk, rest);
      } else if dk.Table? && sk.Table? {
        LeafOfMerge(dk, sk, rest, leaf);
      } else if !sk.Table? {
        assert rest[..0] == [] && Blocks(sk, rest, 0);
        assert Shadows(s, path);
        assert At(s, path) == At(sk, rest) == None;
      } else {
        assert Merge(dk, sk) == sk && At(dk, rest) == None;
        assert At(s, path) == At(sk, rest) && At(d, path) == At(dk, rest);
      }
    }
  }

  /**
   What survives: a value other than a table is at a path of the merged configuration exactly when
   some source has it there and no later source sets the path or puts a non-table above it.
   */
  lemma {:induction false} LeafSurvives(sources: seq<Value>, n: nat, path: seq<string>, leaf: Value)
    requires AllTables(sources) && n <= |sources| && path != []
    ensures LeafAt(MergedTo(sources, n), path, leaf) <==>
            exists i: nat :: i < n && Survivor(sources, i, n, path, leaf)
  {
    if n > 0 {
      var s := sources[n - 1];
      LeafSurvives(sources, n - 1, path, leaf);
      MergedIsTable(sources, n - 1);
      LeafOfMerge(MergedTo(sources, n - 1), s, path, leaf);
      if LeafAt(s, path, leaf) {
        assert Survivor(sources, n - 1, n, path, leaf);
      } else if LeafAt(MergedTo(sources, n), path, leaf) {
        var i: nat :| i < n - 1 && Survivor(sources, i, n - 1, path, leaf);
        assert Survivor(sources, i, n, path, leaf);
      } else {
        forall i: nat | i < n - 1 ensures !Survivor(sources, i, n, path, leaf) {
          assert Survivor(sources, i, n, path, leaf) ==> Survivor(sources, i, n - 1, path, leaf);
        }
      }
    }
  }

  /** Source `i` has the leaf and no source after it and before `n` shadows the path. */
  ghost predicate Survivor(sources: seq<Value>, i: nat, n: nat, path: seq<string>, leaf: Value)
    requires i < n <= |sources|
  {
    LeafAt(sources[i], path, leaf) && forall j | i < j < n :: !Shadows(sources[j], path)
  }

  /** Merging a value with itself, or once more with what was merged last, changes nothing. */
  lemma {:induction false} MergeAgain(d: Value, s: Value)
    ensures Merge(s, s) == s
    ensures Merge(Merge(d, s), s) == Merge(d, s)
    decreases s
  {
    if s.Table? {
      forall k | k in s.entries
        ensures Merge(s.entries[k], s.entries[k]) == s.entries[k]
        ensures d.Table? && k in d.entries ==>
                  Merge(Merge(d.entries[k], s.entries[k]), s.entries[k]) == Merge(d.entries[k], s.entries[k])
      {
        MergeAgain(if d.Table? && k in d.entries then d.entries[k] else EMPTY, s.entries[k]);
      }
      assert Merge(s, s).entries == s.entries;
      if d.Table? {
        assert Merge(Merge(d, s), s).entries == Merge(d, s).entries;
      }
    }
  }

  /** All that `s` says is in `d` already. */
  predicate Within(s: Value, d: Value) {
    if s.Table? && d.Table? then forall k | k in s.entries :: k in d.entries && Within(s.entries[k], d.entries[k])
    else s == d
  }

  /** A merge changes nothing exactly if the source says nothing new. */
  lemma {:induction false} MergeOfNothingNew(d: Value, s: Value)
    ensures Merge(d, s) == d <==> Within(s, d)
    decreases s
  {
    if d.Table? && s.Table? {
      forall k | k in s.entries && k in d.entries
        ensures Merge(d.entries[k], s.entries[k]) == d.entries[k] <==> Within(s.entries[k], d.entries[k])
      {
        MergeOfNothingNew(d.entries[k], s.entries[k]);
      }
      if Within(s, d) {
        NothingNew(d, s);
      }
      if Merge(d, s) == d {
        NothingAdded(d, s);
      }
    }
  }

  lemma NothingNew(d: Value, s: Value)
    requires d.Table? && s.Table?
    requires forall k | k in s.entries :: k in d.entries && Merge(d.entries[k], s.entries[k]) == d.entries[k]
    ensures Merge(d, s) == d
  {
    MergedEntries(d, s);
    SameEntries(Merge(d, s).entries, d.entries);
  }

  lemma SameEntries(a: map<string, Value>, b: map<string, Value>)
    requires a.Keys == b.Keys && forall k | k in b :: a[k] == b[k]
    ensures a == b
  {
  }

  lemma MergedEntries(d: Value, s: Value)
    requires d.Table? && s.Table?
    ensures
      var merged := Merge(d, s);
      && merged.Table? && merged.entries.Keys == d.entries.Keys + s.entries.Keys
      && forall k | k in merged.entries ::
           merged.entries[k] ==
           if k !in s.entries then d.entries[k]
           else if k in d.entries then Merge(d.entries[k], s.entries[k]) else s.entries[k]
  {
  }

  lemma NothingAdded(d: Value, s: Value)
    requires d.Table? && s.Table? && Merge(d, s) == d
    ensures forall k | k in s.entries :: k in d.entries && Merge(d.entries[k], s.entries[k]) == d.entries[k]
  {
    MergedEntries(d, s);
    forall k | k in s.entries ensures k in d.entries && Merge(d.entries[k], s.entries[k]) == d.entries[k] {
      assert k in Merge(d, s).entries;
    }
  }

  lemma RemergingTheLastSource(sources: seq<Value>)
    requires sources != []
    ensures Merged(sources + [sources[|sources| - 1]]) == Merged(sources)
  {
    var more := sources + [sources[|sources| - 1]];
    MergedPrefix(sources, more, |sources|);
    MergeAgain(MergedTo(sources, |sources| - 1), sources[|sources| - 1]);
  }

  lemma {:induction false} MergedPrefix(sources: seq<Value>, more: seq<Value>, n: nat)
    requires sources <= more && n <= |sources|
    ensures MergedTo(sources, n) == MergedTo(more, n)
  {
    if n > 0 {
      MergedPrefix(sources, more, n - 1);
    }
  }

  // ------------------------------------------------------------------- secrets

  const PREFIX := "secret://"

  /** What a registered provider answers for a path; repeated calls answer the same. */
  type Resolver = string -> Result<string, string>
  type Resolvers = map<string, Resolver>

  predicate IsSecret(s: string) {
    PREFIX <= s
  }

  /** resolveIfSecret: None for text that is no reference. */
  function ResolveIfSecret(s: string, resolvers: Resolvers): Result<Option<string>, string> {
    if !IsSecret(s) then Ok(None)
    else
      var rest := s[|PREFIX|..];
      if '/' !in rest || rest[0] == '/' then Err("malformed secret URL")
      else
        var slash := Chars.IndexOf(rest, '/');
        if rest[slash + 1..] == "" then Err("empty path")
        else if rest[..slash] !in resolvers then Err("no secret resolver registered")
        else
          var answer := resolvers[rest[..slash]](rest[slash + 1..]);
          if answer.Err? then Err(answer.error) else Ok(Some(answer.value))
  }

  predicate TextResolves(s: string, resolvers: Resolvers) {
    ResolveIfSecret(s, resolvers).Ok?
  }

  /** The text a reference stands for, or the text itself. */
  function TextFor(s: string, resolvers: Resolvers): string {
    var r := ResolveIfSecret(s, resolvers);
    if r.Ok? && r.value.Some? then r.value.value else s
  }

  /** Every reference in the value resolves. */
  predicate Resolves(v: Value, resolvers: Resolvers) {
    match v
    case Text(s) => TextResolves(s, resolvers)
    case Atom(_) => true
    case Items(items) => forall i | 0 <= i < |items| :: Resolves(items[i], resolvers)
    case Table(entries) => forall k | k in entries :: Resolves(entries[k], resolvers)
  }

  /** The value with every reference replaced. */
  function Resolved(v: Value, resolvers: Resolvers): Value {
    match v
    case Text(s) => Text(TextFor(s, resolvers))
    case Atom(_) => v
    case Items(items) => Items(seq(|items|, i requires 0 <= i < |items| => Resolved(items[i], resolvers)))
    case Table(entries) => Table(map k | k in entries :: Resolved(entries[k], resolvers))
  }

  lemma {:induction false} MergeResolves(d: Value, s: Value, resolvers: Resolvers)
    requires Resolves(d, resolvers) && Resolves(s, resolvers)
    ensures Resolves(Merge(d, s), resolvers)
    decreases s
  {
    if d.Table? && s.Table? {
      forall k | k in d.entries && k in s.entries ensures Resolves(Merge(d.entries[k], s.entries[k]), resolvers) {
        MergeResolves(d.entries[k], s.entries[k], resolvers);
      }
    }
  }

  /** Resolving a merge is merging the resolved trees. */
  lemma {:induction false} ResolutionCommutes(d: Value, s: Value, resolvers: Resolvers)
    ensures Resolved(Merge(d, s), resolvers) == Merge(Resolved(d, resolvers), Resolved(s, resolvers))
    decreases s
  {
    if d.Table? && s.Table? {
      forall k | k in d.entries && k in s.entries
        ensures Resolved(Merge(d.entries[k], s.entries[k]), resolvers) ==
                Merge(Resolved(d.entries[k], resolvers), Resolved(s.entries[k], resolvers))
      {
        ResolutionCommutes(d.entries[k], s.entries[k], resolvers);
      }
      TablesCommute(d, s, resolvers);
    }
  }

  lemma TablesCommute(d: Value, s: Value, resolvers: Resolvers)
    requires d.Table? && s.Table?
    requires forall k | k in d.entries && k in s.entries ::
               Resolved(Merge(d.entries[k], s.entries[k]), resolvers) ==
               Merge(Resolved(d.entries[k], resolvers), Resolved(s.entries[k], resolvers))
    ensures Resolved(Merge(d, s), resolvers) == Merge(Resolved(d, resolvers), Resolved(s, resolvers))
  {
    assert Resolved(Merge(d, s), resolvers).entries ==
           Merge(Resolved(d, resolvers), Resolved(s, resolvers)).entries;
  }

  function ResolvedAll(sources: seq<Value>, resolvers: Resolvers): seq<Value> {
    seq(|sources|, i requires 0 <= i < |sources| => Resolved(sources[i], resolvers))
  }

  lemma ChainCommutes(sources: seq<Value>, n: nat, resolvers: Resolvers)
    requires n <= |sources| && forall i | 0 <= i < |sources| :: Resolves(sources[i], resolvers)
    ensures Resolves(MergedTo(sources, n), resolvers)
    ensures Resolved(MergedTo(sources, n), resolvers) == MergedTo(ResolvedAll(sources, resolvers), n)
  {
    ChainStarts(sources, resolvers);
    for k := 0 to n
      invariant Resolves(MergedTo(sources, k), resolvers)
      invariant Resolved(MergedTo(sources, k), resolvers) == MergedTo(ResolvedAll(sources, resolvers), k)
    {
      ChainGoesOn(sources, k, resolvers);
    }
  }

  lemma ChainStarts(sources: seq<Value>, resolvers: Resolvers)
    ensures Resolves(MergedTo(sources, 0), resolvers)
    ensures Resolved(MergedTo(sources, 0), resolvers) == MergedTo(ResolvedAll(sources, resolvers), 0)
  {
    assert Resolved(EMPTY, resolvers).entries == map[];
  }

  lemma ChainGoesOn(sources: seq<Value>, k: nat, resolvers: Resolvers)
    requires k < |sources| && Resolves(sources[k], resolvers) && Resolves(MergedTo(sources, k), resolvers)
    requires Resolved(MergedTo(sources, k), resolvers) == MergedTo(ResolvedAll(sources, resolvers), k)
    ensures Resolves(MergedTo(sources, k + 1), resolvers)
    ensures Resolved(MergedTo(sources, k + 1), resolvers) == MergedTo(ResolvedAll(sources, resolvers), k + 1)
  {
    MergeResolves(MergedTo(sources, k), sources[k], resolvers);
    ResolutionCommutes(MergedTo(sources, k), sources[k], resolvers);
  }

  /** Resolution keeps every path and kind, and changes references only. */
  lemma {:induction false} ResolutionKeepsShape(v: Value, resolvers: Resolvers, path: seq<string>)
    ensures At(Resolved(v, resolvers), path).Some? <==> At(v, path).Some?
    ensures At(v, path).Some? ==> At(Resolved(v, resolvers), path).value == Resolved(At(v, path).value, resolvers)
    decreases path
  {
    if path != [] && v.Table? && path[0] in v.entries {
      ResolutionKeepsShape(v.entries[path[0]], resolvers, path[1..]);
    }
  }

  /** Text that is no reference stays as it is, wherever it is. */
  lemma PlainTextStays(v: Value, resolvers: Resolvers, path: seq<string>, s: string)
    requires At(v, path) == Some(Text(s)) && !IsSecret(s)
    ensures At(Resolved(v, resolvers), path) == Some(Text(s))
  {
    ResolutionKeepsShape(v, resolvers, path);
  }
}
