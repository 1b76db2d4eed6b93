/**
 The loader in place (config/source.go, config/secrets.go): deepMerge writes into the accumulator's maps and
 adopts those of its source, and secret resolution overwrites entries. For sources that share no map the
 outcome is the one ConfigTree describes.
 */
module ConfigLoader {
  import opened Wrappers
  import opened ConfigTree
  import opened ConfigMemory

  /** The accumulator when the entries of `keys` are merged in. */
  ghost function MergedOn(d: Value, s: Value, keys: set<string>): Value
    requires d.Table? && s.Table?
  {
    Table(map k | k in d.entries.Keys + s.entries.Keys * keys ::
            if k in s.entries && k in keys then Entry(d, s, k) else d.entries[k])
  }

  ghost function Entry(d: Value, s: Value, k: string): Value
    requires d.Table? && s.Table? && k in s.entries
  {
    if k in d.entries then Merge(d.entries[k], s.entries[k]) else s.entries[k]
  }

  lemma OneKeyMore(d: Value, s: Value, keys: set<string>, k: string)
    requires d.Table? && s.Table? && k in s.entries
    ensures MergedOn(d, s, keys + {k}) == Table(MergedOn(d, s, keys).entries[k := Entry(d, s, k)])
  {
    assert MergedOn(d, s, keys + {k}).entries == MergedOn(d, s, keys).entries[k := Entry(d, s, k)];
  }

  lemma AllKeys(d: Value, s: Value)
    requires d.Table? && s.Table?
    ensures MergedOn(d, s, {}) == d && MergedOn(d, s, s.entries.Keys) == Merge(d, s)
  {
    assert MergedOn(d, s, {}).entries == d.entries;
    assert MergedOn(d, s, s.entries.Keys).entries == Merge(d, s).entries;
  }

  /** The value when the entries of `keys` are resolved. */
  ghost function ResolvedOn(v: Value, keys: set<string>, resolvers: Resolvers): Value
    requires v.Table?
  {
    Table(map k | k in v.entries :: if k in keys then Resolved(v.entries[k], resolvers) else v.entries[k])
  }

  lemma OneKeyResolved(v: Value, keys: set<string>, k: string, resolvers: Resolvers)
    requires v.Table? && k in v.entries
    ensures ResolvedOn(v, keys + {k}, resolvers) ==
            Table(ResolvedOn(v, keys, resolvers).entries[k := Resolved(v.entries[k], resolvers)])
  {
    assert ResolvedOn(v, keys + {k}, resolvers).entries ==
           ResolvedOn(v, keys, resolvers).entries[k := Resolved(v.entries[k], resolvers)];
  }

  lemma AllKeysResolved(v: Value, resolvers: Resolvers)
    requires v.Table?
    ensures ResolvedOn(v, {}, resolvers) == v && ResolvedOn(v, v.entries.Keys, resolvers) == Resolved(v, resolvers)
  {
    assert ResolvedOn(v, {}, resolvers).entries == v.entries;
    assert ResolvedOn(v, v.entries.Keys, resolvers).entries == Resolved(v, resolvers).entries;
  }

  class Loader {
    const resolvers: Resolvers
    var memory: Memory

    constructor (resolvers: Resolvers)
      ensures this.resolvers == resolvers && memory == map[]
    {
      this.resolvers := resolvers;
      memory := map[];
    }

    /** deepMerge */
    method DeepMerge(dst: Ref, src: Ref, ghost ds: Shape, ghost ss: Shape) returns (ghost rs: Shape)
      requires Fits(memory, ds) && Fits(memory, ss) && ds.ref == dst && ss.ref == src && Nodes(ds) !! Nodes(ss)
      modifies this`memory
      ensures Fits(memory, rs) && rs.ref == dst && Nodes(rs) <= Nodes(ds) + Nodes(ss)
      ensures ValueOf(memory, rs) == Merge(old(ValueOf(memory, ds)), old(ValueOf(memory, ss)))
      ensures Touches(old(memory), memory, Nodes(ds))
      decreases ss, 1
    {
      ghost var d, s := ValueOf(memory, ds), ValueOf(memory, ss);
      var rest := memory[src].Keys;
      ghost var done: set<string> := {};
      AllKeys(d, s);
      rs := ds;
      while rest != {}
        invariant done + rest == s.entries.Keys && done !! rest
        invariant Partial(old(memory), memory, ds, ss, rs, done)
        invariant ValueOf(memory, rs) == MergedOn(d, s, done)
        decreases rest
      {
        var k :| k in rest;
        rs := MergeEntry(dst, src, k, ds, ss, rs, done, old(memory));
        OneKeyMore(d, s, done, k);
        done, rest := done + {k}, rest - {k};
      }
      assert done == s.entries.Keys;
    }

    /**
     deepMerge of a source that sets only `name`, into a map where another entry holds the map to merge into, as a
     YAML alias makes it. The source's words reach every entry that holds it, so what comes out is the merged tree
     exactly if they say nothing new.
     */
    method MergeUnderAlias(top: Ref, from: Ref, name: string, ghost alias: string, ghost d: Value, ghost ms: Shape,
                           ghost ss: Shape) returns (ghost rs: Shape)
      requires Shares(memory, top, d, ms) && name in d.entries && alias in d.entries && name != alias
      requires memory[top][name] == memory[top][alias] == Sub(ms.ref)
      requires from in memory && memory[from] == map[name := Sub(ss.ref)]
      requires Fits(memory, ss) && Nodes(ms) !! Nodes(ss)
      modifies this`memory
      ensures
        var was, says := old(ValueOf(memory, ms)), old(ValueOf(memory, ss));
        && StandsFor(memory, Sub(top), ReplacedIn(old(memory), top, d, ms.ref, Merge(was, says)), {})
        && (StandsFor(memory, Sub(top), Merge(d, Table(map[name := says])), {}) <==> Within(says, was))
    {
      ghost var before := memory;
      rs := DeepMerge(memory[top][name].ref, memory[from][name].ref, ms, ss);
      AllHoldersChange(before, memory, top, d, ms, rs);
      SharedMergeIsTree(before, top, d, ms, name, alias, ValueOf(before, ss));
      ghost var after := ReplacedIn(before, top, d, ms.ref, ValueOf(memory, rs));
      ghost var tree := Merge(d, Table(map[name := ValueOf(before, ss)]));
      if StandsFor(memory, Sub(top), tree, {}) {
        OneMeaning(memory, Sub(top), after, tree, {}, {});
      }
    }

    /** `{a: m, b: m}` with `m = {k: 1}`, and a source that sets `a.k` to 2: `b.k` is 2 as well. */
    method AliasLeaks()
      modifies this`memory
      ensures
        var one, two := Table(map["k" := Atom(1)]), Table(map["k" := Atom(2)]);
        var sources := [Table(map["a" := one, "b" := one]), Table(map["a" := two])];
        && StandsFor(memory, Sub(0), Table(map["a" := two, "b" := two]), {})
        && LeafAt(Merged(sources), ["b", "k"], Atom(1))
        && !StandsFor(memory, Sub(0), Merged(sources), {})
    {
      memory := ALIASED;
      ghost var one, two := Table(map["k" := Atom(1)]), Table(map["k" := Atom(2)]);
      ghost var d := Table(map["a" := one, "b" := one]);
      AliasedMemory(one, two, d);
      ghost var rs := MergeUnderAlias(0, 2, "a", "b", d, Shape(1, map[]), Shape(3, map[]));
      AliasedValues(one, two);
    }

    /** One round of its loop. */
    method MergeEntry(dst: Ref, src: Ref, k: string, ghost ds: Shape, ghost ss: Shape, ghost rs: Shape,
                      ghost done: set<string>, ghost before: Memory) returns (ghost after: Shape)
      requires Partial(before, memory, ds, ss, rs, done) && ds.ref == dst && ss.ref == src
      requires k in before[src] && k !in done
      modifies this`memory
      ensures Partial(before, memory, ds, ss, after, done + {k})
      ensures ValueOf(memory, after) ==
              Table(old(ValueOf(memory, rs)).entries[k := Entry(ValueOf(before, ds), ValueOf(before, ss), k)])
      decreases ss, 0
    {
      ghost var mem := memory;
      SourceUntouched(before, mem, ds, ss, rs, done);
      EntryValue(before, ds, ss, k);
      var v := memory[src][k];
      assert CellFits(ss, k, v);
      if v.Sub? && k in memory[dst] && memory[dst][k].Sub? {
        assert CellFits(rs, k, mem[dst][k]);
        after := MergeNested(memory[dst][k].ref, v.ref, k, ds, ss, rs, done, before);
        return;
      }
      after := PutEntry(dst, v, k, ds, ss, rs, done, before);
    }

    /** `dst[k] = v` */
    method PutEntry(dst: Ref, v: Cell, k: string, ghost ds: Shape, ghost ss: Shape, ghost rs: Shape,
                    ghost done: set<string>, ghost before: Memory) returns (ghost after: Shape)
      requires Partial(before, memory, ds, ss, rs, done) && k !in done && ds.ref == dst
      requires k in before[ss.ref] && before[ss.ref][k] == v
      requires v.Sub? ==> k !in ds.kids
      modifies this`memory
      ensures Partial(before, memory, ds, ss, after, done + {k})
      ensures
        var value := if v.Sub? then ValueOf(before, ss.kids[k]) else v.value;
        ValueOf(memory, after) == Table(old(ValueOf(memory, rs)).entries[k := value])
    {
      if v.Sub? {
        after := MapPut(before, memory, ds, ss, rs, done, k);
      } else {
        after := LeafPut(before, memory, ds, ss, rs, done, k);
      }
      memory := memory[dst := memory[dst][k := v]];
    }

    method MergeNested(dm: Ref, sm: Ref, k: string, ghost ds: Shape, ghost ss: Shape, ghost rs: Shape,
                       ghost done: set<string>, ghost before: Memory) returns (ghost after: Shape)
      requires Partial(before, memory, ds, ss, rs, done) && k !in done && k in ds.kids && k in ss.kids
      requires ds.kids[k].ref == dm && ss.kids[k].ref == sm
      modifies this`memory
      ensures Partial(before, memory, ds, ss, after, done + {k})
      ensures ValueOf(memory, after) ==
              Table(old(ValueOf(memory, rs)).entries[k :=
                Merge(ValueOf(before, ds.kids[k]), ValueOf(before, ss.kids[k]))])
      decreases ss.kids[k], 2
    {
      ghost var mem := memory;
      NestedReady(before, mem, ds, ss, rs, done, k);
      ghost var kid := DeepMerge(dm, sm, ds.kids[k], ss.kids[k]);
      NewKidApart(ds, ss, rs, done, k);
      KidChanged(mem, memory, rs, k, kid, Nodes(ss.kids[k]));
      after := rs.(kids := rs.kids[k := kid]);
      AfterWrite(before, mem, memory, ds, ss, rs, after, done, k);
    }

    // --------------------------------------------------------------- secrets

    /** resolveMap: every entry in whatever order, the first failure ends it. */
    method ResolveMap(ref: Ref, ghost s: Shape) returns (r: Result<(), string>)
      requires Fits(memory, s) && s.ref == ref
      modifies this`memory
      ensures Fits(memory, s) && Touches(old(memory), memory, Nodes(s))
      ensures r.Ok? <==> Resolves(old(ValueOf(memory, s)), resolvers)
      ensures r.Ok? ==> ValueOf(memory, s) == Resolved(old(ValueOf(memory, s)), resolvers)
      decreases s, 1
    {
      ghost var v := ValueOf(memory, s);
      var rest := memory[ref].Keys;
      ghost var done: set<string> := {};
      AllKeysResolved(v, resolvers);
      while rest != {}
        invariant done + rest == v.entries.Keys && done !! rest
        invariant Fits(memory, s) && Touches(old(memory), memory, Nodes(s))
        invariant ValueOf(memory, s) == ResolvedOn(v, done, resolvers)
        invariant forall k | k in done :: Resolves(v.entries[k], resolvers)
        decreases rest
      {
        var k :| k in rest;
        assert ValueOf(memory, s).entries[k] == v.entries[k];
        var resolved := ResolveEntry(ref, k, s);
        if resolved.Err? {
          return resolved;
        }
        OneKeyResolved(v, done, k, resolvers);
        done, rest := done + {k}, rest - {k};
      }
      assert done == v.entries.Keys;
      return Ok(());
    }

    method ResolveEntry(ref: Ref, k: string, ghost s: Shape) returns (r: Result<(), string>)
      requires Fits(memory, s) && s.ref == ref && k in memory[ref]
      modifies this`memory
      ensures Fits(memory, s) && Touches(old(memory), memory, Nodes(s))
      ensures
        var before := old(ValueOf(memory, s)).entries;
        && (r.Ok? <==> Resolves(before[k], resolvers))
        && (r.Ok? ==> ValueOf(memory, s) == Table(before[k := Resolved(before[k], resolvers)]))
      decreases s, 0
    {
      ghost var mem := memory;
      var cell := memory[ref][k];
      assert CellFits(s, k, cell);
      match cell {
        case Sub(sub) =>
          KidInside(s, k);
          r := ResolveMap(sub, s.kids[k]);
          KidRewritten(mem, memory, s, k);
        case Leaf(value) =>
          var resolved := ResolveValue(value);
          if resolved.Err? {
            return Err(resolved.error);
          }
          LeafRewritten(mem, s, k, resolved.value);
          memory := memory[ref := memory[ref][k := Leaf(resolved.value)]];
          return Ok(());
      }
    }

    /** The leaf cases of resolveMap and resolveSlice; lists are values here. */
    method ResolveValue(value: Value) returns (r: Result<Value, string>)
      ensures r.Ok? <==> Resolves(value, resolvers)
      ensures r.Ok? ==> r.value == Resolved(value, resolvers)
      decreases value, 1
    {
      match value
      case Text(text) =>
        var secret := ResolveIfSecret(text, resolvers);
        if secret.Err? {
          return Err(secret.error);
        }
        return Ok(if secret.value.Some? then Text(secret.value.value) else value);
      case Atom(_) => return Ok(value);
      case Items(items) => r := ResolveSlice(value, items);
      case Table(entries) => r := ResolveTable(value, entries);
    }

    method ResolveSlice(ghost list: Value, items: seq<Value>) returns (r: Result<Value, string>)
      requires list == Items(items)
      ensures r.Ok? <==> Resolves(list, resolvers)
      ensures r.Ok? ==> r.value == Resolved(list, resolvers)
      decreases list, 0
    {
      var out: seq<Value> := [];
      for i := 0 to |items|
        invariant |out| == i
        invariant forall j | 0 <= j < i :: Resolves(items[j], resolvers) && out[j] == Resolved(items[j], resolvers)
      {
        var resolved := ResolveValue(items[i]);
        if resolved.Err? {
          return Err(resolved.error);
        }
        out := out + [resolved.value];
      }
      assert out == Resolved(list, resolvers).items;
      return Ok(Items(out));
    }

    /** A map inside a list. */
    method ResolveTable(ghost table: Value, entries: map<string, Value>) returns (r: Result<Value, string>)
      requires table == Table(entries)
      ensures r.Ok? <==> Resolves(table, resolvers)
      ensures r.Ok? ==> r.value == Resolved(table, resolvers)
      decreases table, 0
    {
      var out: map<string, Value> := map[];
      var rest := entries.Keys;
      while rest != {}
        invariant rest <= entries.Keys && out.Keys == entries.Keys - rest
        invariant forall k | k in out :: Resolves(entries[k], resolvers) && out[k] == Resolved(entries[k], resolvers)
        decreases rest
      {
        var k :| k in rest;
        var resolved := ResolveValue(entries[k]);
        if resolved.Err? {
          return Err(resolved.error);
        }
        out, rest := out[k := resolved.value], rest - {k};
      }
      assert out == Resolved(table, resolvers).entries;
      return Ok(Table(out));
    }

    // ------------------------------------------------------------------ load

    /** Load up to the resolved tree: merge the sources in order, then resolve if there are resolvers. */
    method Load(sources: seq<Source>, free: Ref, ghost shapes: seq<Shape>)
      returns (r: Result<Ref, string>, ghost merged: Shape)
      requires Separate(memory, sources, shapes) && free !in memory
      modifies this`memory
      ensures r.Ok? ==> Fits(memory, merged) && merged.ref == r.value
      ensures
        var contents := Contents(old(memory), sources, shapes);
        && (r.Ok? <==> NoneFails(sources) && (resolvers == map[] || Resolves(Merged(contents), resolvers)))
        && (r.Ok? ==> ValueOf(memory, merged) ==
                      if resolvers == map[] then Merged(contents) else Resolved(Merged(contents), resolvers))
    {
      var failed: Option<string>;
      failed, merged := MergeSources(sources, free, shapes);
      if failed.Some? {
        return Err(failed.value), merged;
      }
      if |resolvers| > 0 {
        var resolved := ResolveMap(free, merged);
        if resolved.Err? {
          return Err(resolved.error), merged;
        }
      }
      return Ok(free), merged;
    }

    /** The fold over the chain; the first failing source ends it. */
    method MergeSources(sources: seq<Source>, free: Ref, ghost shapes: seq<Shape>)
      returns (failed: Option<string>, ghost merged: Shape)
      requires Separate(memory, sources, shapes) && free !in memory
      modifies this`memory
      ensures failed.None? <==> NoneFails(sources)
      ensures failed.None? ==> Fits(memory, merged) && merged.ref == free
      ensures failed.None? ==> ValueOf(memory, merged) == Merged(Contents(old(memory), sources, shapes))
    {
      memory := memory[free := map[]];
      merged := Shape(free, map[]);
      LoadStarts(old(memory), free, sources, shapes);
      for i := 0 to |sources|
        invariant Folded(old(memory), memory, free, sources, shapes, merged, i)
        invariant forall j | 0 <= j < i :: !sources[j].Failing?
      {
        if sources[i].Failing? {
          return Some(sources[i].error), merged;
        }
        merged := MergeSource(sources[i], free, old(memory), sources, shapes, merged, i);
      }
      return None, merged;
    }

    /** One source on top of those before it; an empty one adds nothing. */
    method MergeSource(source: Source, free: Ref, ghost before: Memory, ghost sources: seq<Source>,
                       ghost shapes: seq<Shape>, ghost merged: Shape, ghost n: nat) returns (ghost after: Shape)
      requires Folded(before, memory, free, sources, shapes, merged, n)
      requires n < |sources| && sources[n] == source && !source.Failing?
      modifies this`memory
      ensures Folded(before, memory, free, sources, shapes, after, n + 1)
    {
      if source.Empty? {
        EmptySource(before, memory, free, sources, shapes, merged, n);
        after := merged;
      } else {
        ghost var mem := memory;
        SourceReady(before, mem, free, sources, shapes, merged, n);
        after := DeepMerge(free, source.ref, merged, shapes[n]);
        SourceMerged(before, mem, memory, free, sources, shapes, merged, after, n);
      }
    }
  }

  /** Two entries that hold map 1, and a source that sets one of them to map 3. */
  const ALIASED: Memory := map[
    0 := map["a" := Sub(1), "b" := Sub(1)], 1 := map["k" := Leaf(Atom(1))],
    2 := map["a" := Sub(3)], 3 := map["k" := Leaf(Atom(2))]]

  lemma AliasedMemory(one: Value, two: Value, d: Value)
    requires one == Table(map["k" := Atom(1)]) && two == Table(map["k" := Atom(2)])
    requires d == Table(map["a" := one, "b" := one])
    ensures
      var ms, ss := Shape(1, map[]), Shape(3, map[]);
      && Fits(ALIASED, ms) && ValueOf(ALIASED, ms) == one && Nodes(ms) == {1}
      && Fits(ALIASED, ss) && ValueOf(ALIASED, ss) == two && Nodes(ss) == {3}
      && Shares(ALIASED, 0, d, ms)
      && ReplacedIn(ALIASED, 0, d, 1, two) == Table(map["a" := two, "b" := two])
  {
    LeafMap(ALIASED, 1, "k", Atom(1));
    LeafMap(ALIASED, 3, "k", Atom(2));
    TwoHolders(ALIASED, 0, one, d, Shape(1, map[]));
    BothReplaced(ALIASED, 0, d, Table(map["a" := two, "b" := two]), 1, two);
  }

  /** All entries of a map hold one and the same tree. */
  lemma TwoHolders(mem: Memory, top: Ref, one: Value, d: Value, ms: Shape)
    requires Fits(mem, ms) && ValueOf(mem, ms) == one && top in mem && top !in Nodes(ms)
    requires d.Table? && mem[top].Keys == d.entries.Keys
    requires forall k | k in d.entries :: mem[top][k] == Sub(ms.ref) && d.entries[k] == one
    ensures Shares(mem, top, d, ms)
  {
    forall k | k in d.entries ensures SharedOrApart(mem, mem[top][k], d.entries[k], ms) {
    }
  }

  lemma BothReplaced(mem: Memory, top: Ref, d: Value, after: Value, ref: Ref, two: Value)
    requires top in mem && d.Table? && after.Table?
    requires mem[top].Keys == d.entries.Keys == after.entries.Keys
    requires forall k | k in d.entries :: mem[top][k] == Sub(ref) && after.entries[k] == two
    ensures ReplacedIn(mem, top, d, ref, two) == after
  {
    SameEntries(ReplacedIn(mem, top, d, ref, two).entries, after.entries);
  }

  lemma LeafMap(mem: Memory, ref: Ref, k: string, value: Value)
    requires ref in mem && mem[ref] == map[k := Leaf(value)] && !value.Table?
    ensures
      var s := Shape(ref, map[]);
      Nodes(s) == {ref} && Fits(mem, s) && ValueOf(mem, s) == Table(map[k := value])
  {
    var s := Shape(ref, map[]);
    assert KidNodes(s) == {};
    assert ValueOf(mem, s).entries == map[k := value];
  }

  /** As trees, the second source leaves `b` alone. */
  lemma AliasedValues(one: Value, two: Value)
    requires one == Table(map["k" := Atom(1)]) && two == Table(map["k" := Atom(2)])
    ensures
      var d := Table(map["a" := one, "b" := one]);
      && Merge(one, two) == two && !Within(two, one)
      && Merged([d, Table(map["a" := two])]) == Merge(d, Table(map["a" := two]))
      && LeafAt(Merged([d, Table(map["a" := two])]), ["b", "k"], Atom(1))
  {
    var d := Table(map["a" := one, "b" := one]);
    var sources := [d, Table(map["a" := two])];
    assert Merge(one, two).entries == two.entries;
    assert Merge(EMPTY, d).entries == d.entries;
    assert MergedTo(sources, 1) == d && MergedTo(sources, 2) == Merge(d, sources[1]);
    assert ["b", "k"][1..] == ["k"] && ["k"][1..] == [];
    assert At(one, ["k"]) == Some(Atom(1));
  }

  /** What a source hands over: an error, nothing, or a map of its own. */
  datatype Source = Failing(error: string) | Empty | Loaded(ref: Ref)

  predicate NoneFails(sources: seq<Source>) {
    forall i | 0 <= i < |sources| :: !sources[i].Failing?
  }

  ghost function SourceNodes(source: Source, shape: Shape): set<Ref> {
    if source.Loaded? then Nodes(shape) else {}
  }

  /** Each source's map is a tree, and no two sources share a map. */
  ghost predicate Separate(mem: Memory, sources: seq<Source>, shapes: seq<Shape>) {
    && |shapes| == |sources|
    && (forall i | 0 <= i < |sources| :: sources[i].Loaded? ==> Fits(mem, shapes[i]) && shapes[i].ref == sources[i].ref)
    && (forall i, j | 0 <= i < j < |sources| :: SourceNodes(sources[i], shapes[i]) !! SourceNodes(sources[j], shapes[j]))
  }

  /** What the sources say, as values. */
  ghost function Contents(mem: Memory, sources: seq<Source>, shapes: seq<Shape>): seq<Value>
    requires Separate(mem, sources, shapes)
  {
    seq(|sources|, i requires 0 <= i < |sources| => if sources[i].Loaded? then ValueOf(mem, shapes[i]) else EMPTY)
  }

  ghost function MergedNodes(sources: seq<Source>, shapes: seq<Shape>, n: nat): set<Ref>
    requires n <= |sources| == |shapes|
  {
    set i, r | 0 <= i < n && r in SourceNodes(sources[i], shapes[i]) :: r
  }

  /** After `n` sources: the accumulator consists of its own map and of maps of those; the others are as they were. */
  ghost predicate Loading(
    before: Memory, mem: Memory, free: Ref, sources: seq<Source>, shapes: seq<Shape>, merged: Shape, n: nat)
  {
    && Separate(before, sources, shapes) && free !in before && n <= |sources|
    && Fits(mem, merged) && merged.ref == free && Nodes(merged) <= {free} + MergedNodes(sources, shapes, n)
    && mem.Keys == before.Keys + {free}
    && forall r | r in before && r !in MergedNodes(sources, shapes, n) :: mem[r] == before[r]
  }

  /** The accumulator holds the first `n` sources merged. */
  ghost predicate Folded(
    before: Memory, mem: Memory, free: Ref, sources: seq<Source>, shapes: seq<Shape>, merged: Shape, n: nat)
  {
    && Loading(before, mem, free, sources, shapes, merged, n)
    && ValueOf(mem, merged) == MergedTo(Contents(before, sources, shapes), n)
  }

  lemma LoadStarts(before: Memory, free: Ref, sources: seq<Source>, shapes: seq<Shape>)
    requires Separate(before, sources, shapes) && free !in before
    ensures
      var mem := before[free := map[]];
      Loading(before, mem, free, sources, shapes, Shape(free, map[]), 0) && ValueOf(mem, Shape(free, map[])) == EMPTY
  {
    var mem := before[free := map[]];
    assert KidNodes(Shape(free, map[])) == {};
    assert ValueOf(mem, Shape(free, map[])).entries == map[];
  }

  lemma LaterSourceApart(sources: seq<Source>, shapes: seq<Shape>, before: Memory, n: nat)
    requires Separate(before, sources, shapes) && n < |sources|
    ensures SourceNodes(sources[n], shapes[n]) !! MergedNodes(sources, shapes, n)
    ensures MergedNodes(sources, shapes, n + 1) == MergedNodes(sources, shapes, n) + SourceNodes(sources[n], shapes[n])
  {
    forall r | r in MergedNodes(sources, shapes, n) ensures r !in SourceNodes(sources[n], shapes[n]) {
      var i :| 0 <= i < n && r in SourceNodes(sources[i], shapes[i]);
    }
  }

  lemma EmptySource(before: Memory, mem: Memory, free: Ref, sources: seq<Source>, shapes: seq<Shape>, merged: Shape, n: nat)
    requires Loading(before, mem, free, sources, shapes, merged, n) && n < |sources| && sources[n].Empty?
    requires ValueOf(mem, merged) == MergedTo(Contents(before, sources, shapes), n)
    ensures Loading(before, mem, free, sources, shapes, merged, n + 1)
    ensures ValueOf(mem, merged) == MergedTo(Contents(before, sources, shapes), n + 1)
  {
    LaterSourceApart(sources, shapes, before, n);
    MergeEmpty(ValueOf(mem, merged));
  }

  lemma MergeEmpty(v: Value)
    requires v.Table?
    ensures Merge(v, EMPTY) == v
  {
    assert Merge(v, EMPTY).entries == v.entries;
  }

  lemma SourceReady(before: Memory, mem: Memory, free: Ref, sources: seq<Source>, shapes: seq<Shape>, merged: Shape, n: nat)
    requires Loading(before, mem, free, sources, shapes, merged, n) && n < |sources| && sources[n].Loaded?
    ensures Fits(mem, shapes[n]) && ValueOf(mem, shapes[n]) == Contents(before, sources, shapes)[n]
    ensures Nodes(merged) !! Nodes(shapes[n])
  {
    LaterSourceApart(sources, shapes, before, n);
    NodesInMemory(before, shapes[n]);
    Frame(before, mem, shapes[n]);
  }

  lemma SourceMerged(before: Memory, mem: Memory, mem': Memory, free: Ref, sources: seq<Source>, shapes: seq<Shape>,
                     merged: Shape, after: Shape, n: nat)
    requires Loading(before, mem, free, sources, shapes, merged, n) && n < |sources| && sources[n].Loaded?
    requires Fits(mem', after) && after.ref == free && Nodes(after) <= Nodes(merged) + Nodes(shapes[n])
    requires Touches(mem, mem', Nodes(merged))
    ensures Loading(before, mem', free, sources, shapes, after, n + 1)
  {
    LaterSourceApart(sources, shapes, before, n);
  }

  ghost function KidNodesAt(s: Shape, k: string): set<Ref> {
    if k in s.kids then Nodes(s.kids[k]) else {}
  }

  /** What one round must do to keep the state between rounds. */
  lemma AfterWrite(before: Memory, mem: Memory, mem': Memory, ds: Shape, ss: Shape, rs: Shape, after: Shape,
                   done: set<string>, k: string)
    requires Partial(before, mem, ds, ss, rs, done) && k !in done
    requires Fits(mem', after) && after.ref == ds.ref && Touches(mem, mem', {ds.ref} + KidNodesAt(ds, k))
    requires Nodes(after) <= Nodes(rs) + KidNodesAt(ss, k)
    requires forall j | j != k :: (j in after.kids <==> j in rs.kids) && (j in after.kids ==> after.kids[j] == rs.kids[j])
    ensures Partial(before, mem', ds, ss, after, done + {k})
  {
    assert KidNodesAt(ds, k) <= Nodes(ds);
    StillWaiting(before, mem, mem', ds, done, k);
    AdoptedMore(ss, done, k);
    assert SameKids(ds, after, done + {k});
  }

  lemma AdoptedMore(ss: Shape, done: set<string>, k: string)
    ensures AdoptedNodes(ss, done) + KidNodesAt(ss, k) == AdoptedNodes(ss, done + {k})
  {
  }

  lemma StillWaiting(before: Memory, mem: Memory, mem': Memory, ds: Shape, done: set<string>, k: string)
    requires Fits(before, ds) && Waiting(before, mem, ds, done) && Touches(mem, mem', {ds.ref} + KidNodesAt(ds, k))
    ensures Waiting(before, mem', ds, done + {k})
  {
    forall j | j !in done + {k} && j in ds.kids ensures Agree(before, mem', Nodes(ds.kids[j])) {
      KidInside(ds, j);
      assert Nodes(ds.kids[j]) !! KidNodesAt(ds, k);
      assert Agree(before, mem, Nodes(ds.kids[j]));
    }
  }

  /** Two nested maps that are to be merged are as they were before the merge began. */
  lemma NestedReady(before: Memory, mem: Memory, ds: Shape, ss: Shape, rs: Shape, done: set<string>, k: string)
    requires Partial(before, mem, ds, ss, rs, done) && k !in done && k in ds.kids && k in ss.kids
    ensures rs.kids[k] == ds.kids[k] && Nodes(ds.kids[k]) <= Nodes(ds) && Nodes(ds.kids[k]) !! Nodes(ss.kids[k])
    ensures Fits(mem, ds.kids[k]) && ValueOf(mem, ds.kids[k]) == ValueOf(before, ds.kids[k])
    ensures Fits(mem, ss.kids[k]) && ValueOf(mem, ss.kids[k]) == ValueOf(before, ss.kids[k])
  {
    SourceUntouched(before, mem, ds, ss, rs, done);
    KidInside(ds, k);
    KidInside(ss, k);
    NodesInMemory(before, ss);
    Frame(before, mem, ds.kids[k]);
    Frame(before, mem, ss.kids[k]);
  }

  /** The map to adopt is as the source had it, and no part of the destination. */
  lemma KidReady(before: Memory, mem: Memory, ds: Shape, ss: Shape, rs: Shape, done: set<string>, k: string)
    requires Partial(before, mem, ds, ss, rs, done) && k !in done && k in ss.kids
    ensures Fits(before, ss.kids[k]) && Fits(mem, ss.kids[k]) && ValueOf(mem, ss.kids[k]) == ValueOf(before, ss.kids[k])
    ensures Nodes(ss.kids[k]) !! Nodes(rs)
  {
    SourceUntouched(before, mem, ds, ss, rs, done);
    KidInside(ss, k);
    NodesInMemory(before, ss);
    Frame(before, mem, ss.kids[k]);
    NewKidApart(ds, ss, rs, done, k);
  }

  lemma MapPut(before: Memory, mem: Memory, ds: Shape, ss: Shape, rs: Shape, done: set<string>, k: string)
    returns (after: Shape)
    requires Partial(before, mem, ds, ss, rs, done) && k !in done && k !in ds.kids
    requires k in before[ss.ref] && before[ss.ref][k].Sub?
    ensures k in ss.kids
    ensures
      var mem' := mem[ds.ref := mem[ds.ref][k := before[ss.ref][k]]];
      && Partial(before, mem', ds, ss, after, done + {k})
      && ValueOf(mem', after) == Table(ValueOf(mem, rs).entries[k := ValueOf(before, ss.kids[k])])
  {
    assert CellFits(ss, k, before[ss.ref][k]);
    KidReady(before, mem, ds, ss, rs, done, k);
    MapAdopted(mem, rs, k, ss.kids[k]);
    after := rs.(kids := rs.kids[k := ss.kids[k]]);
    var mem' := mem[rs.ref := mem[rs.ref][k := Sub(ss.kids[k].ref)]];
    AfterWrite(before, mem, mem', ds, ss, rs, after, done, k);
  }

  lemma LeafPut(before: Memory, mem: Memory, ds: Shape, ss: Shape, rs: Shape, done: set<string>, k: string)
    returns (after: Shape)
    requires Partial(before, mem, ds, ss, rs, done) && k !in done
    requires k in before[ss.ref] && before[ss.ref][k].Leaf?
    ensures
      var mem' := mem[ds.ref := mem[ds.ref][k := before[ss.ref][k]]];
      && Partial(before, mem', ds, ss, after, done + {k})
      && ValueOf(mem', after) == Table(ValueOf(mem, rs).entries[k := before[ss.ref][k].value])
  {
    assert CellFits(ss, k, before[ss.ref][k]);
    var value := before[ss.ref][k].value;
    LeafWritten(mem, rs, k, value);
    after := rs.(kids := rs.kids - {k});
    AfterWrite(before, mem, mem[rs.ref := mem[rs.ref][k := Leaf(value)]], ds, ss, rs, after, done, k);
  }

  /** The three ways an entry of the source is merged. */
  lemma EntryValue(mem: Memory, ds: Shape, ss: Shape, k: string)
    requires Fits(mem, ds) && Fits(mem, ss) && k in mem[ss.ref]
    ensures
      var entry := Entry(ValueOf(mem, ds), ValueOf(mem, ss), k);
      && (k in ss.kids && k in ds.kids ==> entry == Merge(ValueOf(mem, ds.kids[k]), ValueOf(mem, ss.kids[k])))
      && (k in ss.kids && k !in ds.kids ==> entry == ValueOf(mem, ss.kids[k]))
      && (mem[ss.ref][k].Leaf? ==> entry == mem[ss.ref][k].value)
  {
    assert CellFits(ss, k, mem[ss.ref][k]);
    if k in mem[ds.ref] {
      assert CellFits(ds, k, mem[ds.ref][k]);
    }
  }

  /** The source's maps are as they were. */
  lemma SourceUntouched(before: Memory, mem: Memory, ds: Shape, ss: Shape, rs: Shape, done: set<string>)
    requires Partial(before, mem, ds, ss, rs, done)
    ensures Fits(mem, ss) && ValueOf(mem, ss) == ValueOf(before, ss) && mem[ss.ref] == before[ss.ref]
  {
    NodesInMemory(before, ss);
    Frame(before, mem, ss);
  }

  /** A map of the source that is not adopted yet shares nothing with the accumulator. */
  lemma NewKidApart(ds: Shape, ss: Shape, rs: Shape, done: set<string>, k: string)
    requires Apart(ss) && Nodes(ds) !! Nodes(ss) && Nodes(rs) <= Nodes(ds) + AdoptedNodes(ss, done)
    requires k !in done && k in ss.kids
    ensures Nodes(ss.kids[k]) !! Nodes(rs)
  {
    KidInside(ss, k);
    forall r | r in AdoptedNodes(ss, done) ensures r !in Nodes(ss.kids[k]) {
      var j :| j in done && j in ss.kids && r in Nodes(ss.kids[j]);
    }
  }

  /**
   Between two entries: the source is as it was, entries not yet merged are as they were, and what the
   accumulator adopted so far came from merged entries of the source.
   */
  ghost predicate Partial(before: Memory, mem: Memory, ds: Shape, ss: Shape, rs: Shape, done: set<string>) {
    && Fits(before, ds) && Fits(before, ss) && Nodes(ds) !! Nodes(ss)
    && Fits(mem, rs) && rs.ref == ds.ref && Touches(before, mem, Nodes(ds))
    && Nodes(rs) <= Nodes(ds) + AdoptedNodes(ss, done)
    && SameKids(ds, rs, done) && Waiting(before, mem, ds, done)
  }

  ghost predicate SameKids(ds: Shape, rs: Shape, done: set<string>) {
    forall k | k !in done :: (k in rs.kids <==> k in ds.kids) && (k in rs.kids ==> rs.kids[k] == ds.kids[k])
  }

  /** Nested maps of the accumulator whose entry is not merged yet are as they were. */
  ghost predicate Waiting(before: Memory, mem: Memory, ds: Shape, done: set<string>) {
    forall k | k !in done && k in ds.kids :: Agree(before, mem, Nodes(ds.kids[k]))
  }

  ghost function AdoptedNodes(ss: Shape, keys: set<string>): set<Ref> {
    set k, r | k in keys && k in ss.kids && r in Nodes(ss.kids[k]) :: r
  }
}
