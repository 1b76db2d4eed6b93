/**
 Nested maps in memory: references, the trees they form, and what writing one entry does to a tree.
 Go's `map[string]any` is a reference, so a map stored in two places is one map.
 */
module ConfigMemory {
  import opened Wrappers
  import opened ConfigTree

  type Ref = nat

  /** An entry: a reference to a nested map, or any other value. */
  datatype Cell = Leaf(value: Value) | Sub(ref: Ref)

  type Memory = map<Ref, map<string, Cell>>

  /** The maps a tree consists of. */
  datatype Shape = Shape(ref: Ref, kids: map<string, Shape>)

  ghost function Nodes(s: Shape): set<Ref>
    decreases s, 1
  {
    {s.ref} + KidNodes(s)
  }

  ghost function KidNodes(s: Shape): set<Ref>
    decreases s, 0
  {
    set k, r | k in s.kids && r in Nodes(s.kids[k]) :: r
  }

  /** The nested maps of a tree share nothing with each other or with the map they are in. */
  ghost predicate Apart(s: Shape) {
    && s.ref !in KidNodes(s)
    && forall k, j | k in s.kids && j in s.kids && k != j :: Nodes(s.kids[k]) !! Nodes(s.kids[j])
  }

  ghost predicate CellFits(s: Shape, k: string, cell: Cell) {
    match cell
    case Sub(ref) => k in s.kids && s.kids[k].ref == ref
    case Leaf(value) => k !in s.kids && !value.Table?
  }

  /** The shape describes the maps as they are in memory. */
  ghost predicate Fits(mem: Memory, s: Shape)
    decreases s
  {
    && s.ref in mem && Apart(s)
    && (forall k | k in mem[s.ref] :: CellFits(s, k, mem[s.ref][k]))
    && (forall k | k in s.kids :: k in mem[s.ref] && Fits(mem, s.kids[k]))
  }

  ghost function ValueOf(mem: Memory, s: Shape): Value
    requires Fits(mem, s)
    decreases s, 1
  {
    Table(map k | k in mem[s.ref] :: EntryOf(mem, s, k))
  }

  ghost function EntryOf(mem: Memory, s: Shape, k: string): Value
    requires Fits(mem, s) && k in mem[s.ref]
    decreases s, 0
  {
    if mem[s.ref][k].Sub? then ValueOf(mem, s.kids[k]) else mem[s.ref][k].value
  }

  /** The two memories agree on these maps. */
  ghost predicate Agree(mem: Memory, mem': Memory, nodes: set<Ref>) {
    forall r | r in nodes && r in mem :: r in mem' && mem'[r] == mem[r]
  }

  /** Only these maps changed. */
  ghost predicate Touches(mem: Memory, mem': Memory, nodes: set<Ref>) {
    mem'.Keys == mem.Keys && forall r | r in mem && r !in nodes :: mem'[r] == mem[r]
  }

  lemma {:induction false} Frame(mem: Memory, mem': Memory, s: Shape)
    requires Fits(mem, s) && Agree(mem, mem', Nodes(s))
    ensures Fits(mem', s) && ValueOf(mem', s) == ValueOf(mem, s)
    decreases s
  {
    forall k | k in s.kids ensures Fits(mem', s.kids[k]) && ValueOf(mem', s.kids[k]) == ValueOf(mem, s.kids[k]) {
      KidInside(s, k);
      Frame(mem, mem', s.kids[k]);
    }
    assert mem'[s.ref] == mem[s.ref];
    forall k | k in mem[s.ref] ensures EntryOf(mem', s, k) == EntryOf(mem, s, k) {
    }
  }

  lemma KidInside(s: Shape, k: string)
    requires k in s.kids
    ensures Nodes(s.kids[k]) <= KidNodes(s) <= Nodes(s)
  {
  }

  lemma {:induction false} NodesInMemory(mem: Memory, s: Shape)
    requires Fits(mem, s)
    ensures Nodes(s) <= mem.Keys
  {
    forall k | k in s.kids ensures Nodes(s.kids[k]) <= mem.Keys {
      NodesInMemory(mem, s.kids[k]);
    }
  }

  // ----------------------------------------------------------- writing entries

  /** `dst[k] = v` for a value that is no map. */
  lemma LeafWritten(mem: Memory, s: Shape, k: string, value: Value)
    requires Fits(mem, s) && !value.Table?
    ensures
      var mem', s' := mem[s.ref := mem[s.ref][k := Leaf(value)]], s.(kids := s.kids - {k});
      && Fits(mem', s') && Nodes(s') <= Nodes(s)
      && ValueOf(mem', s') == Table(ValueOf(mem, s).entries[k := value])
  {
    var mem', s' := mem[s.ref := mem[s.ref][k := Leaf(value)]], s.(kids := s.kids - {k});
    assert KidNodes(s') <= KidNodes(s);
    OthersUntouched(mem, mem', s, k, {s.ref});
    forall j | j in mem'[s.ref] ensures CellFits(s', j, mem'[s.ref][j]) {
      assert j != k ==> CellFits(s, j, mem[s.ref][j]);
    }
    assert Fits(mem', s');
    forall j | j in mem[s.ref] && j != k ensures EntryOf(mem', s', j) == EntryOf(mem, s, j) {
      OneKidEntry(mem, mem', s, s', j);
    }
    OneEntryChanged(mem, mem', s, s', k, value);
  }

  /** `dst[k] = v` for a map: the tree adopts the map itself, not a copy. */
  lemma MapAdopted(mem: Memory, s: Shape, k: string, kid: Shape)
    requires Fits(mem, s) && Fits(mem, kid) && Nodes(kid) !! Nodes(s)
    ensures
      var mem', s' := mem[s.ref := mem[s.ref][k := Sub(kid.ref)]], s.(kids := s.kids[k := kid]);
      && Fits(mem', s') && Nodes(s') <= Nodes(s) + Nodes(kid)
      && ValueOf(mem', s') == Table(ValueOf(mem, s).entries[k := ValueOf(mem, kid)])
  {
    var mem' := mem[s.ref := mem[s.ref][k := Sub(kid.ref)]];
    KidsReplaced(s, k, kid);
    Frame(mem, mem', kid);
    OthersUntouched(mem, mem', s, k, {s.ref});
    OneKidNew(mem, mem', s, k, kid);
  }

  /** The other nested maps are as before if only maps apart from them changed. */
  lemma OthersUntouched(mem: Memory, mem': Memory, s: Shape, k: string, nodes: set<Ref>)
    requires Fits(mem, s) && Touches(mem, mem', nodes)
    requires forall j | j in s.kids && j != k :: Nodes(s.kids[j]) !! nodes
    ensures forall j | j in s.kids && j != k ::
              Fits(mem', s.kids[j]) && ValueOf(mem', s.kids[j]) == ValueOf(mem, s.kids[j])
  {
    forall j | j in s.kids && j != k
      ensures Fits(mem', s.kids[j]) && ValueOf(mem', s.kids[j]) == ValueOf(mem, s.kids[j])
    {
      Frame(mem, mem', s.kids[j]);
    }
  }

  lemma OneKidFits(mem: Memory, mem': Memory, s: Shape, k: string, kid: Shape)
    requires Fits(mem, s) && Apart(s.(kids := s.kids[k := kid])) && Fits(mem', kid)
    requires s.ref in mem' && mem'[s.ref] == mem[s.ref][k := Sub(kid.ref)]
    requires forall j | j in s.kids && j != k :: Fits(mem', s.kids[j])
    ensures Fits(mem', s.(kids := s.kids[k := kid]))
  {
    var s' := s.(kids := s.kids[k := kid]);
    forall j | j in mem'[s.ref] ensures CellFits(s', j, mem'[s.ref][j]) {
      assert j != k ==> CellFits(s, j, mem[s.ref][j]);
    }
    forall j | j in s'.kids ensures j in mem'[s.ref] && Fits(mem', s'.kids[j]) {
    }
  }

  lemma OneKidEntry(mem: Memory, mem': Memory, s: Shape, s': Shape, j: string)
    requires Fits(mem, s) && Fits(mem', s') && s'.ref == s.ref
    requires j in mem[s.ref] && j in mem'[s.ref] && mem'[s.ref][j] == mem[s.ref][j]
    requires j in s.kids ==> j in s'.kids && s'.kids[j] == s.kids[j]
    requires j in s.kids ==> Fits(mem', s.kids[j]) && ValueOf(mem', s.kids[j]) == ValueOf(mem, s.kids[j])
    ensures EntryOf(mem', s', j) == EntryOf(mem, s, j)
  {
    assert CellFits(s, j, mem[s.ref][j]);
  }

  /** A tree with one nested map exchanged. */
  lemma OneKidNew(mem: Memory, mem': Memory, s: Shape, k: string, kid: Shape)
    requires Fits(mem, s) && Apart(s.(kids := s.kids[k := kid])) && Fits(mem', kid)
    requires s.ref in mem' && mem'[s.ref] == mem[s.ref][k := Sub(kid.ref)]
    requires forall j | j in s.kids && j != k ::
               Fits(mem', s.kids[j]) && ValueOf(mem', s.kids[j]) == ValueOf(mem, s.kids[j])
    ensures
      var s' := s.(kids := s.kids[k := kid]);
      Fits(mem', s') && ValueOf(mem', s') == Table(ValueOf(mem, s).entries[k := ValueOf(mem', kid)])
  {
    var s' := s.(kids := s.kids[k := kid]);
    OneKidFits(mem, mem', s, k, kid);
    forall j | j in mem[s.ref] && j != k ensures EntryOf(mem', s', j) == EntryOf(mem, s, j) {
      OneKidEntry(mem, mem', s, s', j);
    }
    OneEntryChanged(mem, mem', s, s', k, ValueOf(mem', kid));
  }

  /** Trees that agree entry by entry, but for one, have the same value but for that entry. */
  lemma OneEntryChanged(mem: Memory, mem': Memory, s: Shape, s': Shape, k: string, value: Value)
    requires Fits(mem, s) && Fits(mem', s') && mem'[s'.ref].Keys == mem[s.ref].Keys + {k}
    requires EntryOf(mem', s', k) == value
    requires forall j | j in mem[s.ref] && j != k :: EntryOf(mem', s', j) == EntryOf(mem, s, j)
    ensures ValueOf(mem', s') == Table(ValueOf(mem, s).entries[k := value])
  {
    var after, before := ValueOf(mem', s').entries, ValueOf(mem, s).entries;
    assert after.Keys == mem'[s'.ref].Keys && before.Keys == mem[s.ref].Keys;
    forall j | j in after ensures after[j] == before[k := value][j] {
      assert after[j] == EntryOf(mem', s', j);
    }
  }

  lemma KidsReplaced(s: Shape, k: string, kid: Shape)
    requires Apart(s) && s.ref !in Nodes(kid)
    requires forall j | j in s.kids && j != k :: Nodes(s.kids[j]) !! Nodes(kid)
    ensures Apart(s.(kids := s.kids[k := kid]))
    ensures Nodes(s.(kids := s.kids[k := kid])) <= Nodes(s) + Nodes(kid)
  {
    var s' := s.(kids := s.kids[k := kid]);
    forall r | r in KidNodes(s') ensures r in KidNodes(s) || r in Nodes(kid) {
      var j :| j in s'.kids && r in Nodes(s'.kids[j]);
    }
  }

  /** A nested map of the tree changed in place, and grew by maps from elsewhere. */
  lemma KidChanged(mem: Memory, mem': Memory, s: Shape, k: string, kid: Shape, extra: set<Ref>)
    requires Fits(mem, s) && k in s.kids && kid.ref == s.kids[k].ref
    requires Fits(mem', kid) && Nodes(kid) <= Nodes(s.kids[k]) + extra && extra !! Nodes(s)
    requires Touches(mem, mem', Nodes(s.kids[k]))
    ensures
      var s' := s.(kids := s.kids[k := kid]);
      && Fits(mem', s') && Nodes(s') <= Nodes(s) + extra
      && ValueOf(mem', s') == Table(ValueOf(mem, s).entries[k := ValueOf(mem', kid)])
  {
    KidInside(s, k);
    KidsReplaced(s, k, kid);
    OthersUntouched(mem, mem', s, k, Nodes(s.kids[k]));
    assert mem'[s.ref] == mem[s.ref] && CellFits(s, k, mem[s.ref][k]);
    assert mem[s.ref] == mem[s.ref][k := Sub(kid.ref)];
    OneKidNew(mem, mem', s, k, kid);
  }

  /** A leaf overwritten: the shape stays. */
  lemma LeafRewritten(mem: Memory, s: Shape, k: string, value: Value)
    requires Fits(mem, s) && k !in s.kids && !value.Table?
    ensures
      var mem' := mem[s.ref := mem[s.ref][k := Leaf(value)]];
      && Fits(mem', s) && Touches(mem, mem', Nodes(s))
      && ValueOf(mem', s) == Table(ValueOf(mem, s).entries[k := value])
  {
    LeafWritten(mem, s, k, value);
    assert s.(kids := s.kids - {k}) == s;
  }

  /** A nested map rewritten: the shape stays. */
  lemma KidRewritten(mem: Memory, mem': Memory, s: Shape, k: string)
    requires Fits(mem, s) && k in s.kids && Fits(mem', s.kids[k]) && Touches(mem, mem', Nodes(s.kids[k]))
    ensures Fits(mem', s) && Touches(mem, mem', Nodes(s))
    ensures ValueOf(mem', s) == Table(ValueOf(mem, s).entries[k := ValueOf(mem', s.kids[k])])
  {
    KidInside(s, k);
    KidChanged(mem, mem', s, k, s.kids[k], {});
    assert s.(kids := s.kids[k := s.kids[k]]) == s;
  }

  // ------------------------------------------------------------- shared maps

  /** The cell stands for the value, whether or not maps are shared, and without the maps of `avoided`. */
  ghost predicate StandsFor(mem: Memory, cell: Cell, value: Value, avoided: set<Ref>)
    decreases value
  {
    match cell
    case Leaf(v) => v == value && !v.Table?
    case Sub(ref) =>
      && value.Table? && ref in mem && ref !in avoided && mem[ref].Keys == value.entries.Keys
      && forall k | k in value.entries :: k in mem[ref] && StandsFor(mem, mem[ref][k], value.entries[k], avoided)
  }

  /** A cell stands for one value at most. */
  lemma {:induction false} OneMeaning(mem: Memory, cell: Cell, v: Value, v': Value, a: set<Ref>, a': set<Ref>)
    requires StandsFor(mem, cell, v, a) && StandsFor(mem, cell, v', a')
    ensures v == v'
    decreases v
  {
    if cell.Sub? {
      forall k | k in v.entries ensures k in v'.entries && v.entries[k] == v'.entries[k] {
        OneMeaning(mem, mem[cell.ref][k], v.entries[k], v'.entries[k], a, a');
      }
      assert v.entries == v'.entries;
    }
  }

  /** A cell that avoids the maps that change goes on standing for its value. */
  lemma {:induction false} StillStandsFor(mem: Memory, mem': Memory, cell: Cell, value: Value, nodes: set<Ref>)
    requires StandsFor(mem, cell, value, nodes) && Touches(mem, mem', nodes)
    ensures StandsFor(mem', cell, value, {})
    decreases value
  {
    if cell.Sub? {
      forall k | k in value.entries ensures StandsFor(mem', mem'[cell.ref][k], value.entries[k], {}) {
        StillStandsFor(mem, mem', mem[cell.ref][k], value.entries[k], nodes);
      }
    }
  }

  /** A tree stands for its value. */
  lemma {:induction false} TreeStandsFor(mem: Memory, s: Shape)
    requires Fits(mem, s)
    ensures StandsFor(mem, Sub(s.ref), ValueOf(mem, s), {})
    decreases s
  {
    var value := ValueOf(mem, s);
    forall k | k in value.entries ensures k in mem[s.ref] && StandsFor(mem, mem[s.ref][k], value.entries[k], {}) {
      assert CellFits(s, k, mem[s.ref][k]) && value.entries[k] == EntryOf(mem, s, k);
      if mem[s.ref][k].Sub? {
        TreeStandsFor(mem, s.kids[k]);
      }
    }
  }

  /** A map of a tree and of cells that have nothing to do with it: the entries of `d` that hold the tree share it. */
  ghost predicate Shares(mem: Memory, top: Ref, d: Value, s: Shape) {
    && Fits(mem, s) && top in mem && top !in Nodes(s) && d.Table? && mem[top].Keys == d.entries.Keys
    && forall k | k in d.entries :: k in mem[top] && SharedOrApart(mem, mem[top][k], d.entries[k], s)
  }

  ghost predicate SharedOrApart(mem: Memory, cell: Cell, value: Value, s: Shape)
    requires Fits(mem, s)
  {
    if cell == Sub(s.ref) then value == ValueOf(mem, s) else StandsFor(mem, cell, value, Nodes(s))
  }

  lemma SharesStandsFor(mem: Memory, top: Ref, d: Value, s: Shape)
    requires Shares(mem, top, d, s)
    ensures StandsFor(mem, Sub(top), d, {})
  {
    TreeStandsFor(mem, s);
    forall k | k in d.entries ensures StandsFor(mem, mem[top][k], d.entries[k], {}) {
      assert SharedOrApart(mem, mem[top][k], d.entries[k], s);
      if mem[top][k] != Sub(s.ref) {
        StillStandsFor(mem, mem, mem[top][k], d.entries[k], Nodes(s));
      }
    }
  }

  /** `d` with the new value wherever the map is held. */
  ghost function ReplacedIn(mem: Memory, top: Ref, d: Value, ref: Ref, value: Value): Value
    requires top in mem && d.Table? && mem[top].Keys == d.entries.Keys
  {
    Table(map k | k in d.entries :: if mem[top][k] == Sub(ref) then value else d.entries[k])
  }

  /** When the shared map changes, it changes in every entry that holds it. */
  lemma AllHoldersChange(mem: Memory, mem': Memory, top: Ref, d: Value, s: Shape, s': Shape)
    requires Shares(mem, top, d, s) && Fits(mem', s') && s'.ref == s.ref && Touches(mem, mem', Nodes(s))
    ensures StandsFor(mem', Sub(top), ReplacedIn(mem, top, d, s.ref, ValueOf(mem', s')), {})
  {
    TreeStandsFor(mem', s');
    var after := ReplacedIn(mem, top, d, s.ref, ValueOf(mem', s'));
    forall k | k in after.entries ensures StandsFor(mem', mem'[top][k], after.entries[k], {}) {
      assert SharedOrApart(mem, mem[top][k], d.entries[k], s);
      if mem[top][k] != Sub(s.ref) {
        StillStandsFor(mem, mem', mem[top][k], d.entries[k], Nodes(s));
      }
    }
  }

  /**
   A source that sets only `name`, where another entry holds the same map: replacing the map by the merged one gives
   the merged tree exactly if the source says nothing new about it.
   */
  lemma SharedMergeIsTree(mem: Memory, top: Ref, d: Value, s: Shape, name: string, alias: string, says: Value)
    requires Shares(mem, top, d, s) && name in d.entries && alias in d.entries && name != alias
    requires mem[top][name] == mem[top][alias] == Sub(s.ref)
    ensures ReplacedIn(mem, top, d, s.ref, Merge(ValueOf(mem, s), says)) == Merge(d, Table(map[name := says]))
       <==> Within(says, ValueOf(mem, s))
  {
    var was, now := ValueOf(mem, s), Merge(ValueOf(mem, s), says);
    var after, tree := ReplacedIn(mem, top, d, s.ref, now), Merge(d, Table(map[name := says]));
    MergeOfNothingNew(was, says);
    assert SharedOrApart(mem, mem[top][name], d.entries[name], s);
    assert SharedOrApart(mem, mem[top][alias], d.entries[alias], s);
    assert after.entries[alias] == now && tree.entries[alias] == was;
    if now == was {
      forall k | k in d.entries ensures after.entries[k] == tree.entries[k] {
        assert SharedOrApart(mem, mem[top][k], d.entries[k], s);
      }
      assert after.entries == tree.entries;
    }
  }
}
