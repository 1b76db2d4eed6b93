/**
 One process applying a bindings file to the store (catalog.go), and when that succeeds.
 */
module BindingReconciliation {
  import opened Wrappers
  import opened Model
  import opened SourceBindings
  import Sorting
  import Strings

  // -------------------------------------------------------- what can be applied

  /** The desired row is new, or exactly one revision ahead of the stored one. */
  predicate NextRevision(bindings: Bindings, d: SourceBinding) {
    if d.id in bindings then
      var row := bindings[d.id];
      SameIdentity(row, d) && d.revision == row.revision + 1 && d.updatedAt > row.updatedAt
    else d.revision == 1
  }

  predicate Settled(bindings: Bindings, d: SourceBinding) {
    d.id in bindings && bindings[d.id] == d
  }

  predicate Applies(bindings: Bindings, d: SourceBinding) {
    Settled(bindings, d) || (NextRevision(bindings, d) && (d.enabled ==> !OtherEnabled(bindings, d.clientId, d.id)))
  }

  lemma FindSettled(store: Bindings, d: SourceBinding)
    requires Filed(store)
    ensures SameBinding(Find(store, d.clientId, d.id), d) <==> Settled(store, d)
  {
  }

  /** A revision to expect is found for every row that applies. */
  lemma ExpectedWhereApplies(store: Bindings, d: SourceBinding)
    requires Filed(store) && RowsValid(store) && !Settled(store, d) && NextRevision(store, d)
    ensures ExpectedRevision(Find(store, d.clientId, d.id), d).Ok?
  {
    if d.id in store {
      assert store[d.id].Valid();
    }
  }

  /** With the expected revision of the same row, a save succeeds exactly where the row applies. */
  lemma SaveWhereApplies(store: Bindings, d: SourceBinding, expected: nat)
    requires Filed(store) && d.Valid() && !Settled(store, d)
    requires ExpectedRevision(Find(store, d.clientId, d.id), d) == Ok(expected)
    requires d.id in store ==> store[d.id].revision >= 1
    ensures SaveStep(store, d, expected).answer == (if Applies(store, d) then Ok(d) else Err(BindingConflict))
  {
  }

  predicate Listed(file: seq<SourceBinding>, id: string) {
    exists k | 0 <= k < |file| :: file[k].id == id
  }

  /** The file lists every row that is enabled for the client now. */
  predicate Covers(bindings: Bindings, file: seq<SourceBinding>, clientId: string) {
    forall id | id in bindings && bindings[id].enabled && bindings[id].clientId == clientId :: Listed(file, id)
  }

  predicate AppliesIn(bindings: Bindings, file: seq<SourceBinding>, d: SourceBinding) {
    Settled(bindings, d) || (NextRevision(bindings, d) && (d.enabled ==> Covers(bindings, file, d.clientId)))
  }

  /** What a store and a file must be for the whole file to be applied. */
  predicate Appliable(bindings: Bindings, file: seq<SourceBinding>) {
    forall k | 0 <= k < |file| :: AppliesIn(bindings, file, file[k])
  }

  /** Every row is as it was or as the file has it. */
  ghost predicate Between(before: Bindings, now: Bindings, file: seq<SourceBinding>) {
    && (forall k | 0 <= k < |file| :: Settled(now, file[k]) || SameRow(now, before, file[k].id))
    && (forall id | !Listed(file, id) :: SameRow(now, before, id))
  }

  /** The rows before index `n` are as the file has them. */
  ghost predicate Done(now: Bindings, file: seq<SourceBinding>, n: nat)
    requires n <= |file|
  {
    forall k | 0 <= k < n :: Settled(now, file[k])
  }

  /**
   No transient second enabled binding: once the rows before an enabled row are in place, no other row
   of its client is enabled, in whatever state the rows after it are.
   */
  lemma NoOtherEnabled(before: Bindings, now: Bindings, file: seq<SourceBinding>, n: nat)
    requires StoreOk(before) && ValidFile(file) && InOrder(file) && Appliable(before, file)
    requires n < |file| && file[n].enabled && !Settled(before, file[n])
    requires Between(before, now, file) && Done(now, file, n)
    ensures !OtherEnabled(now, file[n].clientId, file[n].id)
  {
    var d := file[n];
    forall id | id in now && id != d.id ensures !(now[id].enabled && now[id].clientId == d.clientId) {
      if Listed(file, id) {
        var m :| 0 <= m < |file| && file[m].id == id;
        ListedRowIsNotEnabled(before, now, file, n, m);
      } else {
        assert SameRow(now, before, id) && Covers(before, file, d.clientId);
      }
    }
  }

  lemma ListedRowIsNotEnabled(before: Bindings, now: Bindings, file: seq<SourceBinding>, n: nat, m: nat)
    requires StoreOk(before) && ValidFile(file) && InOrder(file) && Appliable(before, file)
    requires n < |file| && file[n].enabled && m < |file| && m != n
    requires Between(before, now, file) && Done(now, file, n) && file[m].id in now
    ensures !(now[file[m].id].enabled && now[file[m].id].clientId == file[n].clientId)
  {
    var row, d, e := now[file[m].id], file[n], file[m];
    assert if m < n then Compatible(e, d) else Compatible(d, e);
    assert AppliesIn(before, file, e);
    if Settled(now, e) {
      assert row == e;
    } else {
      assert SameRow(now, before, e.id);
      assert row.clientId == e.clientId;
      assert n < m;
    }
  }

  /** With the rows before it in place, every row of an appliable file can be applied. */
  lemma NextRowApplies(before: Bindings, now: Bindings, file: seq<SourceBinding>, n: nat)
    requires StoreOk(before) && ValidFile(file) && InOrder(file) && Appliable(before, file)
    requires n < |file| && Between(before, now, file) && Done(now, file, n)
    ensures Applies(now, file[n])
  {
    assert AppliesIn(before, file, file[n]);
    assert Settled(now, file[n]) || SameRow(now, before, file[n].id);
    if file[n].enabled && !Settled(before, file[n]) {
      NoOtherEnabled(before, now, file, n);
    }
  }

  /** A row that can be applied now could be applied to the store the process started from. */
  lemma AppliedRowsCouldApply(before: Bindings, now: Bindings, file: seq<SourceBinding>, n: nat)
    requires n < |file| && Between(before, now, file) && SameRow(now, before, file[n].id) && Applies(now, file[n])
    ensures AppliesIn(before, file, file[n])
  {
    var d := file[n];
    if !Settled(before, d) && d.enabled {
      forall id | id in before && before[id].enabled && before[id].clientId == d.clientId ensures Listed(file, id) {
        if !Listed(file, id) {
          assert SameRow(now, before, id);
          assert OtherEnabled(now, d.clientId, d.id);
        }
      }
    }
  }

  lemma WriteStaysBetween(before: Bindings, now: Bindings, file: seq<SourceBinding>, n: nat)
    requires n < |file| && RowsCompatible(file, |file|) && Between(before, now, file)
    ensures Between(before, now[file[n].id := file[n]], file)
  {
    var after := now[file[n].id := file[n]];
    forall k | 0 <= k < |file| ensures Settled(after, file[k]) || SameRow(after, before, file[k].id) {
      assert k < n ==> Compatible(file[k], file[n]);
      assert n < k ==> Compatible(file[n], file[k]);
      assert Settled(now, file[k]) || SameRow(now, before, file[k].id);
    }
    forall id | !Listed(file, id) ensures SameRow(after, before, id) {
      assert id != file[n].id;
    }
  }

  /** The first `k` rows are applied, all of which could be; the others are untouched. */
  ghost predicate Progress(before: Bindings, now: Bindings, file: seq<SourceBinding>, k: nat)
    requires k <= |file|
  {
    && Between(before, now, file) && Done(now, file, k)
    && (forall j | k <= j < |file| :: SameRow(now, before, file[j].id))
    && (forall j | 0 <= j < k :: AppliesIn(before, file, file[j]))
  }

  lemma ProgressStep(before: Bindings, now: Bindings, file: seq<SourceBinding>, k: nat)
    requires k < |file| && RowsCompatible(file, |file|) && Progress(before, now, file, k) && Applies(now, file[k])
    ensures Progress(before, now[file[k].id := file[k]], file, k + 1)
  {
    AppliedRowsCouldApply(before, now, file, k);
    WriteStaysBetween(before, now, file, k);
    forall j | 0 <= j < |file| && j != k ensures file[j].id != file[k].id {
      assert if j < k then Compatible(file[j], file[k]) else Compatible(file[k], file[j]);
    }
  }

  lemma ProgressStops(before: Bindings, now: Bindings, file: seq<SourceBinding>, k: nat)
    requires StoreOk(before) && ValidFile(file) && InOrder(file)
    requires k < |file| && Progress(before, now, file, k) && !Applies(now, file[k])
    ensures !Appliable(before, file)
  {
    if Appliable(before, file) {
      NextRowApplies(before, now, file, k);
    }
  }

  lemma SortingIsNeutral(bindings: Bindings, now: Bindings, file: seq<SourceBinding>)
    ensures
      var sorted := DisablesFirst(file);
      && (ValidFile(file) ==> ValidFile(sorted))
      && (Appliable(bindings, sorted) <==> Appliable(bindings, file))
      && (Between(bindings, now, sorted) ==> Between(bindings, now, file))
      && (Done(now, sorted, |sorted|) ==> Done(now, file, |file|))
  {
    var sorted := DisablesFirst(file);
    DisablesFirstKeepsFile(file);
    SameRowsSame(bindings, now, file, sorted);
    SameRowsSame(bindings, now, sorted, file);
  }

  lemma SameRowsSame(bindings: Bindings, now: Bindings, a: seq<SourceBinding>, b: seq<SourceBinding>)
    requires forall d :: d in a <==> d in b
    ensures (forall i | 0 <= i < |a| :: a[i].Valid()) ==> (forall i | 0 <= i < |b| :: b[i].Valid())
    ensures Appliable(bindings, a) ==> Appliable(bindings, b)
    ensures Between(bindings, now, a) ==> Between(bindings, now, b)
    ensures Done(now, a, |a|) ==> Done(now, b, |b|)
  {
    forall k | 0 <= k < |b| ensures b[k] in a {
      assert b[k] in b;
    }
    forall k | 0 <= k < |a| ensures a[k] in b {
      assert a[k] in a;
    }
    forall id ensures Listed(a, id) <==> Listed(b, id) {
    }
    if Appliable(bindings, a) {
      forall k | 0 <= k < |b| ensures AppliesIn(bindings, b, b[k]) {
        assert b[k] in a;
        var i :| 0 <= i < |a| && a[i] == b[k];
        assert AppliesIn(bindings, a, a[i]);
      }
    }
  }

  /** Why disables go first: a handover listed the other way round could not be applied in file order. */
  lemma HandoverNeedsDisablesFirst(bindings: Bindings, x: SourceBinding, y: SourceBinding)
    requires EnabledOnce(bindings)
    requires x.enabled && x.id !in bindings && x.revision == 1
    requires !y.enabled && y.clientId == x.clientId && NextRevision(bindings, y)
    requires y.id in bindings && bindings[y.id].enabled
    ensures !Applies(bindings, x) && Appliable(bindings, [x, y]) && DisablesFirst([x, y]) == [y, x]
  {
    assert OtherEnabled(bindings, x.clientId, x.id);
    HandoverIsCovered(bindings, x, y);
    var file := [x, y];
    forall k | 0 <= k < |file| ensures AppliesIn(bindings, file, file[k]) {
    }
    SwapKeepsClasses(file, 1, false);
    SwapKeepsClasses(file, 1, true);
    OrderedIsDisablesFirst([y, x]);
    assert file[0 := y][1 := x] == [y, x];
  }

  lemma HandoverIsCovered(bindings: Bindings, x: SourceBinding, y: SourceBinding)
    requires EnabledOnce(bindings) && y.id in bindings && bindings[y.id].enabled && bindings[y.id].clientId == x.clientId
    ensures Covers(bindings, [x, y], x.clientId)
  {
    forall id | id in bindings && bindings[id].enabled && bindings[id].clientId == x.clientId ensures Listed([x, y], id) {
      assert EnableSameClient(bindings[id], bindings[y.id]);
      assert [x, y][1].id == id;
    }
  }

  method ExpectedSourceRevision(current: Option<SourceBinding>, desired: SourceBinding)
    returns (r: Result<nat, BindingError>)
    ensures r == ExpectedRevision(current, desired)
  {
    if current.None? {
      return if desired.revision == 1 then Ok(0) else Err(BindingConflict);
    }
    var sound := Validate(current.value);
    if !sound || !SameIdentity(current.value, desired) || desired.revision != current.value.revision + 1
       || desired.updatedAt <= current.value.updatedAt {
      return Err(BindingConflict);
    }
    return Ok(current.value.revision);
  }

  ghost function EnabledUpTo(rows: seq<SourceBinding>, n: nat): set<nat>
    requires n <= |rows|
  {
    set k: nat | k < n && rows[k].enabled
  }

  lemma EnabledGrows(rows: seq<SourceBinding>, n: nat)
    requires n < |rows|
    ensures |EnabledUpTo(rows, n + 1)| == |EnabledUpTo(rows, n)| + if rows[n].enabled then 1 else 0
  {
    assert EnabledUpTo(rows, n + 1) == EnabledUpTo(rows, n) + if rows[n].enabled then {n} else {};
  }

  lemma AtMostOne(s: set<nat>)
    ensures |s| <= 1 <==> forall a, b | a in s && b in s :: a == b
  {
    if |s| > 1 {
      var a :| a in s;
      assert |s - {a}| == |s| - 1;
      var b :| b in s - {a};
    } else if s != {} {
      var a :| a in s;
      assert |s - {a}| == |s| - 1;
      assert s - {a} == {};
    }
  }

  // ----------------------------------------------------------------- the store

  function IdsOf(bindings: Bindings, clientId: string): set<string> {
    set id | id in bindings && bindings[id].clientId == clientId
  }

  /** The rows under a client's ids in order are its rows in order. */
  lemma RowsOfIds(bindings: Bindings, clientId: string, ids: seq<string>, rows: seq<SourceBinding>)
    requires Filed(bindings) && Strings.Lists(ids, IdsOf(bindings, clientId)) && |rows| == |ids|
    requires forall i | 0 <= i < |ids| :: ids[i] in bindings && bindings[ids[i]] == rows[i]
    ensures forall i | 0 <= i < |rows| ::
              rows[i].id in bindings && bindings[rows[i].id] == rows[i] && rows[i].clientId == clientId
    ensures forall id | id in bindings && bindings[id].clientId == clientId :: bindings[id] in rows
    ensures forall i, j | 0 <= i < j < |rows| :: rows[i].id != rows[j].id
    ensures ById(rows)
  {
    forall i | 0 <= i < |rows| ensures rows[i].id == ids[i] && ids[i] in IdsOf(bindings, clientId) {
      assert ids[i] in Sorting.Elements(ids);
    }
    assert forall i, j | 0 <= i < j < |ids| :: Strings.Below(ids[i], ids[j]);
    forall id | id in bindings && bindings[id].clientId == clientId ensures bindings[id] in rows {
      assert id in Sorting.Elements(ids);
      var i :| 0 <= i < |ids| && ids[i] == id;
      assert rows[i] == bindings[id];
    }
  }

  ghost predicate ById(rows: seq<SourceBinding>) {
    forall i, j | 0 <= i < j < |rows| :: Strings.Below(rows[i].id, rows[j].id)
  }

  class SourceBindingStore {
    var bindings: Bindings

    ghost predicate Valid()
      reads this
    {
      StoreOk(bindings)
    }

    constructor ()
      ensures Valid() && bindings == map[]
    {
      bindings := map[];
    }

    method SaveSourceBinding(b: SourceBinding, expected: nat) returns (r: Result<SourceBinding, BindingError>)
      requires Valid()
      modifies this
      ensures Valid() && Saved(bindings, r) == SaveStep(old(bindings), b, expected)
    {
      SavesAreOrderly(bindings, b, expected);
      var valid := Validate(b);
      if !valid {
        return Err(InvalidBinding);
      }
      if !ValidRevision(bindings, b, expected) {
        return Err(BindingConflict);
      }
      if b.id in bindings && !SameOwner(bindings[b.id], b) {
        return Err(BindingConflict);
      }
      var other := HasOtherEnabledClient(b.clientId, b.id);
      if b.enabled && other {
        return Err(BindingConflict);
      }
      bindings := bindings[b.id := b];
      return Ok(b);
    }

    method HasOtherEnabledClient(clientId: string, exceptId: string) returns (found: bool)
      ensures found <==> OtherEnabled(bindings, clientId, exceptId)
    {
      var ids := bindings.Keys;
      while ids != {}
        invariant ids <= bindings.Keys
        invariant forall id | id in bindings && id !in ids ::
                    !(id != exceptId && bindings[id].enabled && bindings[id].clientId == clientId)
        decreases ids
      {
        var id :| id in ids;
        ids := ids - {id};
        if id != exceptId && bindings[id].enabled && bindings[id].clientId == clientId {
          return true;
        }
      }
      return false;
    }

    /** The rows of one client, by id; collecting the ids in order stands for sorting the rows. */
    method ListByClient(clientId: string) returns (rows: seq<SourceBinding>)
      requires Filed(bindings)
      ensures forall i | 0 <= i < |rows| ::
                rows[i].id in bindings && bindings[rows[i].id] == rows[i] && rows[i].clientId == clientId
      ensures forall id | id in bindings && bindings[id].clientId == clientId :: bindings[id] in rows
      ensures forall i, j | 0 <= i < j < |rows| :: rows[i].id != rows[j].id
      ensures ById(rows)
    {
      var ids := Strings.SortedNames(IdsOf(bindings, clientId));
      Strings.OrderedLists(IdsOf(bindings, clientId));
      rows := [];
      for k := 0 to |ids|
        invariant |rows| == k
        invariant forall i | 0 <= i < k :: ids[i] in bindings && bindings[ids[i]] == rows[i]
      {
        rows := rows + [bindings[ids[k]]];
      }
      RowsOfIds(bindings, clientId, ids, rows);
    }

    // ---------------------------------------------------------- catalog.go

    method FindSourceBinding(clientId: string, id: string) returns (found: Option<SourceBinding>)
      requires Filed(bindings)
      ensures found == Find(bindings, clientId, id)
    {
      var rows := ListByClient(clientId);
      assert id in bindings ==> bindings[id].id == id;
      for i := 0 to |rows|
        invariant forall j | 0 <= j < i :: rows[j].id != id
      {
        if rows[i].id == id {
          return Some(rows[i]);
        }
      }
      return None;
    }

    /** applySourceBinding with no other writer between its steps. */
    method ApplySourceBinding(desired: SourceBinding) returns (r: Result<(), BindingError>)
      requires Valid() && desired.Valid()
      modifies this
      ensures Valid()
      ensures r.Ok? <==> Applies(old(bindings), desired)
      ensures bindings == if r.Ok? then old(bindings)[desired.id := desired] else old(bindings)
    {
      FindSettled(bindings, desired);
      var current := FindSourceBinding(desired.clientId, desired.id);
      if SameBinding(current, desired) {
        return Ok(());
      }
      var expected := ExpectedSourceRevision(current, desired);
      if NextRevision(bindings, desired) {
        ExpectedWhereApplies(bindings, desired);
      }
      if expected.Err? {
        return Err(expected.error);
      }
      assert desired.id in bindings ==> bindings[desired.id].Valid();
      SaveWhereApplies(bindings, desired, expected.value);
      var stored := SaveSourceBinding(desired, expected.value);
      if stored.Ok? {
        return if SameBinding(Some(stored.value), desired) then Ok(()) else Err(BindingConflict);
      }
      var concurrent := FindSourceBinding(desired.clientId, desired.id);
      if SameBinding(concurrent, desired) {
        return Ok(());
      }
      return Err(BindingConflict);
    }

    /**
     applySourceBindings: it succeeds exactly when the file is valid and every row is in place or one
     revision ahead with no enabled row of its client left out. What a failure leaves behind is a mix
     of old rows and rows of the file.
     */
    method ApplySourceBindings(file: seq<SourceBinding>) returns (r: Result<(), BindingError>)
      requires Valid()
      modifies this
      ensures Valid() && Between(old(bindings), bindings, file)
      ensures r.Ok? <==> ValidFile(file) && Appliable(old(bindings), file)
      ensures r.Ok? ==> Done(bindings, file, |file|)
    {
      var valid := ValidateFile(file);
      if !valid {
        return Err(InvalidBinding);
      }
      var rows := new SourceBinding[|file|](i requires 0 <= i < |file| => file[i]);
      assert rows[..] == file;
      SortDisablesFirst(rows);
      DisablesFirstKeepsFile(file);
      SortingIsNeutral(bindings, bindings, file);
      r := ApplyInOrder(rows[..]);
      SortingIsNeutral(old(bindings), bindings, file);
      if r.Ok? {
        r := ValidateBoundClients(rows[..]);
      }
    }

    method ApplyInOrder(rows: seq<SourceBinding>) returns (r: Result<(), BindingError>)
      requires Valid() && ValidFile(rows) && InOrder(rows)
      modifies this
      ensures Valid() && Between(old(bindings), bindings, rows)
      ensures r.Ok? <==> Appliable(old(bindings), rows)
      ensures r.Ok? ==> Done(bindings, rows, |rows|)
    {
      for k := 0 to |rows|
        invariant Valid() && Progress(old(bindings), bindings, rows, k)
      {
        ghost var now := bindings;
        var applied := ApplySourceBinding(rows[k]);
        if applied.Err? {
          ProgressStops(old(bindings), now, rows, k);
          return Err(applied.error);
        }
        ProgressStep(old(bindings), now, rows, k);
      }
      return Ok(());
    }

    ghost predicate ClientEnabledOnce(clientId: string)
      reads this
    {
      forall id, id' | id in bindings && id' in bindings && EnableSameClient(bindings[id], bindings[id'])
                       && bindings[id].clientId == clientId :: id == id'
    }

    /** validateBoundClients: whether each client of the file has at most one enabled row in the store. */
    method ValidateBoundClients(desired: seq<SourceBinding>) returns (r: Result<(), BindingError>)
      requires Filed(bindings)
      ensures r == if forall k | 0 <= k < |desired| :: ClientEnabledOnce(desired[k].clientId)
                   then Ok(()) else Err(BindingUnauthorized)
    {
      var checked: set<string> := {};
      for i := 0 to |desired|
        invariant forall k | 0 <= k < i :: desired[k].clientId in checked
        invariant forall clientId | clientId in checked :: ClientEnabledOnce(clientId)
      {
        var clientId := desired[i].clientId;
        if clientId in checked {
          continue;
        }
        checked := checked + {clientId};
        var once := CountEnabled(clientId);
        if !once {
          return Err(BindingUnauthorized);
        }
      }
      return Ok(());
    }

    /** Counts a client's enabled rows: whether there are no two. */
    method CountEnabled(clientId: string) returns (once: bool)
      requires Filed(bindings)
      ensures once <==> ClientEnabledOnce(clientId)
    {
      var rows := ListByClient(clientId);
      var enabled := 0;
      for j := 0 to |rows|
        invariant enabled == |EnabledUpTo(rows, j)|
      {
        EnabledGrows(rows, j);
        if rows[j].enabled {
          enabled := enabled + 1;
        }
      }
      once := enabled <= 1;
      EnabledOfClient(clientId, rows, EnabledUpTo(rows, |rows|));
    }

    lemma EnabledOfClient(clientId: string, rows: seq<SourceBinding>, seen: set<nat>)
      requires Filed(bindings)
      requires forall i | 0 <= i < |rows| ::
                 rows[i].id in bindings && bindings[rows[i].id] == rows[i] && rows[i].clientId == clientId
      requires forall id | id in bindings && bindings[id].clientId == clientId :: bindings[id] in rows
      requires forall i, j | 0 <= i < j < |rows| :: rows[i].id != rows[j].id
      requires forall k: nat :: k in seen <==> k < |rows| && rows[k].enabled
      ensures |seen| <= 1 <==> ClientEnabledOnce(clientId)
    {
      AtMostOne(seen);
      if ClientEnabledOnce(clientId) {
        forall i, j | i in seen && j in seen ensures i == j {
          assert EnableSameClient(bindings[rows[i].id], bindings[rows[j].id]);
        }
      }
      if |seen| <= 1 {
        forall id, id' | id in bindings && id' in bindings && EnableSameClient(bindings[id], bindings[id'])
                         && bindings[id].clientId == clientId ensures id == id' {
          assert bindings[id] in rows && bindings[id'] in rows;
          var i: nat :| i < |rows| && rows[i] == bindings[id];
          var j: nat :| j < |rows| && rows[j] == bindings[id'];
          assert i in seen && j in seen;
        }
      }
    }
  }
}
