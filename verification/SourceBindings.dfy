/**
 Source bindings: the store with its compare-and-swap on revisions, and the program that brings the
 store to the state a file describes (catalog.go, source_binding.go, memory_binding.go).
 */
module SourceBindings {
  import opened Wrappers
  import opened Model
  import Text

  const MAX_INT64: nat := 0x7fff_ffff_ffff_ffff

  datatype BindingError = InvalidBinding | BindingConflict | BindingUnauthorized

  datatype SourceBinding = SourceBinding(
    id: string,
    clientId: string,
    tenantId: string,
    sourceSystem: string,
    allowedDimensions: seq<string>,
    enabled: bool,
    revision: nat,
    createdAt: Time,
    updatedAt: Time)
  {
    ghost predicate Valid() {
      && Identities([id, clientId, tenantId, sourceSystem])
      && 1 <= revision <= MAX_INT64
      && createdAt != ZERO_TIME && updatedAt != ZERO_TIME && createdAt <= updatedAt
      && |allowedDimensions| <= 64 && Identities(allowedDimensions) && Distinct(allowedDimensions)
    }
  }

  /** The negation of invalidBindingIdentity; trimmed strings are those TrimSpace leaves alone. */
  predicate BindingIdentity(s: string) {
    s != "" && Text.Trimmed(s) && Text.ByteLength(s) <= 256
  }

  predicate Identities(names: seq<string>) {
    names == [] || (Identities(names[..|names| - 1]) && BindingIdentity(names[|names| - 1]))
  }

  predicate Distinct(names: seq<string>) {
    names == [] || (Distinct(names[..|names| - 1]) && names[|names| - 1] !in names[..|names| - 1])
  }

  lemma {:induction false} PrefixesToo(names: seq<string>, k: nat)
    requires k <= |names| && Identities(names) && Distinct(names)
    ensures Identities(names[..k]) && Distinct(names[..k])
  {
    if k < |names| {
      PrefixesToo(names[..|names| - 1], k);
      assert names[..|names| - 1][..k] == names[..k];
    } else {
      assert names[..k] == names;
    }
  }

  method ValidateDimensions(dimensions: seq<string>) returns (ok: bool)
    ensures ok <==> |dimensions| <= 64 && Identities(dimensions) && Distinct(dimensions)
  {
    if |dimensions| > 64 {
      return false;
    }
    var seen: set<string> := {};
    for k := 0 to |dimensions|
      invariant seen == set s | s in dimensions[..k]
      invariant Identities(dimensions[..k]) && Distinct(dimensions[..k])
    {
      assert dimensions[..k + 1] == dimensions[..k] + [dimensions[k]];
      assert dimensions[..k + 1][..k] == dimensions[..k];
      if !BindingIdentity(dimensions[k]) || dimensions[k] in seen {
        if Identities(dimensions) && Distinct(dimensions) {
          PrefixesToo(dimensions, k + 1);
        }
        return false;
      }
      seen := seen + {dimensions[k]};
    }
    assert dimensions[..|dimensions|] == dimensions;
    return true;
  }

  lemma FourIdentities(a: string, b: string, c: string, d: string)
    ensures Identities([a, b, c, d])
       <==> BindingIdentity(a) && BindingIdentity(b) && BindingIdentity(c) && BindingIdentity(d)
  {
    assert [a, b, c, d][..3] == [a, b, c] && [a, b, c][..2] == [a, b] && [a, b][..1] == [a] && [a][..0] == [];
    assert Identities([a]) <==> BindingIdentity(a);
    assert Identities([a, b]) <==> Identities([a]) && BindingIdentity(b);
    assert Identities([a, b, c]) <==> Identities([a, b]) && BindingIdentity(c);
  }

  method Validate(b: SourceBinding) returns (ok: bool)
    ensures ok <==> b.Valid()
  {
    FourIdentities(b.id, b.clientId, b.tenantId, b.sourceSystem);
    if !BindingIdentity(b.id) || !BindingIdentity(b.clientId) || !BindingIdentity(b.tenantId)
       || !BindingIdentity(b.sourceSystem) {
      return false;
    }
    if b.revision == 0 || b.revision > MAX_INT64 || b.createdAt == ZERO_TIME || b.updatedAt == ZERO_TIME
       || b.updatedAt < b.createdAt {
      return false;
    }
    ok := ValidateDimensions(b.allowedDimensions);
  }

  // ------------------------------------------------------------------- store

  type Bindings = map<string, SourceBinding>

  predicate OtherEnabled(bindings: Bindings, clientId: string, exceptId: string) {
    exists id | id in bindings :: id != exceptId && bindings[id].enabled && bindings[id].clientId == clientId
  }

  /** Rows are valid, filed under their id, and no client has two enabled ones. */
  ghost predicate StoreOk(bindings: Bindings) {
    Filed(bindings) && RowsValid(bindings) && EnabledOnce(bindings)
  }

  ghost predicate Filed(bindings: Bindings) {
    forall id | id in bindings :: bindings[id].id == id
  }

  ghost predicate RowsValid(bindings: Bindings) {
    forall id | id in bindings :: bindings[id].Valid()
  }

  ghost predicate EnabledOnce(bindings: Bindings) {
    forall id, id' | id in bindings && id' in bindings && EnableSameClient(bindings[id], bindings[id']) :: id == id'
  }

  predicate EnableSameClient(a: SourceBinding, b: SourceBinding) {
    a.enabled && b.enabled && a.clientId == b.clientId
  }

  datatype Saved = Saved(bindings: Bindings, answer: Result<SourceBinding, BindingError>)

  predicate SameOwner(a: SourceBinding, b: SourceBinding) {
    a.clientId == b.clientId && a.tenantId == b.tenantId && a.sourceSystem == b.sourceSystem
  }

  /** validBindingRevision */
  predicate ValidRevision(bindings: Bindings, b: SourceBinding, expected: nat) {
    if b.id !in bindings then expected == 0 && b.revision == 1
    else bindings[b.id].revision == expected && b.revision == expected + 1 && b.createdAt == bindings[b.id].createdAt
  }

  /** SaveSourceBinding of the memory store. */
  ghost function SaveStep(bindings: Bindings, b: SourceBinding, expected: nat): Saved {
    if !b.Valid() then Saved(bindings, Err(InvalidBinding))
    else if !ValidRevision(bindings, b, expected)
            || (b.id in bindings && !SameOwner(bindings[b.id], b))
            || (b.enabled && OtherEnabled(bindings, b.clientId, b.id)) then
      Saved(bindings, Err(BindingConflict))
    else Saved(bindings[b.id := b], Ok(b))
  }

  /** SaveSourceBinding of the PostgreSQL store: an INSERT under the unique indexes or one guarded UPDATE. */
  ghost function SaveSql(bindings: Bindings, b: SourceBinding, expected: nat): Saved {
    if !b.Valid() then Saved(bindings, Err(InvalidBinding))
    else if b.revision != expected + 1 then Saved(bindings, Err(BindingConflict))
    else if expected == 0 then
      if b.id in bindings || (b.enabled && OtherEnabled(bindings, b.clientId, b.id)) then
        Saved(bindings, Err(BindingConflict))
      else Saved(bindings[b.id := b], Ok(b))
    else if b.id !in bindings then Saved(bindings, Err(BindingConflict))
    else
      var row := bindings[b.id];
      if !SameOwner(row, b) || row.revision != expected || row.createdAt != b.createdAt
         || (b.enabled && OtherEnabled(bindings, b.clientId, b.id)) then
        Saved(bindings, Err(BindingConflict))
      else
        Saved(bindings[b.id := row.(allowedDimensions := b.allowedDimensions, enabled := b.enabled,
                                    revision := b.revision, updatedAt := b.updatedAt)], Ok(b))
  }

  /** The two stores are the same store. */
  lemma StoresAgree(bindings: Bindings, b: SourceBinding, expected: nat)
    requires StoreOk(bindings)
    ensures SaveSql(bindings, b, expected) == SaveStep(bindings, b, expected)
  {
    assert b.id in bindings ==> bindings[b.id].id == b.id && bindings[b.id].Valid();
  }

  /** A write raises one revision by exactly one, keeps the identity and never enables a client twice. */
  lemma SavesAreOrderly(bindings: Bindings, b: SourceBinding, expected: nat)
    requires StoreOk(bindings)
    ensures
      var saved := SaveStep(bindings, b, expected);
      && StoreOk(saved.bindings)
      && (saved.answer.Err? ==> saved.bindings == bindings)
      && (forall id | id != b.id :: SameRow(saved.bindings, bindings, id))
      && (saved.answer.Ok? ==>
            && saved.bindings[b.id] == b && b.revision == expected + 1
            && (b.id in bindings ==> bindings[b.id].revision == expected && SameIdentity(bindings[b.id], b))
            && (b.id !in bindings ==> expected == 0))
  {
    if SaveStep(bindings, b, expected).answer.Ok? {
      WriteKeepsStoreOk(bindings, b);
      assert b.id in bindings ==> bindings[b.id].id == b.id && bindings[b.id].Valid();
    }
  }

  lemma WriteKeepsStoreOk(bindings: Bindings, b: SourceBinding)
    requires StoreOk(bindings) && b.Valid() && (b.enabled ==> !OtherEnabled(bindings, b.clientId, b.id))
    ensures StoreOk(bindings[b.id := b])
  {
    var after := bindings[b.id := b];
    assert RowsValid(after);
    assert EnabledOnce(after);
  }

  predicate SameRow(a: Bindings, b: Bindings, id: string) {
    (id in a <==> id in b) && (id in a ==> a[id] == b[id])
  }

  /** sameSourceIdentity */
  predicate SameIdentity(a: SourceBinding, b: SourceBinding) {
    a.id == b.id && SameOwner(a, b) && a.createdAt == b.createdAt
  }

  /** sameSourceBinding, which compares every field. */
  predicate SameBinding(current: Option<SourceBinding>, desired: SourceBinding) {
    current.Some? && SameIdentity(current.value, desired) && current.value.enabled == desired.enabled
    && current.value.revision == desired.revision && current.value.updatedAt == desired.updatedAt
    && current.value.allowedDimensions == desired.allowedDimensions
  }

  /** What findSourceBinding finds. */
  function Find(bindings: Bindings, clientId: string, id: string): Option<SourceBinding> {
    if id in bindings && bindings[id].clientId == clientId then Some(bindings[id]) else None
  }

  /** expectedSourceRevision */
  ghost function ExpectedRevision(current: Option<SourceBinding>, desired: SourceBinding): Result<nat, BindingError> {
    match current
    case None => if desired.revision == 1 then Ok(0) else Err(BindingConflict)
    case Some(row) =>
      if !row.Valid() || !SameIdentity(row, desired) || desired.revision != row.revision + 1
         || desired.updatedAt <= row.updatedAt then Err(BindingConflict)
      else Ok(row.revision)
  }

  // ---------------------------------------------------------------- the file

  /** What validateSourceBindingFile accepts: valid rows, distinct ids, no client enabled twice. */
  ghost predicate ValidFile(file: seq<SourceBinding>) {
    && (forall i | 0 <= i < |file| :: file[i].Valid())
    && RowsCompatible(file, |file|)
  }

  ghost predicate RowsCompatible(file: seq<SourceBinding>, n: nat)
    requires n <= |file|
  {
    forall i, j | 0 <= i < j < n :: Compatible(file[i], file[j])
  }

  /** Two rows one file may hold. */
  predicate Compatible(a: SourceBinding, b: SourceBinding) {
    a.id != b.id && !EnableSameClient(a, b)
  }

  function Ids(file: seq<SourceBinding>, n: nat): set<string>
    requires n <= |file|
  {
    set i | 0 <= i < n :: file[i].id
  }

  function EnabledClients(file: seq<SourceBinding>, n: nat): set<string>
    requires n <= |file|
  {
    set i | 0 <= i < n && file[i].enabled :: file[i].clientId
  }

  /** A row fits behind the rows before it exactly when its id is new and, if enabled, so is its client. */
  lemma FitsBehind(file: seq<SourceBinding>, k: nat)
    requires k < |file| && RowsCompatible(file, k)
    ensures RowsCompatible(file, k + 1)
       <==> file[k].id !in Ids(file, k) && !(file[k].enabled && file[k].clientId in EnabledClients(file, k))
    ensures Ids(file, k + 1) == Ids(file, k) + {file[k].id}
    ensures EnabledClients(file, k + 1) == EnabledClients(file, k) + if file[k].enabled then {file[k].clientId} else {}
  {
    if file[k].id in Ids(file, k) {
      var i :| 0 <= i < k && file[i].id == file[k].id;
      assert !Compatible(file[i], file[k]);
    }
    if file[k].enabled && file[k].clientId in EnabledClients(file, k) {
      var i :| 0 <= i < k && file[i].enabled && file[i].clientId == file[k].clientId;
      assert !Compatible(file[i], file[k]);
    }
  }

  method ValidateFile(file: seq<SourceBinding>) returns (ok: bool)
    ensures ok <==> ValidFile(file)
  {
    var ids: set<string>, enabledClients: set<string> := {}, {};
    for k := 0 to |file|
      invariant forall i | 0 <= i < k :: file[i].Valid()
      invariant RowsCompatible(file, k)
      invariant ids == Ids(file, k) && enabledClients == EnabledClients(file, k)
    {
      FitsBehind(file, k);
      var valid := Validate(file[k]);
      if !valid || file[k].id in ids {
        return false;
      }
      ids := ids + {file[k].id};
      if !file[k].enabled {
        continue;
      }
      if file[k].clientId in enabledClients {
        return false;
      }
      enabledClients := enabledClients + {file[k].clientId};
    }
    return true;
  }

  function Filter(bindings: seq<SourceBinding>, enabled: bool): (r: seq<SourceBinding>)
    ensures |r| <= |bindings|
  {
    if bindings == [] then []
    else
      var init, last := bindings[..|bindings| - 1], bindings[|bindings| - 1];
      Filter(init, enabled) + if last.enabled == enabled then [last] else []
  }

  /** The order of application: the disabled rows, then the enabled ones, each in file order. */
  function DisablesFirst(file: seq<SourceBinding>): seq<SourceBinding> {
    Filter(file, false) + Filter(file, true)
  }

  /** Ordered by the comparison SortStableFunc is given. */
  ghost predicate InOrder(bindings: seq<SourceBinding>) {
    forall i, j | 0 <= i < j < |bindings| :: bindings[i].enabled ==> bindings[j].enabled
  }

  lemma {:induction false} FilterKeeps(bindings: seq<SourceBinding>, enabled: bool)
    ensures forall i | 0 <= i < |Filter(bindings, enabled)| ::
              Filter(bindings, enabled)[i] in bindings && Filter(bindings, enabled)[i].enabled == enabled
    ensures forall i | 0 <= i < |bindings| && bindings[i].enabled == enabled :: bindings[i] in Filter(bindings, enabled)
  {
    if bindings != [] {
      FilterKeeps(bindings[..|bindings| - 1], enabled);
    }
  }

  lemma {:induction false} FilterCompatible(bindings: seq<SourceBinding>, enabled: bool)
    requires RowsCompatible(bindings, |bindings|)
    ensures RowsCompatible(Filter(bindings, enabled), |Filter(bindings, enabled)|)
  {
    if bindings != [] {
      var init, last := bindings[..|bindings| - 1], bindings[|bindings| - 1];
      FilterCompatible(init, enabled);
      FilterKeeps(init, enabled);
      forall i | 0 <= i < |Filter(init, enabled)| ensures Compatible(Filter(init, enabled)[i], last) {
        var k :| 0 <= k < |init| && init[k] == Filter(init, enabled)[i];
        assert Compatible(bindings[k], last);
      }
    }
  }

  lemma AnyTwoCompatible(bindings: seq<SourceBinding>, a: SourceBinding, b: SourceBinding)
    requires RowsCompatible(bindings, |bindings|) && a in bindings && b in bindings && a != b
    ensures Compatible(a, b)
  {
    var i :| 0 <= i < |bindings| && bindings[i] == a;
    var j :| 0 <= j < |bindings| && bindings[j] == b;
    assert if i < j then Compatible(bindings[i], bindings[j]) else Compatible(bindings[j], bindings[i]);
  }

  /** Sorting keeps a file valid: the same rows, no row twice. */
  lemma DisablesFirstKeepsFile(file: seq<SourceBinding>)
    ensures forall d :: d in DisablesFirst(file) <==> d in file
    ensures InOrder(DisablesFirst(file))
    ensures RowsCompatible(file, |file|) ==> RowsCompatible(DisablesFirst(file), |DisablesFirst(file)|)
  {
    var disabled, enabled := Filter(file, false), Filter(file, true);
    FilterKeeps(file, false);
    FilterKeeps(file, true);
    if RowsCompatible(file, |file|) {
      FilterCompatible(file, false);
      FilterCompatible(file, true);
      forall i, j | 0 <= i < |disabled| && 0 <= j < |enabled| ensures Compatible(disabled[i], enabled[j]) {
        AnyTwoCompatible(file, disabled[i], enabled[j]);
      }
    }
  }

  /** A rearrangement that keeps the order within each class and is ordered can only be DisablesFirst. */
  lemma {:induction false} OrderedIsDisablesFirst(bindings: seq<SourceBinding>)
    requires InOrder(bindings)
    ensures DisablesFirst(bindings) == bindings
  {
    if bindings != [] {
      var init, last := bindings[..|bindings| - 1], bindings[|bindings| - 1];
      OrderedIsDisablesFirst(init);
      if !last.enabled {
        assert forall i | 0 <= i < |init| :: !bindings[i].enabled;
        NoneEnabled(init);
      }
      assert init + [last] == bindings;
    }
  }

  lemma {:induction false} NoneEnabled(bindings: seq<SourceBinding>)
    requires forall i | 0 <= i < |bindings| :: !bindings[i].enabled
    ensures Filter(bindings, true) == []
  {
    if bindings != [] {
      NoneEnabled(bindings[..|bindings| - 1]);
    }
  }

  lemma {:induction false} FilterConcat(a: seq<SourceBinding>, b: seq<SourceBinding>, enabled: bool)
    ensures Filter(a + b, enabled) == Filter(a, enabled) + Filter(b, enabled)
  {
    if b == [] {
      assert a + b == a;
    } else {
      var init, last := b[..|b| - 1], b[|b| - 1];
      assert (a + b)[..|a + b| - 1] == a + init;
      FilterConcat(a, init, enabled);
    }
  }

  /** Swapping an enabled row with the disabled row behind it moves no row within its class. */
  lemma SwapKeepsClasses(bindings: seq<SourceBinding>, j: nat, enabled: bool)
    requires 0 < j < |bindings| && bindings[j - 1].enabled && !bindings[j].enabled
    ensures Filter(bindings[j - 1 := bindings[j]][j := bindings[j - 1]], enabled) == Filter(bindings, enabled)
  {
    var x, y := bindings[j - 1], bindings[j];
    var front, back := bindings[..j - 1], bindings[j + 1..];
    assert bindings == front + ([x, y] + back);
    assert bindings[j - 1 := y][j := x] == front + ([y, x] + back);
    FilterConcat(front, [x, y] + back, enabled);
    FilterConcat(front, [y, x] + back, enabled);
    FilterConcat([x, y], back, enabled);
    FilterConcat([y, x], back, enabled);
    assert [x, y][..1] == [x] && [y, x][..1] == [y] && [x][..0] == [] && [y][..0] == [];
    assert Filter([x], enabled) == (if enabled then [x] else []);
    assert Filter([y], enabled) == (if enabled then [] else [y]);
    assert Filter([x, y], enabled) == Filter([y, x], enabled);
  }

  /** The in-place stable sort: insertion, as slices.SortStableFunc does on its blocks. */
  method SortDisablesFirst(a: array<SourceBinding>)
    modifies a
    ensures a[..] == DisablesFirst(old(a[..]))
  {
    for i := 0 to a.Length
      invariant Filter(a[..], false) == Filter(old(a[..]), false)
      invariant Filter(a[..], true) == Filter(old(a[..]), true)
      invariant forall k, l | 0 <= k < l < i :: a[k].enabled ==> a[l].enabled
    {
      var j := i;
      while j > 0 && a[j - 1].enabled && !a[j].enabled
        invariant 0 <= j <= i
        invariant Filter(a[..], false) == Filter(old(a[..]), false)
        invariant Filter(a[..], true) == Filter(old(a[..]), true)
        invariant forall k, l | 0 <= k < l <= i && l != j :: a[k].enabled ==> a[l].enabled
      {
        ghost var before := a[..];
        SwapKeepsClasses(before, j, false);
        SwapKeepsClasses(before, j, true);
        a[j - 1], a[j] := a[j], a[j - 1];
        assert a[..] == before[j - 1 := before[j]][j := before[j - 1]];
        j := j - 1;
      }
    }
    OrderedIsDisablesFirst(a[..]);
  }
}
