/**
 Any number of processes applying the same bindings file to one store at the same time. Between a
 process's read, its compare-and-swap and its second read, every other process may move.
 */
module Replicas {
  import opened Wrappers
  import opened SourceBindings
  import opened BindingReconciliation

  datatype Phase =
    | Reading
    | Saving(expected: nat)
    | Rereading
    | Checking(row: nat)     // validateBoundClients
    | Finished
    | Failed

  /** A process: the row of the ordered file it is at, and where it is in applySourceBinding. */
  datatype Replica = Replica(next: nat, phase: Phase)

  datatype World = World(store: Bindings, replicas: seq<Replica>)

  const START := Replica(0, Reading)

  predicate Active(r: Replica) {
    !r.phase.Finished? && !r.phase.Failed?
  }

  /** The replica goes on to the next row, or to the final check. */
  function Advance(file: seq<SourceBinding>, r: Replica): Replica {
    if r.next + 1 < |file| then Replica(r.next + 1, Reading) else Replica(|file|, Checking(0))
  }

  function Begin(file: seq<SourceBinding>): Replica {
    if file == [] then Replica(0, Checking(0)) else START
  }

  function EnabledRows(store: Bindings, clientId: string): set<string> {
    set id | id in store && store[id].enabled && store[id].clientId == clientId
  }

  /** One step of one replica: one store call and what the replica concludes from it. */
  ghost function Move(file: seq<SourceBinding>, store: Bindings, r: Replica): (Bindings, Replica)
    requires r.phase.Checking? || !Active(r) || r.next < |file|
  {
    match r.phase
    case Reading =>
      var d := file[r.next];
      var current := Find(store, d.clientId, d.id);
      if SameBinding(current, d) then (store, Advance(file, r))
      else
        var expected := ExpectedRevision(current, d);
        (store, r.(phase := if expected.Ok? then Saving(expected.value) else Failed))
    case Saving(expected) =>
      var d := file[r.next];
      var saved := SaveStep(store, d, expected);
      (saved.bindings,
       match saved.answer
       case Ok(stored) => if SameBinding(Some(stored), d) then Advance(file, r) else r.(phase := Failed)
       case Err(e) => r.(phase := if e == BindingConflict then Rereading else Failed))
    case Rereading =>
      var d := file[r.next];
      (store, if SameBinding(Find(store, d.clientId, d.id), d) then Advance(file, r) else r.(phase := Failed))
    case Checking(row) =>
      (store,
       if row >= |file| then r.(phase := Finished)
       else if |EnabledRows(store, file[row].clientId)| > 1 then r.(phase := Failed)
       else r.(phase := Checking(row + 1)))
    case _ => (store, r)
  }

  ghost predicate Step(file: seq<SourceBinding>, w: World, w': World, i: nat) {
    && i < |w.replicas| && Active(w.replicas[i])
    && (w.replicas[i].phase.Checking? || w.replicas[i].next < |file|)
    && var (store, r) := Move(file, w.store, w.replicas[i]);
       w' == World(store, w.replicas[i := r])
  }

  ghost predicate SomeStep(file: seq<SourceBinding>, w: World, w': World) {
    exists i: nat :: Step(file, w, w', i)
  }

  /** A run of any number of replicas from a store, with no other writer. */
  ghost predicate Run(file: seq<SourceBinding>, before: Bindings, ws: seq<World>) {
    && ws != [] && ws[0].store == before
    && (forall i | 0 <= i < |ws[0].replicas| :: ws[0].replicas[i] == Begin(file))
    && (forall k | 0 <= k < |ws| - 1 :: SomeStep(file, ws[k], ws[k + 1]))
  }

  // --------------------------------------------------------------- invariant

  /** A row the file may be given to the store for: it was in place from the start, or it applies. */
  ghost predicate RowOrigin(before: Bindings, now: Bindings, file: seq<SourceBinding>, d: SourceBinding) {
    Settled(now, d) ==> AppliesIn(before, file, d)
  }

  ghost predicate PhaseOk(before: Bindings, now: Bindings, file: seq<SourceBinding>, r: Replica) {
    match r.phase
    case Reading => r.next < |file|
    case Saving(expected) =>
      && r.next < |file|
      && ExpectedRevision(Find(before, file[r.next].clientId, file[r.next].id), file[r.next]) == Ok(expected)
    case Rereading => r.next < |file|
    case _ => r.next == |file| || r.phase.Failed?
  }

  ghost predicate ReplicaOk(before: Bindings, now: Bindings, file: seq<SourceBinding>, r: Replica) {
    && r.next <= |file| && Done(now, file, r.next) && PhaseOk(before, now, file, r)
    && (Appliable(before, file) ==> !r.phase.Failed? && (r.phase.Rereading? ==> Settled(now, file[r.next])))
  }

  ghost predicate Inv(before: Bindings, file: seq<SourceBinding>, w: World) {
    && StoreOk(w.store) && Between(before, w.store, file)
    && (forall k | 0 <= k < |file| :: RowOrigin(before, w.store, file, file[k]))
    && (forall i | 0 <= i < |w.replicas| :: ReplicaOk(before, w.store, file, w.replicas[i]))
  }

  /** A store in which some rows moved on to what the file says, and none back. */
  ghost predicate Forward(now: Bindings, later: Bindings, file: seq<SourceBinding>) {
    forall k | 0 <= k < |file| && Settled(now, file[k]) :: Settled(later, file[k])
  }

  lemma OthersStayOk(before: Bindings, now: Bindings, later: Bindings, file: seq<SourceBinding>, r: Replica)
    requires ReplicaOk(before, now, file, r) && Forward(now, later, file)
    ensures ReplicaOk(before, later, file, r)
  {
  }

  lemma AdvanceIsOk(before: Bindings, now: Bindings, file: seq<SourceBinding>, r: Replica)
    requires r.next < |file| && Done(now, file, r.next) && Settled(now, file[r.next])
    ensures ReplicaOk(before, now, file, Advance(file, r))
  {
  }

  lemma ReadingStep(before: Bindings, w: World, file: seq<SourceBinding>, r: Replica)
    requires StoreOk(before) && ValidFile(file) && InOrder(file) && Inv(before, file, w)
    requires ReplicaOk(before, w.store, file, r) && r.phase.Reading?
    ensures Move(file, w.store, r).0 == w.store && ReplicaOk(before, w.store, file, Move(file, w.store, r).1)
  {
    var d := file[r.next];
    FindSettled(w.store, d);
    if Settled(w.store, d) {
      AdvanceIsOk(before, w.store, file, r);
    } else {
      assert SameRow(w.store, before, d.id);
      if Appliable(before, file) {
        assert AppliesIn(before, file, d);
      }
    }
  }

  lemma RereadingStep(before: Bindings, w: World, file: seq<SourceBinding>, r: Replica)
    requires StoreOk(before) && ValidFile(file) && InOrder(file) && Inv(before, file, w)
    requires ReplicaOk(before, w.store, file, r) && r.phase.Rereading?
    ensures Move(file, w.store, r).0 == w.store && ReplicaOk(before, w.store, file, Move(file, w.store, r).1)
  {
    FindSettled(w.store, file[r.next]);
    if Settled(w.store, file[r.next]) {
      AdvanceIsOk(before, w.store, file, r);
    }
  }

  lemma CheckingStep(before: Bindings, w: World, file: seq<SourceBinding>, r: Replica)
    requires Inv(before, file, w) && ReplicaOk(before, w.store, file, r) && r.phase.Checking?
    ensures Move(file, w.store, r).0 == w.store && ReplicaOk(before, w.store, file, Move(file, w.store, r).1)
    ensures !Move(file, w.store, r).1.phase.Failed?
  {
    if r.phase.row < |file| {
      EnabledRowsAtMostOne(w.store, file[r.phase.row].clientId);
    }
  }

  lemma EnabledRowsAtMostOne(store: Bindings, clientId: string)
    requires EnabledOnce(store)
    ensures |EnabledRows(store, clientId)| <= 1
  {
    var ids := EnabledRows(store, clientId);
    if ids != {} {
      var id :| id in ids;
      assert forall id' | id' in ids :: EnableSameClient(store[id], store[id']);
      assert ids == {id};
    }
  }

  /** What one move must leave behind. */
  ghost predicate MoveOk(before: Bindings, now: Bindings, later: Bindings, file: seq<SourceBinding>, r: Replica) {
    && StoreOk(later) && Between(before, later, file) && Forward(now, later, file)
    && (forall k | 0 <= k < |file| :: RowOrigin(before, later, file, file[k]))
    && ReplicaOk(before, later, file, r)
  }

  lemma SavingStep(before: Bindings, w: World, file: seq<SourceBinding>, r: Replica)
    requires StoreOk(before) && ValidFile(file) && InOrder(file) && Inv(before, file, w)
    requires ReplicaOk(before, w.store, file, r) && r.phase.Saving?
    ensures MoveOk(before, w.store, Move(file, w.store, r).0, file, Move(file, w.store, r).1)
  {
    var now, d := w.store, file[r.next];
    if Settled(now, d) {
      assert d.revision == r.phase.expected + 1;
      assert SaveStep(now, d, r.phase.expected) == Saved(now, Err(BindingConflict));
    } else {
      assert SameRow(now, before, d.id);
      assert d.id in now ==> now[d.id].Valid();
      SaveWhereApplies(now, d, r.phase.expected);
      SavesAreOrderly(now, d, r.phase.expected);
      if Applies(now, d) {
        SavedRow(before, now, file, r);
      } else if Appliable(before, file) {
        NextRowApplies(before, now, file, r.next);
      }
    }
  }

  lemma SavedRow(before: Bindings, now: Bindings, file: seq<SourceBinding>, r: Replica)
    requires RowsCompatible(file, |file|) && Between(before, now, file) && r.next < |file|
    requires forall k | 0 <= k < |file| :: RowOrigin(before, now, file, file[k])
    requires Done(now, file, r.next) && Applies(now, file[r.next]) && SameRow(now, before, file[r.next].id)
    ensures
      var later := now[file[r.next].id := file[r.next]];
      && Between(before, later, file) && Forward(now, later, file)
      && (forall k | 0 <= k < |file| :: RowOrigin(before, later, file, file[k]))
      && ReplicaOk(before, later, file, Advance(file, r))
  {
    var later := now[file[r.next].id := file[r.next]];
    WriteStaysBetween(before, now, file, r.next);
    AppliedRowsCouldApply(before, now, file, r.next);
    forall k | 0 <= k < |file| && k != r.next ensures file[k].id != file[r.next].id {
      assert if k < r.next then Compatible(file[k], file[r.next]) else Compatible(file[r.next], file[k]);
    }
    AdvanceIsOk(before, later, file, r);
  }

  lemma MoveKeepsOk(before: Bindings, w: World, file: seq<SourceBinding>, i: nat)
    requires StoreOk(before) && ValidFile(file) && InOrder(file) && Inv(before, file, w)
    requires i < |w.replicas| && Active(w.replicas[i])
    ensures w.replicas[i].phase.Checking? || w.replicas[i].next < |file|
    ensures
      var (later, r) := Move(file, w.store, w.replicas[i]);
      MoveOk(before, w.store, later, file, r)
  {
    var r := w.replicas[i];
    assert ReplicaOk(before, w.store, file, r);
    match r.phase {
      case Reading => ReadingStep(before, w, file, r);
      case Saving(_) => SavingStep(before, w, file, r);
      case Rereading => RereadingStep(before, w, file, r);
      case Checking(_) => CheckingStep(before, w, file, r);
    }
  }

  lemma StepKeepsInv(before: Bindings, file: seq<SourceBinding>, w: World, w': World, i: nat)
    requires StoreOk(before) && ValidFile(file) && InOrder(file) && Inv(before, file, w) && Step(file, w, w', i)
    ensures Inv(before, file, w') && Forward(w.store, w'.store, file)
  {
    MoveKeepsOk(before, w, file, i);
    forall j | 0 <= j < |w'.replicas| ensures ReplicaOk(before, w'.store, file, w'.replicas[j]) {
      if j != i {
        OthersStayOk(before, w.store, w'.store, file, w.replicas[j]);
      }
    }
  }

  lemma SomeStepKeepsInv(before: Bindings, file: seq<SourceBinding>, w: World, w': World)
    requires StoreOk(before) && ValidFile(file) && InOrder(file) && Inv(before, file, w) && SomeStep(file, w, w')
    ensures Inv(before, file, w')
  {
    var i: nat :| Step(file, w, w', i);
    StepKeepsInv(before, file, w, w', i);
  }

  lemma RunKeepsInv(file: seq<SourceBinding>, before: Bindings, ws: seq<World>, n: nat)
    requires StoreOk(before) && ValidFile(file) && InOrder(file) && Run(file, before, ws) && n < |ws|
    ensures Inv(before, file, ws[n])
  {
    StartIsOk(file, before, ws[0]);
    for k := 0 to n
      invariant Inv(before, file, ws[k])
    {
      assert SomeStep(file, ws[k], ws[k + 1]);
      SomeStepKeepsInv(before, file, ws[k], ws[k + 1]);
    }
  }

  lemma StartIsOk(file: seq<SourceBinding>, before: Bindings, w: World)
    requires StoreOk(before) && w.store == before && forall i | 0 <= i < |w.replicas| :: w.replicas[i] == Begin(file)
    ensures Inv(before, file, w)
  {
    forall i | 0 <= i < |w.replicas| ensures ReplicaOk(before, w.store, file, w.replicas[i]) {
      assert w.replicas[i] == Begin(file);
    }
  }

  // ---------------------------------------------------------------- theorems

  /**
   Convergence, in every interleaving: if each row of the file is in place or one revision ahead and no
   enabled row of its clients is left out, no replica ever fails and a replica that finishes leaves the
   store equal to the file; if not, no replica ever finishes. Rows outside the file are never touched.
   */
  lemma ReplicasConverge(file: seq<SourceBinding>, before: Bindings, ws: seq<World>, k: nat, i: nat)
    requires StoreOk(before) && ValidFile(file) && Run(DisablesFirst(file), before, ws)
    requires k < |ws| && i < |ws[k].replicas|
    ensures Between(before, ws[k].store, file)
    ensures Appliable(before, file) ==> !ws[k].replicas[i].phase.Failed?
    ensures ws[k].replicas[i].phase.Finished? ==> Appliable(before, file) && Done(ws[k].store, file, |file|)
  {
    var sorted, now := DisablesFirst(file), ws[k].store;
    DisablesFirstKeepsFile(file);
    SortingIsNeutral(before, now, file);
    RunKeepsInv(sorted, before, ws, k);
    assert ReplicaOk(before, now, sorted, ws[k].replicas[i]);
    if ws[k].replicas[i].phase.Finished? {
      forall j | 0 <= j < |sorted| ensures AppliesIn(before, sorted, sorted[j]) {
        assert RowOrigin(before, now, sorted, sorted[j]);
      }
    }
  }

  /** At every moment, whatever the file and the store are to each other, no client has two enabled rows. */
  lemma NeverTwoEnabled(file: seq<SourceBinding>, before: Bindings, ws: seq<World>, k: nat)
    requires StoreOk(before) && ValidFile(file) && Run(DisablesFirst(file), before, ws) && k < |ws|
    ensures EnabledOnce(ws[k].store)
  {
    DisablesFirstKeepsFile(file);
    SortingIsNeutral(before, ws[k].store, file);
    RunKeepsInv(DisablesFirst(file), before, ws, k);
  }

  /** Where the store fits the file, the store's guard against two enabled rows is never what stops a save. */
  lemma GuardNeverFires(file: seq<SourceBinding>, before: Bindings, ws: seq<World>, k: nat, i: nat)
    requires StoreOk(before) && ValidFile(file) && Appliable(before, file) && Run(DisablesFirst(file), before, ws)
    requires k < |ws| && i < |ws[k].replicas| && ws[k].replicas[i].phase.Saving?
    ensures EnabledOnce(ws[k].store) && ws[k].replicas[i].next < |DisablesFirst(file)|
    ensures
      var d := DisablesFirst(file)[ws[k].replicas[i].next];
      Settled(ws[k].store, d) || !d.enabled || !OtherEnabled(ws[k].store, d.clientId, d.id)
  {
    var sorted := DisablesFirst(file);
    DisablesFirstKeepsFile(file);
    SortingIsNeutral(before, ws[k].store, file);
    RunKeepsInv(sorted, before, ws, k);
    assert ReplicaOk(before, ws[k].store, sorted, ws[k].replicas[i]);
    NextRowApplies(before, ws[k].store, sorted, ws[k].replicas[i].next);
  }

  /** A row that is new with revision 1, or one revision later with its identity kept. */
  ghost predicate OrderlyWrite(file: seq<SourceBinding>, now: Bindings, later: Bindings, d: SourceBinding) {
    && d in file && later == now[d.id := d]
    && (if d.id in now then d.revision == now[d.id].revision + 1 && SameIdentity(now[d.id], d) else d.revision == 1)
  }

  ghost predicate Writes(file: seq<SourceBinding>, now: Bindings, later: Bindings) {
    later == now || exists d :: OrderlyWrite(file, now, later, d)
  }

  lemma StepWrites(file: seq<SourceBinding>, w: World, w': World)
    requires StoreOk(w.store) && SomeStep(file, w, w')
    ensures Writes(file, w.store, w'.store)
  {
    var i: nat :| Step(file, w, w', i);
    var r := w.replicas[i];
    if w'.store != w.store {
      var d := file[r.next];
      SavesAreOrderly(w.store, d, r.phase.expected);
      assert OrderlyWrite(file, w.store, w'.store, d);
    }
  }

  /** Every change of the store is one orderly write of a row of the file. */
  lemma WritesAreOrderly(file: seq<SourceBinding>, before: Bindings, ws: seq<World>, k: nat)
    requires StoreOk(before) && ValidFile(file) && Run(DisablesFirst(file), before, ws) && k + 1 < |ws|
    ensures Writes(file, ws[k].store, ws[k + 1].store)
  {
    var sorted := DisablesFirst(file);
    DisablesFirstKeepsFile(file);
    SortingIsNeutral(before, before, file);
    RunKeepsInv(sorted, before, ws, k);
    assert SomeStep(sorted, ws[k], ws[k + 1]);
    StepWrites(sorted, ws[k], ws[k + 1]);
    if ws[k + 1].store != ws[k].store {
      var d :| OrderlyWrite(sorted, ws[k].store, ws[k + 1].store, d);
      assert OrderlyWrite(file, ws[k].store, ws[k + 1].store, d);
    }
  }

  // -------------------------------------------------------------- termination

  function Rank(file: seq<SourceBinding>, r: Replica): nat {
    var behind := if r.next <= |file| then |file| - r.next else 0;
    match r.phase
    case Reading => 3 * behind + |file| + 4
    case Saving(_) => 3 * behind + |file| + 3
    case Rereading => 3 * behind + |file| + 2
    case Checking(row) => if row <= |file| then |file| - row + 1 else 1
    case _ => 0
  }

  function Work(file: seq<SourceBinding>, replicas: seq<Replica>): nat {
    if replicas == [] then 0
    else Work(file, replicas[..|replicas| - 1]) + Rank(file, replicas[|replicas| - 1])
  }

  lemma {:induction false} WorkChanges(file: seq<SourceBinding>, replicas: seq<Replica>, i: nat, r: Replica)
    requires i < |replicas|
    ensures Work(file, replicas[i := r]) == Work(file, replicas) - Rank(file, replicas[i]) + Rank(file, r)
  {
    var init := replicas[..|replicas| - 1];
    if i < |init| {
      WorkChanges(file, init, i, r);
      assert replicas[i := r][..|replicas| - 1] == init[i := r];
    } else {
      assert replicas[i := r][..|replicas| - 1] == init;
    }
  }

  lemma {:induction false} WorkOfEqualReplicas(file: seq<SourceBinding>, replicas: seq<Replica>, r: Replica)
    requires forall i | 0 <= i < |replicas| :: replicas[i] == r
    ensures Work(file, replicas) == |replicas| * Rank(file, r)
  {
    if replicas != [] {
      WorkOfEqualReplicas(file, replicas[..|replicas| - 1], r);
    }
  }

  lemma StepDoesWork(file: seq<SourceBinding>, w: World, w': World, i: nat)
    requires Step(file, w, w', i)
    ensures Work(file, w'.replicas) < Work(file, w.replicas)
  {
    var r := Move(file, w.store, w.replicas[i]).1;
    WorkChanges(file, w.replicas, i, r);
  }

  lemma {:induction false} RunsAreBounded(file: seq<SourceBinding>, before: Bindings, ws: seq<World>, k: nat)
    requires Run(file, before, ws) && k < |ws|
    ensures |ws[k].replicas| == |ws[0].replicas|
    ensures k + Work(file, ws[k].replicas) <= |ws[0].replicas| * (4 * |file| + 4)
  {
    if k == 0 {
      WorkOfEqualReplicas(file, ws[0].replicas, Begin(file));
      assert Rank(file, Begin(file)) <= 4 * |file| + 4;
      Scale(|ws[0].replicas|, Rank(file, Begin(file)), 4 * |file| + 4);
    } else {
      RunsAreBounded(file, before, ws, k - 1);
      assert SomeStep(file, ws[k - 1], ws[k - 1 + 1]);
      var i: nat :| Step(file, ws[k - 1], ws[k], i);
      StepDoesWork(file, ws[k - 1], ws[k], i);
    }
  }

  lemma Scale(n: nat, a: nat, b: nat)
    requires a <= b
    ensures n * a <= n * b
  {
  }

  lemma ActiveReplicasCanMove(before: Bindings, file: seq<SourceBinding>, w: World, i: nat)
    requires StoreOk(before) && ValidFile(file) && InOrder(file) && Inv(before, file, w)
    requires i < |w.replicas| && Active(w.replicas[i])
    ensures exists w' :: SomeStep(file, w, w')
  {
    MoveKeepsOk(before, w, file, i);
    var (store, r) := Move(file, w.store, w.replicas[i]);
    assert Step(file, w, World(store, w.replicas[i := r]), i);
    assert SomeStep(file, w, World(store, w.replicas[i := r]));
  }

  /** A world in which no replica can move. */
  ghost predicate Stuck(file: seq<SourceBinding>, w: World) {
    forall w' :: !SomeStep(file, w, w')
  }

  predicate AllFinished(w: World) {
    forall i | 0 <= i < |w.replicas| :: w.replicas[i].phase.Finished?
  }

  /**
   Progress: a run has at most (4f + 4) steps per replica for a file of f rows, and one that cannot be
   prolonged has brought every replica to its end, so for an appliable file all have finished.
   */
  lemma ReplicasFinish(file: seq<SourceBinding>, before: Bindings, ws: seq<World>)
    requires StoreOk(before) && ValidFile(file) && Run(DisablesFirst(file), before, ws)
    ensures |ws| - 1 <= |ws[0].replicas| * (4 * |DisablesFirst(file)| + 4)
    ensures Stuck(DisablesFirst(file), ws[|ws| - 1]) && Appliable(before, file) ==>
              AllFinished(ws[|ws| - 1])
  {
    var sorted, last := DisablesFirst(file), ws[|ws| - 1];
    RunsAreBounded(sorted, before, ws, |ws| - 1);
    if Stuck(sorted, last) && Appliable(before, file) {
      forall i | 0 <= i < |last.replicas| ensures last.replicas[i].phase.Finished? {
        ReplicasConverge(file, before, ws, |ws| - 1, i);
        if Active(last.replicas[i]) {
          DisablesFirstKeepsFile(file);
          SortingIsNeutral(before, before, file);
          RunKeepsInv(sorted, before, ws, |ws| - 1);
          ActiveReplicasCanMove(before, sorted, last, i);
        }
      }
    }
  }
}
