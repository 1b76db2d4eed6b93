/** From steps to runs: the invariant holds throughout, and everything evolves as it may. */
module Runs {
  import opened Wrappers
  import opened Model
  import opened Database
  import opened Evolution
  import opened Delivery
  import opened Protocol
  import opened Invariants
  import opened InvariantSteps
  import opened CheckoutSteps

  lemma StepKeepsInbox(cfg: Config, w: World, a: Action)
    requires Inv(cfg, w) && Enabled(cfg, w, a) && Evolves(w, Apply(cfg, w, a))
    ensures IntakeOk(Apply(cfg, w, a).db) && ClaimsOk(Apply(cfg, w, a))
  {
    IntakeStep(cfg, w, a);
    ClaimsStep(cfg, w, a);
  }

  lemma StepKeepsPrompt(cfg: Config, w: World, a: Action)
    requires DbOk(w.db) && PromptOk(cfg, w.now, w.db.inbox) && TasksOk(cfg, w) && Enabled(cfg, w, a)
    ensures PromptOk(cfg, Apply(cfg, w, a).now, Apply(cfg, w, a).db.inbox)
  {
    if a.SettleFailure? {
      FailuresAreOk(cfg, w, a.id);
    }
    PromptStep(cfg, w, a);
  }

  lemma FailuresAreOk(cfg: Config, w: World, id: ClaimId)
    requires TasksOk(cfg, w) && id in w.tasks && w.tasks[id].phase.Failed?
    ensures FailureOk(w.tasks[id].phase.failure)
  {
    assert TaskOk(cfg, w, id, w.tasks[id]);
  }

  lemma StepKeepsWork(cfg: Config, w: World, a: Action)
    requires Inv(cfg, w) && Enabled(cfg, w, a) && Evolves(w, Apply(cfg, w, a))
    ensures TasksOk(cfg, Apply(cfg, w, a)) && CallsOk(cfg, Apply(cfg, w, a))
  {
    TasksStep(cfg, w, a);
    CallsStep(cfg, w, a);
  }

  lemma StepKeepsInv(cfg: Config, w: World, a: Action)
    requires Inv(cfg, w) && Enabled(cfg, w, a)
    ensures Inv(cfg, Apply(cfg, w, a)) && Evolves(w, Apply(cfg, w, a))
  {
    StepEvolves(cfg, w, a);
    StepKeepsInbox(cfg, w, a);
    StepKeepsPrompt(cfg, w, a);
    StepKeepsWork(cfg, w, a);
    CheckoutStep(cfg, w, a);
  }

  lemma RunKeepsInv(cfg: Config, ws: seq<World>, n: nat)
    requires Run(cfg, ws) && n < |ws|
    ensures Inv(cfg, ws[n])
  {
    InitInv(cfg, ws[0]);
    for k := 0 to n
      invariant Inv(cfg, ws[k])
    {
      assert Step(cfg, ws[k], ws[k + 1]);
      SomeStepKeepsInv(cfg, ws[k], ws[k + 1]);
    }
  }

  lemma SomeStepKeepsInv(cfg: Config, w: World, w': World)
    requires Inv(cfg, w) && Step(cfg, w, w')
    ensures Inv(cfg, w') && Evolves(w, w')
  {
    var a :| Enabled(cfg, w, a) && w' == Apply(cfg, w, a);
    StepKeepsInv(cfg, w, a);
  }

  lemma EvolvesComposes(a: World, b: World, c: World)
    requires Evolves(a, b) && Evolves(b, c)
    ensures Evolves(a, c)
  {
    EvolutionComposes(a.db, b.db, c.db);
  }

  lemma RunEvolves(cfg: Config, ws: seq<World>, m: nat, n: nat)
    requires Run(cfg, ws) && m <= n < |ws|
    ensures Evolves(ws[m], ws[n])
  {
    Unchanged(ws[m].db);
    for k := m to n
      invariant Evolves(ws[m], ws[k])
    {
      RunKeepsInv(cfg, ws, k);
      assert Step(cfg, ws[k], ws[k + 1]);
      SomeStepKeepsInv(cfg, ws[k], ws[k + 1]);
      EvolvesComposes(ws[m], ws[k], ws[k + 1]);
    }
  }
}
