/** `Pipeline._run` and `Pipeline.__call__` (src/zenml/new/pipelines/pipeline.py).

    Compilation, schedule creation, build resolution, deployment creation
    and the stack's prepare/deploy calls are collaborators: the model takes
    their outcomes as inputs and records, in order, which of them `_run`
    invoked. Registration is the model of `Registration.Register`. The
    module-level `SHOULD_PREVENT_PIPELINE_EXECUTION` flag is passed in and
    its final value returned. */
module PipelineRun {
  import opened Wrappers
  import Pipelines
  import Registration

  datatype Schedule = Schedule(name: Option<string>, cronExpression: Option<string>)

  /** What `_compile` yields that `_run` uses. */
  datatype Compiled = Compiled(spec: Registration.PipelineSpec, schedule: Option<Schedule>)

  /** The local code repository, when there is one. */
  datatype RepositoryContext = RepositoryContext(isDirty: bool, currentCommit: string)

  /** A collaborator call that returns nothing: it succeeds or raises. */
  datatype CallResult = Ok | Raised(message: string)

  /** The outcome each collaborator call would have if `_run` made it. */
  datatype Collaborators = Collaborators(
    compile: Result<Compiled, string>,
    skipRegistrationEnv: bool,
    createSchedule: Result<nat, string>,
    repository: Option<RepositoryContext>,
    resolveBuild: Result<Option<nat>, string>,
    createDeployment: Result<nat, string>,
    prepareDeployment: CallResult,
    deploy: CallResult)

  /** One collaborator call made by `_run`, with the arguments the model tracks. */
  datatype Effect =
    | Compile
    | RegisterPipeline
    | CreateSchedule(pipelineId: Option<nat>)
    | ResolveBuild(pipelineId: Option<nat>)
    | CreateDeployment(pipelineId: Option<nat>, scheduleId: Option<nat>, buildId: Option<nat>, codeReference: Option<string>)
    | PrepareDeployment
    | Deploy(preventExecution: bool)

  datatype RunError =
    | CompileFailed(message: string)
    | RegistrationFailed(cause: Registration.RegistrationError)
    | CollaboratorFailed(call: Effect, message: string)

  /** The calls made, the flag's final value, the store, and the error raised. */
  datatype RunOutcome = RunOutcome(
    effects: seq<Effect>,
    preventExecution: bool,
    store: Registration.PipelineStore,
    error: Option<RunError>)

  /** The position of each call in the fixed order of `_run`. */
  function Rank(e: Effect): nat {
    match e
    case Compile => 0
    case RegisterPipeline => 1
    case CreateSchedule(_) => 2
    case ResolveBuild(_) => 3
    case CreateDeployment(_, _, _, _) => 4
    case PrepareDeployment => 5
    case Deploy(_) => 6
  }

  /** Calls happen strictly in the order of `_run`, each at most once. */
  predicate InOrder(effects: seq<Effect>) {
    forall i, j :: 0 <= i < j < |effects| ==> Rank(effects[i]) < Rank(effects[j])
  }

  /** All calls so far rank below `bound`. */
  predicate RanksBelow(effects: seq<Effect>, bound: nat) {
    forall i :: 0 <= i < |effects| ==> Rank(effects[i]) < bound
  }

  /** All calls rank at or above `bound`. */
  predicate RanksFrom(effects: seq<Effect>, bound: nat) {
    forall i :: 0 <= i < |effects| ==> Rank(effects[i]) >= bound
  }

  /** Every deploy call happens with the prevent flag raised. */
  predicate DeploysFlagged(effects: seq<Effect>) {
    forall i :: 0 <= i < |effects| && effects[i].Deploy? ==> effects[i].preventExecution
  }

  /** Every deployment record names `pipelineId` and carries `codeReference`. */
  predicate DeploymentsCarry(effects: seq<Effect>, pipelineId: Option<nat>, codeReference: Option<string>) {
    forall i :: 0 <= i < |effects| && effects[i].CreateDeployment? ==>
      effects[i].pipelineId == pipelineId && effects[i].codeReference == codeReference
  }

  /** The pipeline was registered during the run. */
  predicate Registers(effects: seq<Effect>) {
    exists i :: 0 <= i < |effects| && effects[i] == RegisterPipeline
  }

  /** The run got as far as the stack's deploy call, with the flag raised. */
  predicate ReachedDeploy(effects: seq<Effect>) {
    |effects| > 0 && effects[|effects| - 1] == Deploy(true)
  }

  lemma ConcatInOrder(a: seq<Effect>, b: seq<Effect>, bound: nat)
    requires InOrder(a) && RanksBelow(a, bound)
    requires InOrder(b) && RanksFrom(b, bound)
    ensures InOrder(a + b)
  {
    forall i, j | 0 <= i < j < |a + b|
      ensures Rank((a + b)[i]) < Rank((a + b)[j])
    {
      if j < |a| {
        assert (a + b)[i] == a[i] && (a + b)[j] == a[j];
      } else if i >= |a| {
        assert (a + b)[i] == b[i - |a|] && (a + b)[j] == b[j - |a|];
      } else {
        assert (a + b)[i] == a[i] && (a + b)[j] == b[j - |a|];
      }
    }
  }

  lemma ConcatFlagged(a: seq<Effect>, b: seq<Effect>)
    ensures DeploysFlagged(a + b) <==> DeploysFlagged(a) && DeploysFlagged(b)
  {
    if DeploysFlagged(a + b) {
      forall i | 0 <= i < |a| && a[i].Deploy? ensures a[i].preventExecution {
        assert (a + b)[i] == a[i];
      }
      forall i | 0 <= i < |b| && b[i].Deploy? ensures b[i].preventExecution {
        assert (a + b)[|a| + i] == b[i];
      }
    }
    if DeploysFlagged(a) && DeploysFlagged(b) {
      forall i | 0 <= i < |a + b| && (a + b)[i].Deploy? ensures (a + b)[i].preventExecution {
        if i >= |a| {
          assert (a + b)[i] == b[i - |a|];
        }
      }
    }
  }

  lemma ConcatCarry(a: seq<Effect>, b: seq<Effect>, pipelineId: Option<nat>, codeReference: Option<string>)
    ensures DeploymentsCarry(a + b, pipelineId, codeReference) <==>
              DeploymentsCarry(a, pipelineId, codeReference) && DeploymentsCarry(b, pipelineId, codeReference)
  {
    if DeploymentsCarry(a + b, pipelineId, codeReference) {
      forall i | 0 <= i < |a| && a[i].CreateDeployment?
        ensures a[i].pipelineId == pipelineId && a[i].codeReference == codeReference
      {
        assert (a + b)[i] == a[i];
      }
      forall i | 0 <= i < |b| && b[i].CreateDeployment?
        ensures b[i].pipelineId == pipelineId && b[i].codeReference == codeReference
      {
        assert (a + b)[|a| + i] == b[i];
      }
    }
    if DeploymentsCarry(a, pipelineId, codeReference) && DeploymentsCarry(b, pipelineId, codeReference) {
      forall i | 0 <= i < |a + b| && (a + b)[i].CreateDeployment?
        ensures (a + b)[i].pipelineId == pipelineId && (a + b)[i].codeReference == codeReference
      {
        if i >= |a| {
          assert (a + b)[i] == b[i - |a|];
        }
      }
    }
  }

  lemma ConcatRegisters(a: seq<Effect>, b: seq<Effect>)
    ensures Registers(a + b) <==> Registers(a) || Registers(b)
  {
    if Registers(a) {
      var k :| 0 <= k < |a| && a[k] == RegisterPipeline;
      assert (a + b)[k] == RegisterPipeline;
    }
    if Registers(b) {
      var k :| 0 <= k < |b| && b[k] == RegisterPipeline;
      assert (a + b)[|a| + k] == RegisterPipeline;
    }
    if Registers(a + b) {
      var k :| 0 <= k < |a + b| && (a + b)[k] == RegisterPipeline;
      if k >= |a| {
        assert b[k - |a|] == RegisterPipeline;
      }
    }
  }

  /** The run properties of a single call. */
  lemma SingleEffect(e: Effect, pipelineId: Option<nat>, codeReference: Option<string>)
    ensures InOrder([e]) && RanksBelow([e], Rank(e) + 1) && RanksFrom([e], Rank(e))
    ensures DeploysFlagged([e]) <==> (e.Deploy? ==> e.preventExecution)
    ensures DeploymentsCarry([e], pipelineId, codeReference) <==>
              (e.CreateDeployment? ==> e.pipelineId == pipelineId && e.codeReference == codeReference)
    ensures Registers([e]) <==> e == RegisterPipeline
    ensures ReachedDeploy([e]) <==> e == Deploy(true)
  {
    assert [e][0] == e;
  }

  /** How the run properties of a call sequence split over concatenation. */
  lemma ConcatFacts(a: seq<Effect>, b: seq<Effect>, bound: nat, pipelineId: Option<nat>, codeReference: Option<string>)
    requires InOrder(a) && RanksBelow(a, bound)
    requires InOrder(b) && RanksFrom(b, bound)
    ensures InOrder(a + b)
    ensures DeploysFlagged(a + b) <==> DeploysFlagged(a) && DeploysFlagged(b)
    ensures DeploymentsCarry(a + b, pipelineId, codeReference) <==>
              DeploymentsCarry(a, pipelineId, codeReference) && DeploymentsCarry(b, pipelineId, codeReference)
    ensures Registers(a + b) <==> Registers(a) || Registers(b)
    ensures |b| > 0 ==> (ReachedDeploy(a + b) <==> ReachedDeploy(b))
  {
    ConcatInOrder(a, b, bound);
    ConcatFlagged(a, b);
    ConcatCarry(a, b, pipelineId, codeReference);
    ConcatRegisters(a, b);
  }

  /** Registration happens unless the environment skips it or the run is unlisted. */
  predicate ShouldRegister(p: Pipelines.Pipeline, c: Collaborators) {
    !(c.skipRegistrationEnv || p.runArgs.unlisted)
  }

  /** The code reference attached to the deployment: only a clean local
      repository provides one. */
  function CodeReference(repo: Option<RepositoryContext>): (r: Option<string>)
    ensures r.Some? <==> repo.Some? && !repo.value.isDirty
  {
    if repo.Some? && !repo.value.isDirty then Some(repo.value.currentCommit) else None
  }

  /** The stack's `prepare_pipeline_deployment`, then `deploy_pipeline`
      with the flag raised inside `try`/`finally`, so that it is lowered
      again whether deploy returns or raises. */
  function StackDeploy(store: Registration.PipelineStore, c: Collaborators): (r: RunOutcome)
    ensures !r.preventExecution && r.store == store
    ensures InOrder(r.effects) && RanksFrom(r.effects, 5) && |r.effects| >= 1 && DeploysFlagged(r.effects)
    ensures ReachedDeploy(r.effects) <==> c.prepareDeployment.Ok?
    ensures r.error.None? <==> ReachedDeploy(r.effects) && c.deploy.Ok?
  {
    if c.prepareDeployment.Raised? then
      RunOutcome([PrepareDeployment], false, store, Some(CollaboratorFailed(PrepareDeployment, c.prepareDeployment.message)))
    else
      var during := true;
      var error := if c.deploy.Raised? then Some(CollaboratorFailed(Deploy(during), c.deploy.message)) else None;
      var after := false;
      RunOutcome([PrepareDeployment, Deploy(during)], after, store, error)
  }

  /** `create_deployment`, then the stack when it succeeds. */
  function DeploymentStage(store: Registration.PipelineStore, deployment: Effect, c: Collaborators): (r: RunOutcome)
    requires deployment.CreateDeployment?
    ensures !r.preventExecution && r.store == store
    ensures InOrder(r.effects) && RanksFrom(r.effects, 4) && DeploysFlagged(r.effects)
    ensures |r.effects| >= 1 && r.effects[0] == deployment
    ensures DeploymentsCarry(r.effects, deployment.pipelineId, deployment.codeReference)
    ensures ReachedDeploy(r.effects) <==> c.createDeployment.Success? && c.prepareDeployment.Ok?
    ensures r.error.None? <==> ReachedDeploy(r.effects) && c.deploy.Ok?
  {
    match c.createDeployment
    case Failure(m) =>
      SingleEffect(deployment, deployment.pipelineId, deployment.codeReference);
      RunOutcome([deployment], false, store, Some(CollaboratorFailed(deployment, m)))
    case Success(_) =>
      SingleEffect(deployment, deployment.pipelineId, deployment.codeReference);
      var stack := StackDeploy(store, c);
      ConcatFacts([deployment], stack.effects, 5, deployment.pipelineId, deployment.codeReference);
      RunOutcome([deployment] + stack.effects, stack.preventExecution, stack.store, stack.error)
  }

  /** `reuse_or_create_pipeline_build`, then the deployment record built
      from the pipeline id, schedule id, build id and code reference. */
  function BuildStage(store: Registration.PipelineStore, pipelineId: Option<nat>, scheduleId: Option<nat>,
                      c: Collaborators): (r: RunOutcome)
    ensures !r.preventExecution && r.store == store
    ensures InOrder(r.effects) && RanksFrom(r.effects, 3) && DeploysFlagged(r.effects) && |r.effects| >= 1
    ensures DeploymentsCarry(r.effects, pipelineId, CodeReference(c.repository))
    ensures ReachedDeploy(r.effects) <==>
              c.resolveBuild.Success? && c.createDeployment.Success? && c.prepareDeployment.Ok?
    ensures r.error.None? <==> ReachedDeploy(r.effects) && c.deploy.Ok?
  {
    match c.resolveBuild
    case Failure(m) =>
      SingleEffect(ResolveBuild(pipelineId), pipelineId, CodeReference(c.repository));
      RunOutcome([ResolveBuild(pipelineId)], false, store, Some(CollaboratorFailed(ResolveBuild(pipelineId), m)))
    case Success(buildId) =>
      SingleEffect(ResolveBuild(pipelineId), pipelineId, CodeReference(c.repository));
      var deployment := CreateDeployment(pipelineId, scheduleId, buildId, CodeReference(c.repository));
      var rest := DeploymentStage(store, deployment, c);
      ConcatFacts([ResolveBuild(pipelineId)], rest.effects, 4, pipelineId, CodeReference(c.repository));
      RunOutcome([ResolveBuild(pipelineId)] + rest.effects, rest.preventExecution, rest.store, rest.error)
  }

  /** Everything after registration: the schedule (when the run has one),
      the build, the deployment record, then the stack. */
  function ScheduleBuildDeploy(compiled: Compiled, store: Registration.PipelineStore, pipelineId: Option<nat>,
                               c: Collaborators): (r: RunOutcome)
    ensures !r.preventExecution && r.store == store
    ensures InOrder(r.effects) && RanksFrom(r.effects, 2) && DeploysFlagged(r.effects) && |r.effects| >= 1
    ensures DeploymentsCarry(r.effects, pipelineId, CodeReference(c.repository))
    ensures ReachedDeploy(r.effects) <==>
              (compiled.schedule.None? || c.createSchedule.Success?)
              && c.resolveBuild.Success? && c.createDeployment.Success? && c.prepareDeployment.Ok?
    ensures r.error.None? <==> ReachedDeploy(r.effects) && c.deploy.Ok?
  {
    if compiled.schedule.None? then BuildStage(store, pipelineId, None, c)
    else match c.createSchedule
      case Failure(m) =>
        SingleEffect(CreateSchedule(pipelineId), pipelineId, CodeReference(c.repository));
        RunOutcome([CreateSchedule(pipelineId)], false, store, Some(CollaboratorFailed(CreateSchedule(pipelineId), m)))
      case Success(scheduleId) =>
        SingleEffect(CreateSchedule(pipelineId), pipelineId, CodeReference(c.repository));
        var rest := BuildStage(store, pipelineId, Some(scheduleId), c);
        ConcatFacts([CreateSchedule(pipelineId)], rest.effects, 3, pipelineId, CodeReference(c.repository));
        RunOutcome([CreateSchedule(pipelineId)] + rest.effects, rest.preventExecution, rest.store, rest.error)
  }

  /** `_run` after compilation: registration (unless skipped), then the rest
      with the registered pipeline's id, or `None` when unregistered. */
  function RegisterAndDispatch(p: Pipelines.Pipeline, compiled: Compiled, store: Registration.PipelineStore, c: Collaborators,
                               digest: string -> string): (r: RunOutcome)
    ensures !r.preventExecution
    ensures InOrder(r.effects) && RanksFrom(r.effects, 1) && DeploysFlagged(r.effects) && |r.effects| >= 1
    ensures Registers(r.effects) <==> ShouldRegister(p, c)
    ensures !ShouldRegister(p, c) ==> r.store == store && DeploymentsCarry(r.effects, None, CodeReference(c.repository))
    ensures ShouldRegister(p, c) ==> r.effects[0] == RegisterPipeline
    ensures ShouldRegister(p, c) ==>
              var registered := Registration.Register(store, p.configuration.name, compiled.spec, p.entrypoint.sourceCode, p.invocations, digest);
              && (registered.Success? ==>
                    r.store == registered.value.1 && DeploymentsCarry(r.effects, Some(registered.value.0.id), CodeReference(c.repository)))
              && (registered.Failure? ==> r == RunOutcome([RegisterPipeline], false, store, Some(RegistrationFailed(registered.error))))
    ensures ReachedDeploy(r.effects) <==>
              (!ShouldRegister(p, c) ||
               Registration.Register(store, p.configuration.name, compiled.spec, p.entrypoint.sourceCode, p.invocations, digest).Success?)
              && (compiled.schedule.None? || c.createSchedule.Success?)
              && c.resolveBuild.Success? && c.createDeployment.Success? && c.prepareDeployment.Ok?
    ensures r.error.None? <==> ReachedDeploy(r.effects) && c.deploy.Ok?
  {
    if ShouldRegister(p, c) then
      match Registration.Register(store, p.configuration.name, compiled.spec, p.entrypoint.sourceCode, p.invocations, digest)
      case Failure(e) =>
        SingleEffect(RegisterPipeline, None, None);
        RunOutcome([RegisterPipeline], false, store, Some(RegistrationFailed(e)))
      case Success(registered) =>
        SingleEffect(RegisterPipeline, Some(registered.0.id), CodeReference(c.repository));
        var rest := ScheduleBuildDeploy(compiled, registered.1, Some(registered.0.id), c);
        ConcatFacts([RegisterPipeline], rest.effects, 2, Some(registered.0.id), CodeReference(c.repository));
        RunOutcome([RegisterPipeline] + rest.effects, rest.preventExecution, rest.store, rest.error)
    else
      var r := ScheduleBuildDeploy(compiled, store, None, c);
      assert !Registers(r.effects) by {
        forall i | 0 <= i < |r.effects| ensures r.effects[i] != RegisterPipeline {
          assert Rank(r.effects[i]) >= 2;
        }
      }
      r
  }

  /** `_run`. When the prevent flag is set nothing is called; otherwise the
      calls are made in the fixed order, each deploy happens with the flag
      raised, and the flag ends lowered. */
  function Run(prevent: bool, p: Pipelines.Pipeline, store: Registration.PipelineStore, c: Collaborators,
               digest: string -> string): (r: RunOutcome)
    ensures prevent ==> r == RunOutcome([], true, store, None)
    ensures !prevent ==> !r.preventExecution && |r.effects| >= 1 && r.effects[0] == Compile
    ensures InOrder(r.effects) && DeploysFlagged(r.effects)
    ensures Registers(r.effects) <==> !prevent && c.compile.Success? && ShouldRegister(p, c)
    ensures !ShouldRegister(p, c) ==> r.store == store && DeploymentsCarry(r.effects, None, CodeReference(c.repository))
    ensures !prevent && c.compile.Success? && ShouldRegister(p, c) ==>
              var registered := Registration.Register(store, p.configuration.name, c.compile.value.spec, p.entrypoint.sourceCode, p.invocations, digest);
              && (registered.Success? ==>
                    r.store == registered.value.1 && DeploymentsCarry(r.effects, Some(registered.value.0.id), CodeReference(c.repository)))
              && (registered.Failure? ==> r.store == store && r.error == Some(RegistrationFailed(registered.error)))
    ensures prevent || c.compile.Failure? ==> r.store == store
  {
    if prevent then RunOutcome([], true, store, None)
    else match c.compile
      case Failure(m) =>
        SingleEffect(Compile, None, CodeReference(c.repository));
        RunOutcome([Compile], false, store, Some(CompileFailed(m)))
      case Success(compiled) =>
        SingleEffect(Compile, None, CodeReference(c.repository));
        var rest := RegisterAndDispatch(p, compiled, store, c, digest);
        ConcatFacts([Compile], rest.effects, 1, None, CodeReference(c.repository));
        RunOutcome([Compile] + rest.effects, rest.preventExecution, rest.store, rest.error)
  }

  /** `_run` reaches the stack's deploy exactly when every earlier call
      succeeds, and then ends without error exactly when deploy succeeds. */
  lemma DeployReachedIffEarlierCallsSucceed(p: Pipelines.Pipeline, store: Registration.PipelineStore, c: Collaborators, digest: string -> string)
    ensures var r := Run(false, p, store, c, digest);
            var registered := !ShouldRegister(p, c) || (c.compile.Success? &&
              Registration.Register(store, p.configuration.name, c.compile.value.spec, p.entrypoint.sourceCode, p.invocations, digest).Success?);
            var scheduled := c.compile.Success? && (c.compile.value.schedule.None? || c.createSchedule.Success?);
            ReachedDeploy(r.effects) <==>
              c.compile.Success? && registered && scheduled && c.resolveBuild.Success? && c.createDeployment.Success? && c.prepareDeployment.Ok?
    ensures var r := Run(false, p, store, c, digest);
            r.error.None? <==> ReachedDeploy(r.effects) && c.deploy.Ok?
  {
    var r := Run(false, p, store, c, digest);
    if c.compile.Success? {
      var rest := RegisterAndDispatch(p, c.compile.value, store, c, digest);
      SingleEffect(Compile, None, None);
      ConcatFacts([Compile], rest.effects, 1, None, None);
    } else {
      SingleEffect(Compile, None, None);
    }
  }

  /** Running an unchanged pipeline a second time against the store the
      first run left registers nothing new: the store stays as it is and the
      deployment records name the same pipeline. */
  lemma RunTwiceRegistersOnce(p: Pipelines.Pipeline, store: Registration.PipelineStore, c: Collaborators, digest: string -> string)
    requires c.compile.Success? && ShouldRegister(p, c)
    requires Registration.Register(store, p.configuration.name, c.compile.value.spec, p.entrypoint.sourceCode, p.invocations, digest).Success?
    ensures var first := Run(false, p, store, c, digest);
            var second := Run(false, p, first.store, c, digest);
            var id := Registration.Register(store, p.configuration.name, c.compile.value.spec, p.entrypoint.sourceCode, p.invocations, digest).value.0.id;
            && second.store == first.store
            && DeploymentsCarry(first.effects, Some(id), CodeReference(c.repository))
            && DeploymentsCarry(second.effects, Some(id), CodeReference(c.repository))
  {
    Registration.RegisterIsIdempotent(store, p.configuration.name, c.compile.value.spec, p.entrypoint.sourceCode, p.invocations, digest);
  }

  // ---------------------------------------------------------------------
  // __call__
  // ---------------------------------------------------------------------

  /** A nested call leaves the active pipeline's body outcome and, when no
      error was raised, the entrypoint's return value. */
  datatype CallOutcome =
    | NestedCall(body: Pipelines.BodyOutcome, returned: Option<Pipelines.Value>)
    | TopLevelCall(prepared: Pipelines.PrepareOutcome, run: Option<RunOutcome>)

  /** `__call__`: inside another pipeline's context (`active`) the
      entrypoint is called directly, so its step calls land in the active
      pipeline and a refused one propagates; arguments that do not bind to
      the entrypoint are Python's `TypeError`. Otherwise the pipeline is
      prepared with the arguments and run with its stored run arguments. */
  function Call(slot: Option<Pipelines.PipelineId>, active: Pipelines.Pipeline, p: Pipelines.Pipeline,
                args: map<string, Pipelines.Value>, accepts: (string, Pipelines.Value) -> bool,
                prevent: bool, store: Registration.PipelineStore, c: Collaborators, digest: string -> string): (r: CallOutcome)
    requires slot.Some? ==> slot.value == active.id
    ensures slot.Some? && !Pipelines.Binds(p.entrypoint.params, args) ==>
              r == NestedCall(Pipelines.BodyOutcome(active, [], Some(Pipelines.ArgumentsDoNotBind)), None)
    ensures slot.Some? && Pipelines.Binds(p.entrypoint.params, args) ==>
              r.NestedCall? && r.body == Pipelines.ExecuteBody(active, [Pipelines.CallPipeline(p)])
    ensures slot.Some? ==> r.NestedCall? && (r.returned.Some? <==> r.body.error.None?)
    ensures slot.Some? && r.returned.Some? ==> r.returned.value == p.entrypoint.output
    ensures slot.None? ==> r.TopLevelCall? && r.prepared == Pipelines.Prepare(slot, p, args, accepts) && r.prepared.slot.None?
    ensures slot.None? && r.prepared.error.Some? ==> r.run.None?
    ensures slot.None? && r.prepared.error.None? ==> r.run == Some(Run(prevent, r.prepared.pipeline, store, c, digest))
  {
    if slot.Some? then
      if !Pipelines.Binds(p.entrypoint.params, args) then
        NestedCall(Pipelines.BodyOutcome(active, [], Some(Pipelines.ArgumentsDoNotBind)), None)
      else
        Pipelines.NestedCallIgnoresCalleeGraph(active, p, p.invocations);
        var body := Pipelines.ExecuteBody(active, p.entrypoint.body);
        NestedCall(body, if body.error.None? then Some(p.entrypoint.output) else None)
    else
      var prepared := Pipelines.Prepare(slot, p, args, accepts);
      if prepared.error.Some? then TopLevelCall(prepared, None)
      else TopLevelCall(prepared, Some(Run(prevent, prepared.pipeline, store, c, digest)))
  }

  /** A nested call adds one invocation to the active pipeline per step
      call of the callee's body, in order, and stops at the first refused
      one, which is then the call's error. */
  lemma NestedCallAddsCalleeSteps(active: Pipelines.Pipeline, p: Pipelines.Pipeline, args: map<string, Pipelines.Value>,
                                  accepts: (string, Pipelines.Value) -> bool, prevent: bool,
                                  store: Registration.PipelineStore, c: Collaborators, digest: string -> string)
    requires Pipelines.Binds(p.entrypoint.params, args)
    ensures var r := Call(Some(active.id), active, p, args, accepts, prevent, store, c, digest);
            Pipelines.OnePerCall(active, Pipelines.StepCalls(p.entrypoint.body), r.body)
  {
    var body := [Pipelines.CallPipeline(p)];
    Pipelines.ExecuteBodyAddsOneInvocationPerCall(active, body);
    assert Pipelines.StepCalls(body) == Pipelines.StepCalls(p.entrypoint.body) + Pipelines.StepCalls(body[1..]);
    assert body[1..] == [];
  }

  /** A callee that calls step "foo" without suffixing inside a pipeline
      that already holds "foo" raises, and the call returns nothing. */
  lemma NestedCallRefusesTakenStepId(active: Pipelines.Pipeline, p: Pipelines.Pipeline,
                                     accepts: (string, Pipelines.Value) -> bool, prevent: bool,
                                     store: Registration.PipelineStore, c: Collaborators, digest: string -> string)
    requires "foo" in active.invocations
    requires p.entrypoint.params == map[] && p.entrypoint.body == [Pipelines.CallStep(Pipelines.FooCall(false))]
    ensures var r := Call(Some(active.id), active, p, map[], accepts, prevent, store, c, digest);
            && r.body == Pipelines.BodyOutcome(active, [], Some(Pipelines.DuplicateStepId))
            && r.returned.None?
  {
    assert Pipelines.AddStepInvocation(Some(active.id), active, Pipelines.FooCall(false)) == Failure(Pipelines.DuplicateStepId);
  }

  /** A pipeline called while the prevent flag is raised (as during
      another pipeline's deploy) makes no collaborator call at all. */
  lemma CallDuringDeployDoesNothing(active: Pipelines.Pipeline, p: Pipelines.Pipeline, args: map<string, Pipelines.Value>,
                                    accepts: (string, Pipelines.Value) -> bool,
                                    store: Registration.PipelineStore, c: Collaborators, digest: string -> string)
    requires Pipelines.Prepare(None, p, args, accepts).error.None?
    ensures var r := Call(None, active, p, args, accepts, true, store, c, digest);
            r.run == Some(RunOutcome([], true, store, None))
  {
  }
}
