/** The step-invocation graph of a pipeline and the active-pipeline protocol
    (src/zenml/new/pipelines/pipeline.py).

    A pipeline object is identified by its `PipelineId`. The class-wide
    `ACTIVE_PIPELINE` slot is an `Option<PipelineId>` passed in and returned
    explicitly. An entrypoint is a list of actions: a step call, which adds an
    invocation to the active pipeline, or a call of another pipeline, which
    runs that pipeline's entrypoint in the active context. */
module Pipelines {
  import opened Wrappers
  import Decimal
  import PipelineConfiguration

  type PipelineId = nat

  /** A JSON-serializable parameter or return value. */
  type Value = string

  /** A step definition: its name and its source text. */
  datatype Step = Step(name: string, sourceCode: string)

  /** An output of an invocation, tagged with the pipeline that produced it. */
  datatype StepArtifact = StepArtifact(invocationId: string, outputName: string, pipeline: PipelineId)

  datatype ExternalArtifact = ExternalArtifact(value: Value)

  datatype StepInvocation = StepInvocation(
    id: string,
    step: Step,
    inputArtifacts: map<string, StepArtifact>,
    externalArtifacts: map<string, ExternalArtifact>,
    parameters: map<string, Value>,
    upstreamSteps: set<string>,
    pipeline: PipelineId)

  /** The arguments of one `add_step_invocation` call. */
  datatype StepCall = StepCall(
    step: Step,
    inputArtifacts: map<string, StepArtifact>,
    externalArtifacts: map<string, ExternalArtifact>,
    parameters: map<string, Value>,
    upstreamSteps: set<string>,
    customId: Option<string>,
    allowIdSuffix: bool)

  /** The entrypoint function: its keyword parameters with their defaults
      (`None` = no default), the calls its body makes, its return value and
      its source text. */
  datatype Entrypoint = Entrypoint(
    params: map<string, Option<Value>>,
    body: seq<Action>,
    output: Value,
    sourceCode: string)

  datatype Action =
    | CallStep(call: StepCall)
    | CallPipeline(callee: Pipeline)

  /** The stored `_run` arguments that the model uses. */
  datatype RunArgs = RunArgs(unlisted: bool, preventBuildReuse: bool)

  datatype Pipeline = Pipeline(
    id: PipelineId,
    configuration: PipelineConfiguration.Configuration,
    invocations: map<string, StepInvocation>,
    parameters: map<string, Value>,
    entrypoint: Entrypoint,
    runArgs: RunArgs)

  datatype GraphError =
    | NotActivePipeline
    | ForeignInputArtifact
    | DuplicateStepId
    | UnableToFindStepId
    | AlreadyActive(active: PipelineId)
    | InvalidEntrypointInputs
    | ArgumentsDoNotBind
    | NotPrepared

  // ---------------------------------------------------------------------
  // Invocation ids
  // ---------------------------------------------------------------------

  /** `range(2, 10000)`: suffixes 2 up to and excluding this bound are tried. */
  const SUFFIX_LIMIT: nat := 10000

  /** `custom_id or step.name`: an empty custom id is falsy. */
  function BaseId(step: Step, customId: Option<string>): string {
    if customId.Some? && customId.value != "" then customId.value else step.name
  }

  /** `f"{base_id}_{index}"`. */
  function SuffixedId(base: string, k: nat): string {
    base + "_" + Decimal.IntToString(k)
  }

  /** The smallest suffix in `[k, SUFFIX_LIMIT)` whose id is unused. */
  function FirstFreeSuffix(used: set<string>, base: string, k: nat): (r: Option<nat>)
    requires k <= SUFFIX_LIMIT
    ensures r.Some? ==> k <= r.value < SUFFIX_LIMIT && SuffixedId(base, r.value) !in used
    ensures r.Some? ==> forall j :: k <= j < r.value ==> SuffixedId(base, j) in used
    ensures r.None? ==> forall j :: k <= j < SUFFIX_LIMIT ==> SuffixedId(base, j) in used
    decreases SUFFIX_LIMIT - k
  {
    if k == SUFFIX_LIMIT then None
    else if SuffixedId(base, k) !in used then Some(k)
    else FirstFreeSuffix(used, base, k + 1)
  }

  /** `_compute_invocation_id`: the base id when unused; otherwise, when
      suffixes are allowed, the first unused `base_k` for `2 <= k < 10000`. */
  function ComputeInvocationId(used: set<string>, step: Step, customId: Option<string>, allowSuffix: bool): (r: Result<string, GraphError>)
    ensures r.Success? ==> r.value !in used
    ensures r.Success? <==>
              || BaseId(step, customId) !in used
              || (allowSuffix && exists k :: 2 <= k < SUFFIX_LIMIT && SuffixedId(BaseId(step, customId), k) !in used)
    ensures BaseId(step, customId) !in used ==> r == Success(BaseId(step, customId))
    ensures BaseId(step, customId) in used && !allowSuffix ==> r == Failure(DuplicateStepId)
    ensures BaseId(step, customId) in used && r.Success? ==>
              exists k :: 2 <= k < SUFFIX_LIMIT && r.value == SuffixedId(BaseId(step, customId), k)
                          && forall j :: 2 <= j < k ==> SuffixedId(BaseId(step, customId), j) in used
    ensures r == Failure(UnableToFindStepId) <==>
              BaseId(step, customId) in used && allowSuffix
              && forall j :: 2 <= j < SUFFIX_LIMIT ==> SuffixedId(BaseId(step, customId), j) in used
  {
    var base := BaseId(step, customId);
    if base !in used then Success(base)
    else if !allowSuffix then Failure(DuplicateStepId)
    else match FirstFreeSuffix(used, base, 2)
      case Some(k) => Success(SuffixedId(base, k))
      case None => Failure(UnableToFindStepId)
  }

  // ---------------------------------------------------------------------
  // add_step_invocation
  // ---------------------------------------------------------------------

  /** Some input artifact was produced inside another pipeline. */
  predicate HasForeignInput(call: StepCall, p: PipelineId) {
    exists name :: name in call.inputArtifacts && call.inputArtifacts[name].pipeline != p
  }

  function NewInvocation(id: string, call: StepCall, p: PipelineId): StepInvocation {
    StepInvocation(id, call.step, call.inputArtifacts, call.externalArtifacts,
                   call.parameters, call.upstreamSteps, p)
  }

  /** `add_step_invocation`: only the active pipeline accepts invocations,
      only artifacts of this pipeline may be inputs, and the new invocation
      is stored under a fresh id. */
  function AddStepInvocation(active: Option<PipelineId>, p: Pipeline, call: StepCall): (r: Result<(string, Pipeline), GraphError>)
    ensures active != Some(p.id) ==> r == Failure(NotActivePipeline)
    ensures active == Some(p.id) && HasForeignInput(call, p.id) ==> r == Failure(ForeignInputArtifact)
    ensures r.Success? ==> active == Some(p.id) && !HasForeignInput(call, p.id)
    ensures r.Success? ==> r.value.0 !in p.invocations
    ensures r.Success? ==> r.value.1 == p.(invocations := p.invocations[r.value.0 := NewInvocation(r.value.0, call, p.id)])
    ensures active == Some(p.id) && !HasForeignInput(call, p.id) ==>
              match ComputeInvocationId(p.invocations.Keys, call.step, call.customId, call.allowIdSuffix)
              case Success(id) => r.Success? && r.value.0 == id
              case Failure(e) => r == Failure(e)
  {
    if active != Some(p.id) then Failure(NotActivePipeline)
    else if HasForeignInput(call, p.id) then Failure(ForeignInputArtifact)
    else
      var id :- ComputeInvocationId(p.invocations.Keys, call.step, call.customId, call.allowIdSuffix);
      Success((id, p.(invocations := p.invocations[id := NewInvocation(id, call, p.id)])))
  }

  /** Every invocation is stored under its own id, belongs to this pipeline
      and consumes only artifacts of this pipeline. */
  ghost predicate WellFormed(p: Pipeline) {
    forall id :: id in p.invocations ==>
      && p.invocations[id].id == id
      && p.invocations[id].pipeline == p.id
      && forall name :: name in p.invocations[id].inputArtifacts ==>
           p.invocations[id].inputArtifacts[name].pipeline == p.id
  }

  /** A successful insertion keeps all other entries and the graph's
      well-formedness. */
  lemma AddStepInvocationKeepsOthers(active: Option<PipelineId>, p: Pipeline, call: StepCall)
    requires WellFormed(p)
    requires AddStepInvocation(active, p, call).Success?
    ensures var (id, q) := AddStepInvocation(active, p, call).value;
            && q.invocations.Keys == p.invocations.Keys + {id}
            && (forall other :: other in p.invocations ==> q.invocations[other] == p.invocations[other])
            && WellFormed(q)
  {
  }

  // ---------------------------------------------------------------------
  // The active-pipeline slot
  // ---------------------------------------------------------------------

  /** `__enter__`: fails when any pipeline is active, otherwise occupies the slot. */
  function Enter(slot: Option<PipelineId>, p: Pipeline): (r: Result<Option<PipelineId>, GraphError>)
    ensures slot.Some? <==> r.Failure?
    ensures slot.Some? ==> r.error == AlreadyActive(slot.value)
    ensures r.Success? ==> r.value == Some(p.id)
  {
    if slot.Some? then Failure(AlreadyActive(slot.value)) else Success(Some(p.id))
  }

  /** `__exit__`: always empties the slot. */
  function Exit(slot: Option<PipelineId>): (r: Option<PipelineId>)
    ensures r.None?
  {
    None
  }

  // ---------------------------------------------------------------------
  // Running an entrypoint body
  // ---------------------------------------------------------------------

  /** The pipeline's state after the body's calls, the ids of the
      invocations added, in order, and the error that stopped the calls, if
      any. Invocations added before an error stay. */
  datatype BodyOutcome = BodyOutcome(pipeline: Pipeline, added: seq<string>, error: Option<GraphError>)

  /** The step calls a body makes, in order, with the bodies of called
      pipelines spliced in where they are called. */
  function StepCalls(actions: seq<Action>): seq<StepCall>
    decreases actions
  {
    if |actions| == 0 then []
    else
      match actions[0]
      case CallStep(call) => [call] + StepCalls(actions[1..])
      case CallPipeline(q) =>
        assert q < actions[0];
        StepCalls(q.entrypoint.body) + StepCalls(actions[1..])
  }

  /** Runs an entrypoint body while `p` is the active pipeline. A step call
      adds an invocation to `p`; a pipeline call (`__call__` with an active
      pipeline) runs the callee's body directly, so its steps land in `p`. */
  function ExecuteBody(p: Pipeline, actions: seq<Action>): (r: BodyOutcome)
    ensures r.pipeline == p.(invocations := r.pipeline.invocations)
    ensures p.invocations.Keys <= r.pipeline.invocations.Keys
    ensures forall id :: id in p.invocations ==> r.pipeline.invocations[id] == p.invocations[id]
    ensures WellFormed(p) ==> WellFormed(r.pipeline)
    decreases actions
  {
    if |actions| == 0 then BodyOutcome(p, [], None)
    else
      match actions[0]
      case CallStep(call) =>
        (match AddStepInvocation(Some(p.id), p, call)
         case Failure(e) => BodyOutcome(p, [], Some(e))
         case Success(added) =>
           var rest := ExecuteBody(added.1, actions[1..]);
           BodyOutcome(rest.pipeline, [added.0] + rest.added, rest.error))
      case CallPipeline(q) =>
        assert q < actions[0];
        var inner := ExecuteBody(p, q.entrypoint.body);
        if inner.error.Some? then inner
        else
          var rest := ExecuteBody(inner.pipeline, actions[1..]);
          BodyOutcome(rest.pipeline, inner.added + rest.added, rest.error)
  }

  /** `q` is `p` with one new invocation per id of `ids`: the i-th, under
      an id not used before, records the i-th call of `calls`; nothing else
      changes. */
  ghost predicate Extends(p: Pipeline, q: Pipeline, ids: seq<string>, calls: seq<StepCall>) {
    && |ids| <= |calls|
    && q == p.(invocations := q.invocations)
    && (forall id :: id in q.invocations <==> id in p.invocations || id in ids)
    && (forall id :: id in p.invocations ==> q.invocations[id] == p.invocations[id])
    && (forall i :: 0 <= i < |ids| ==>
          ids[i] !in p.invocations && ids[i] in q.invocations && q.invocations[ids[i]] == NewInvocation(ids[i], calls[i], p.id))
    && (forall i, j :: 0 <= i < j < |ids| ==> ids[i] != ids[j])
  }

  /** Two extensions in a row are one extension by both. */
  lemma ExtendsCompose(p: Pipeline, p1: Pipeline, q: Pipeline, ids1: seq<string>, calls1: seq<StepCall>, ids2: seq<string>, calls2: seq<StepCall>)
    requires Extends(p, p1, ids1, calls1) && |ids1| == |calls1|
    requires Extends(p1, q, ids2, calls2)
    ensures Extends(p, q, ids1 + ids2, calls1 + calls2)
  {
    var ids, calls := ids1 + ids2, calls1 + calls2;
    forall i | 0 <= i < |ids|
      ensures ids[i] !in p.invocations && ids[i] in q.invocations && q.invocations[ids[i]] == NewInvocation(ids[i], calls[i], p.id)
    {
      if i >= |ids1| {
        assert ids[i] == ids2[i - |ids1|] && calls[i] == calls2[i - |ids1|];
      }
    }
    forall i, j | 0 <= i < j < |ids| ensures ids[i] != ids[j] {
      if i < |ids1| <= j {
        assert ids[i] in p1.invocations;
        assert ids[j] == ids2[j - |ids1|];
      }
    }
  }

  /** An extension by a prefix of `calls` is one by any longer list. */
  lemma ExtendsLonger(p: Pipeline, q: Pipeline, ids: seq<string>, calls: seq<StepCall>, more: seq<StepCall>)
    requires Extends(p, q, ids, calls)
    ensures Extends(p, q, ids, calls + more)
  {
    forall i | 0 <= i < |ids| ensures (calls + more)[i] == calls[i] {}
  }

  /** `r` holds one new invocation per call of `calls` it reached, in
      order; it stopped exactly at the first call `add_step_invocation`
      refused, and reached every call when no error stopped it. */
  ghost predicate OnePerCall(p: Pipeline, calls: seq<StepCall>, r: BodyOutcome) {
    && Extends(p, r.pipeline, r.added, calls)
    && (r.error.None? <==> |r.added| == |calls|)
    && (r.error.Some? ==>
          |r.added| < |calls| && AddStepInvocation(Some(p.id), r.pipeline, calls[|r.added|]) == Failure(r.error.value))
  }

  /** Running a body adds one invocation per step call it reaches, in
      order, and stops at the first refused call. */
  lemma {:induction false} ExecuteBodyAddsOneInvocationPerCall(p: Pipeline, actions: seq<Action>)
    ensures OnePerCall(p, StepCalls(actions), ExecuteBody(p, actions))
    decreases actions, 1
  {
    if |actions| > 0 {
      match actions[0]
      case CallStep(call) => StepCallAddsOneInvocation(p, actions, call);
      case CallPipeline(q) => NestedCallAddsOneInvocationPerCall(p, actions, q);
    }
  }

  /** One accepted call is an extension by that call. */
  lemma AddedInvocationExtends(p: Pipeline, call: StepCall)
    requires AddStepInvocation(Some(p.id), p, call).Success?
    ensures var (id, q) := AddStepInvocation(Some(p.id), p, call).value;
            Extends(p, q, [id], [call])
  {
    var (id, q) := AddStepInvocation(Some(p.id), p, call).value;
    assert forall i :: 0 <= i < 1 ==> [id][i] == id;
  }

  lemma {:induction false} StepCallAddsOneInvocation(p: Pipeline, actions: seq<Action>, call: StepCall)
    requires |actions| > 0 && actions[0] == CallStep(call)
    ensures OnePerCall(p, StepCalls(actions), ExecuteBody(p, actions))
    decreases actions, 0
  {
    var r := ExecuteBody(p, actions);
    var calls := StepCalls(actions);
    assert calls == [call] + StepCalls(actions[1..]);
    var step := AddStepInvocation(Some(p.id), p, call);
    if step.Failure? {
      assert r == BodyOutcome(p, [], Some(step.error));
      assert Extends(p, p, [], calls);
    } else {
      var (id, p1) := step.value;
      ExecuteBodyAddsOneInvocationPerCall(p1, actions[1..]);
      var rest := ExecuteBody(p1, actions[1..]);
      assert r == BodyOutcome(rest.pipeline, [id] + rest.added, rest.error);
      AddedInvocationExtends(p, call);
      ExtendsCompose(p, p1, rest.pipeline, [id], [call], rest.added, StepCalls(actions[1..]));
      if rest.error.Some? {
        assert calls[|r.added|] == StepCalls(actions[1..])[|rest.added|];
      }
    }
  }

  lemma {:induction false} NestedCallAddsOneInvocationPerCall(p: Pipeline, actions: seq<Action>, q: Pipeline)
    requires |actions| > 0 && actions[0] == CallPipeline(q)
    ensures OnePerCall(p, StepCalls(actions), ExecuteBody(p, actions))
    decreases actions, 0
  {
    var r := ExecuteBody(p, actions);
    assert q < actions[0];
    var calls := StepCalls(actions);
    assert calls == StepCalls(q.entrypoint.body) + StepCalls(actions[1..]);
    ExecuteBodyAddsOneInvocationPerCall(p, q.entrypoint.body);
    var inner := ExecuteBody(p, q.entrypoint.body);
    if inner.error.Some? {
      assert r == inner;
      ExtendsLonger(p, r.pipeline, r.added, StepCalls(q.entrypoint.body), StepCalls(actions[1..]));
      assert calls[|r.added|] == StepCalls(q.entrypoint.body)[|inner.added|];
    } else {
      ExecuteBodyAddsOneInvocationPerCall(inner.pipeline, actions[1..]);
      var rest := ExecuteBody(inner.pipeline, actions[1..]);
      assert r == BodyOutcome(rest.pipeline, inner.added + rest.added, rest.error);
      ExtendsCompose(p, inner.pipeline, rest.pipeline, inner.added, StepCalls(q.entrypoint.body), rest.added, StepCalls(actions[1..]));
      if rest.error.Some? {
        assert calls[|r.added|] == StepCalls(actions[1..])[|rest.added|];
      }
    }
  }

  /** A nested pipeline call ignores the callee's own invocation graph: only
      its entrypoint body matters. */
  lemma NestedCallIgnoresCalleeGraph(p: Pipeline, q: Pipeline, invocations: map<string, StepInvocation>)
    ensures ExecuteBody(p, [CallPipeline(q)]) == ExecuteBody(p, [CallPipeline(q.(invocations := invocations))])
    ensures ExecuteBody(p, [CallPipeline(q)]) == ExecuteBody(p, q.entrypoint.body)
  {
    var inner := ExecuteBody(p, q.entrypoint.body);
    if inner.error.None? {
      assert ExecuteBody(inner.pipeline, []) == BodyOutcome(inner.pipeline, [], None);
    }
  }

  // ---------------------------------------------------------------------
  // prepare / _prepare_if_possible
  // ---------------------------------------------------------------------

  /** `requires_parameters`: some entrypoint parameter has no default. */
  predicate RequiresParameters(e: Entrypoint) {
    exists name :: name in e.params && e.params[name].None?
  }

  /** `is_prepared`: at least one invocation. */
  predicate IsPrepared(p: Pipeline) {
    |p.invocations| > 0
  }

  /** Python's own binding of keyword arguments to the entrypoint: every
      argument names a parameter and every parameter without default is
      given. */
  predicate Binds(params: map<string, Option<Value>>, args: map<string, Value>) {
    && args.Keys <= params.Keys
    && forall n :: n in params && params[n].None? ==> n in args
  }

  /** Keyword-argument validation of the entrypoint with pydantic: the
      arguments must bind, and each given value must pass `accepts` (JSON
      serialisable and of the parameter's annotated type); defaults fill
      the rest. Every failure is the one `ValueError`. */
  function ValidateArgs(params: map<string, Option<Value>>, args: map<string, Value>,
                        accepts: (string, Value) -> bool): (r: Result<map<string, Value>, GraphError>)
    ensures r.Success? <==> Binds(params, args) && forall n :: n in args ==> accepts(n, args[n])
    ensures r.Failure? ==> r.error == InvalidEntrypointInputs
    ensures r.Success? ==> r.value.Keys == params.Keys
    ensures r.Success? ==> forall n :: n in args ==> r.value[n] == args[n]
    ensures r.Success? ==> forall n :: n in params && n !in args ==> params[n].Some? && r.value[n] == params[n].value
  {
    if !(args.Keys <= params.Keys) then Failure(InvalidEntrypointInputs)
    else if exists n :: n in params && params[n].None? && n !in args then Failure(InvalidEntrypointInputs)
    else if exists n :: n in args && !accepts(n, args[n]) then Failure(InvalidEntrypointInputs)
    else Success(map n | n in params :: if n in args then args[n] else params[n].value)
  }

  datatype PrepareOutcome = PrepareOutcome(slot: Option<PipelineId>, pipeline: Pipeline, error: Option<GraphError>)

  /** `prepare`: clears parameters and invocations, then runs the
      entrypoint inside `with self:`. When entering fails the slot is left
      as it was; otherwise it is emptied on the way out, error or not. */
  function Prepare(slot: Option<PipelineId>, p: Pipeline, args: map<string, Value>, accepts: (string, Value) -> bool): (r: PrepareOutcome)
    ensures slot.Some? ==> r == PrepareOutcome(slot, p.(parameters := map[], invocations := map[]), Some(AlreadyActive(slot.value)))
    ensures slot.None? ==> r.slot.None?
    ensures r.pipeline.id == p.id && r.pipeline.configuration == p.configuration
    ensures r.pipeline.entrypoint == p.entrypoint && r.pipeline.runArgs == p.runArgs
    ensures WellFormed(r.pipeline)
    ensures slot.None? && ValidateArgs(p.entrypoint.params, args, accepts).Failure? ==> r.error == Some(InvalidEntrypointInputs) && r.pipeline.invocations == map[]
    ensures slot.None? && ValidateArgs(p.entrypoint.params, args, accepts).Success? ==>
              var validated := ValidateArgs(p.entrypoint.params, args, accepts).value;
              var body := ExecuteBody(p.(parameters := validated, invocations := map[]), p.entrypoint.body);
              && r.pipeline.parameters == validated
              && r.error == body.error && r.pipeline == body.pipeline
  {
    var cleared := p.(parameters := map[], invocations := map[]);
    match Enter(slot, p)
    case Failure(e) => PrepareOutcome(slot, cleared, Some(e))
    case Success(entered) =>
      match ValidateArgs(p.entrypoint.params, args, accepts)
      case Failure(e) => PrepareOutcome(Exit(entered), cleared, Some(e))
      case Success(validated) =>
        var body := ExecuteBody(cleared.(parameters := validated), p.entrypoint.body);
        PrepareOutcome(Exit(entered), body.pipeline, body.error)
  }

  /** A sequence without repetitions has as many elements as entries. */
  lemma {:induction false} DistinctCount(ids: seq<string>)
    requires forall i, j :: 0 <= i < j < |ids| ==> ids[i] != ids[j]
    ensures |set id | id in ids| == |ids|
  {
    if |ids| > 0 {
      DistinctCount(ids[1..]);
      assert (set id | id in ids) == {ids[0]} + (set id | id in ids[1..]);
      assert ids[0] !in ids[1..];
    }
  }

  /** From an empty graph, a body run leaves one invocation per step call
      it reached. */
  lemma EmptyGraphCountsCalls(p: Pipeline, actions: seq<Action>)
    requires p.invocations == map[]
    ensures var r := ExecuteBody(p, actions);
            var calls := StepCalls(actions);
            && |r.pipeline.invocations| == |r.added|
            && (r.error.None? ==> |r.pipeline.invocations| == |calls|)
            && (r.error.Some? ==> |r.pipeline.invocations| < |calls|)
  {
    ExecuteBodyAddsOneInvocationPerCall(p, actions);
    var r := ExecuteBody(p, actions);
    assert r.pipeline.invocations.Keys == set id | id in r.added;
    DistinctCount(r.added);
    assert |r.pipeline.invocations| == |r.pipeline.invocations.Keys|;
  }

  /** The invocation under `id` records one of `calls`. */
  ghost predicate RecordsSomeCall(invocations: map<string, StepInvocation>, id: string, calls: seq<StepCall>, p: PipelineId)
    requires id in invocations
  {
    exists i :: 0 <= i < |calls| && invocations[id] == NewInvocation(id, calls[i], p)
  }

  /** Some invocation records `call`. */
  ghost predicate HasInvocationFor(invocations: map<string, StepInvocation>, call: StepCall, p: PipelineId) {
    exists id :: id in invocations && invocations[id] == NewInvocation(id, call, p)
  }

  /** From an empty graph, every invocation a body run leaves records one
      of the body's step calls, and when no call was refused every step
      call has its invocation. */
  lemma EmptyGraphRecordsCalls(p: Pipeline, actions: seq<Action>)
    requires p.invocations == map[]
    ensures var r := ExecuteBody(p, actions);
            var calls := StepCalls(actions);
            && (forall id :: id in r.pipeline.invocations ==> RecordsSomeCall(r.pipeline.invocations, id, calls, p.id))
            && (r.error.None? ==> forall i :: 0 <= i < |calls| ==> HasInvocationFor(r.pipeline.invocations, calls[i], p.id))
  {
    ExecuteBodyAddsOneInvocationPerCall(p, actions);
    var r := ExecuteBody(p, actions);
    var calls := StepCalls(actions);
    forall id | id in r.pipeline.invocations
      ensures RecordsSomeCall(r.pipeline.invocations, id, calls, p.id)
    {
      var k :| 0 <= k < |r.added| && r.added[k] == id;
      assert r.pipeline.invocations[id] == NewInvocation(id, calls[k], p.id);
    }
    if r.error.None? {
      forall i | 0 <= i < |calls|
        ensures HasInvocationFor(r.pipeline.invocations, calls[i], p.id)
      {
        var id := r.added[i];
        assert id in r.pipeline.invocations && r.pipeline.invocations[id] == NewInvocation(id, calls[i], p.id);
      }
    }
  }

  /** After a successful validation, the prepared graph holds exactly one
      invocation per step call of the entrypoint body (nested pipeline
      calls included) when no call was refused, and fewer when one was;
      every invocation records one of those calls. So the pipeline counts
      as prepared exactly when the body makes at least one step call. */
  lemma PrepareBuildsOneInvocationPerStepCall(p: Pipeline, args: map<string, Value>, accepts: (string, Value) -> bool)
    requires ValidateArgs(p.entrypoint.params, args, accepts).Success?
    ensures var r := Prepare(None, p, args, accepts);
            var calls := StepCalls(p.entrypoint.body);
            && (r.error.None? ==> |r.pipeline.invocations| == |calls|)
            && (r.error.Some? ==> |r.pipeline.invocations| < |calls|)
            && (r.error.None? ==> (IsPrepared(r.pipeline) <==> |calls| > 0))
            && (forall id :: id in r.pipeline.invocations ==> RecordsSomeCall(r.pipeline.invocations, id, calls, p.id))
            && (r.error.None? ==> forall i :: 0 <= i < |calls| ==> HasInvocationFor(r.pipeline.invocations, calls[i], p.id))
  {
    var cleared := p.(parameters := ValidateArgs(p.entrypoint.params, args, accepts).value, invocations := map[]);
    EmptyGraphCountsCalls(cleared, p.entrypoint.body);
    EmptyGraphRecordsCalls(cleared, p.entrypoint.body);
  }

  /** Preparing rebuilds the graph from scratch: invocations left over from
      an earlier preparation have no effect. */
  lemma PrepareDiscardsEarlierGraph(slot: Option<PipelineId>, p: Pipeline, args: map<string, Value>, accepts: (string, Value) -> bool,
                                    earlier: map<string, StepInvocation>)
    ensures Prepare(slot, p, args, accepts) == Prepare(slot, p.(invocations := earlier), args, accepts)
  {
  }

  /** `_prepare_if_possible`: nothing to do when prepared; refused when the
      entrypoint needs arguments; otherwise `prepare()` with no arguments. */
  function PrepareIfPossible(slot: Option<PipelineId>, p: Pipeline, accepts: (string, Value) -> bool): (r: PrepareOutcome)
    ensures IsPrepared(p) ==> r == PrepareOutcome(slot, p, None)
    ensures !IsPrepared(p) && RequiresParameters(p.entrypoint) ==> r == PrepareOutcome(slot, p, Some(NotPrepared))
    ensures !IsPrepared(p) && !RequiresParameters(p.entrypoint) ==> r == Prepare(slot, p, map[], accepts)
    ensures !IsPrepared(p) && !RequiresParameters(p.entrypoint) && slot.None? ==> ValidateArgs(p.entrypoint.params, map[], accepts).Success?
  {
    if IsPrepared(p) then PrepareOutcome(slot, p, None)
    else if RequiresParameters(p.entrypoint) then PrepareOutcome(slot, p, Some(NotPrepared))
    else Prepare(slot, p, map[], accepts)
  }

  // ---------------------------------------------------------------------
  // Worked example: two invocations of the same step
  // ---------------------------------------------------------------------

  function FooCall(allowSuffix: bool): StepCall {
    StepCall(Step("foo", ""), map[], map[], map[], {}, None, allowSuffix)
  }

  /** Two calls of a step named "foo" give ids "foo" and "foo_2"; with
      suffixes disallowed the second call fails as a duplicate. */
  lemma DuplicateStepNamesExample(p: Pipeline)
    requires p.invocations == map[]
    ensures var first := AddStepInvocation(Some(p.id), p, FooCall(true));
            && first.Success? && first.value.0 == "foo"
            && var second := AddStepInvocation(Some(p.id), first.value.1, FooCall(true));
               && second.Success? && second.value.0 == "foo_2"
               && second.value.1.invocations.Keys == {"foo", "foo_2"}
    ensures var first := AddStepInvocation(Some(p.id), p, FooCall(false));
            && first.Success?
            && AddStepInvocation(Some(p.id), first.value.1, FooCall(false)) == Failure(DuplicateStepId)
  {
    var first := AddStepInvocation(Some(p.id), p, FooCall(true));
    assert first.value.1.invocations.Keys == {"foo"};
    assert Decimal.IntToString(2) == "2";
    assert SuffixedId("foo", 2) == "foo_2";
    assert FirstFreeSuffix({"foo"}, "foo", 2) == Some(2);
  }
}
