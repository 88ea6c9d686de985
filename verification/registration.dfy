/** Pipeline registration (src/zenml/new/pipelines/pipeline.py, `_register`,
    `_get_latest_version`, `_compute_unique_identifier`).

    The store's pipeline records are a list in creation order, so "sorted by
    `desc:created`, size 1" is the last matching record. The digest (md5 in
    the source) is a function parameter applied to the concatenation of
    everything fed into the hash. */
module Registration {
  import opened Wrappers
  import Decimal
  import Pipelines

  /** A compiled step specification, as far as the identifier reads it. */
  datatype StepSpec = StepSpec(pipelineParameterName: string)

  /** The compiled pipeline specification: its version as release numbers
      (`"0.4"` is `[0, 4]`), its steps in invocation order, and its JSON
      serialization with string sources. */
  datatype PipelineSpec = PipelineSpec(version: seq<nat>, steps: seq<StepSpec>, json: string)

  datatype PipelineRecord = PipelineRecord(
    id: nat,
    name: string,
    version: string,
    versionHash: string,
    spec: PipelineSpec,
    docstring: string)

  /** The pipelines the store holds, oldest first, and the next free id. */
  datatype PipelineStore = PipelineStore(records: seq<PipelineRecord>, nextId: nat)

  datatype RegistrationError =
    | MissingInvocation(name: string)
    | InvalidVersion(version: string)
    | PipelineExists(name: string, version: string)

  /** Version string of pipelines registered without a version number. */
  const UNVERSIONED := "UNVERSIONED"

  /** Specs at or above this version also hash the pipeline's own source. */
  const SOURCE_HASH_VERSION: seq<nat> := [0, 4]

  /** `self.__doc__` of a `Pipeline` instance is the class docstring. */
  const PIPELINE_DOCSTRING := "ZenML pipeline class."

  // ---------------------------------------------------------------------
  // Unique identifier
  // ---------------------------------------------------------------------

  /** The release number at position `i`, missing positions read as 0. */
  function Segment(v: seq<nat>, i: nat): nat {
    if i < |v| then v[i] else 0
  }

  /** Release-number comparison `a >= b`, padding the shorter with zeros. */
  function ReleaseAtLeast(a: seq<nat>, b: seq<nat>): (r: bool)
    decreases |a| + |b|
  {
    if |a| == 0 && |b| == 0 then true
    else if Segment(a, 0) != Segment(b, 0) then Segment(a, 0) > Segment(b, 0)
    else ReleaseAtLeast(if |a| == 0 then a else a[1..], if |b| == 0 then b else b[1..])
  }

  /** The step sources fed into the hash, one per step spec in order; a
      step spec without an invocation is the source's `KeyError`. */
  function StepSources(steps: seq<StepSpec>, invocations: map<string, Pipelines.StepInvocation>): (r: Result<string, RegistrationError>)
    ensures r.Failure? <==> exists i :: 0 <= i < |steps| && steps[i].pipelineParameterName !in invocations
    ensures r.Failure? ==> r.error.MissingInvocation? && r.error.name !in invocations
  {
    if |steps| == 0 then Success("")
    else
      var name := steps[0].pipelineParameterName;
      if name !in invocations then Failure(MissingInvocation(name))
      else
        var rest :- StepSources(steps[1..], invocations);
        Success(invocations[name].step.sourceCode + rest)
  }

  /** One step spec contributes its invocation's step source. */
  lemma StepSourcesOfOneStep(step: StepSpec, invocations: map<string, Pipelines.StepInvocation>)
    requires step.pipelineParameterName in invocations
    ensures StepSources([step], invocations) == Success(invocations[step.pipelineParameterName].step.sourceCode)
  {
    assert [step][1..] == [];
    var source := invocations[step.pipelineParameterName].step.sourceCode;
    assert source + "" == source;
  }

  /** The step sources of `a + b` are those of `a` followed by those of
      `b`, and are defined exactly when both parts are. */
  lemma {:induction false} StepSourcesOfConcat(a: seq<StepSpec>, b: seq<StepSpec>, invocations: map<string, Pipelines.StepInvocation>)
    ensures StepSources(a + b, invocations).Success? <==>
              StepSources(a, invocations).Success? && StepSources(b, invocations).Success?
    ensures StepSources(a + b, invocations).Success? ==>
              StepSources(a + b, invocations).value == StepSources(a, invocations).value + StepSources(b, invocations).value
    decreases |a|
  {
    if |a| == 0 {
      assert a + b == b;
    } else {
      assert (a + b)[0] == a[0];
      assert (a + b)[1..] == a[1..] + b;
      StepSourcesOfConcat(a[1..], b, invocations);
      var name := a[0].pipelineParameterName;
      if name in invocations && StepSources(a + b, invocations).Success? {
        var head := invocations[name].step.sourceCode;
        assert StepSources(a + b, invocations).value == head + StepSources(a[1..] + b, invocations).value;
        assert StepSources(a, invocations).value == head + StepSources(a[1..], invocations).value;
      }
    }
  }

  /** Everything `_compute_unique_identifier` feeds into the digest, in order:
      the spec JSON, the pipeline source for specs from version 0.4 on, and
      every step's source. */
  function IdentifierInput(spec: PipelineSpec, pipelineSource: string, invocations: map<string, Pipelines.StepInvocation>): (r: Result<string, RegistrationError>)
    ensures r.Success? ==> spec.json <= r.value
    ensures r.Success? <==> StepSources(spec.steps, invocations).Success?
    ensures r.Success? && ReleaseAtLeast(spec.version, SOURCE_HASH_VERSION) ==> spec.json + pipelineSource <= r.value
    ensures r.Success? ==>
              r.value == spec.json + (if ReleaseAtLeast(spec.version, SOURCE_HASH_VERSION) then pipelineSource else "")
                         + StepSources(spec.steps, invocations).value
  {
    var steps :- StepSources(spec.steps, invocations);
    var input := if ReleaseAtLeast(spec.version, SOURCE_HASH_VERSION) then spec.json + pipelineSource + steps
                 else spec.json + steps;
    assert spec.json + pipelineSource <= spec.json + pipelineSource + steps;
    Success(input)
  }

  function ComputeUniqueIdentifier(spec: PipelineSpec, pipelineSource: string, invocations: map<string, Pipelines.StepInvocation>,
                                   digest: string -> string): (r: Result<string, RegistrationError>)
    ensures r.Success? <==> IdentifierInput(spec, pipelineSource, invocations).Success?
    ensures r.Success? ==> r.value == digest(IdentifierInput(spec, pipelineSource, invocations).value)
  {
    var input :- IdentifierInput(spec, pipelineSource, invocations);
    Success(digest(input))
  }

  /** Specs older than 0.4 hash without the pipeline's source, so editing
      the entrypoint keeps their identifier. */
  lemma LegacySpecIgnoresPipelineSource(spec: PipelineSpec, source1: string, source2: string,
                                        invocations: map<string, Pipelines.StepInvocation>, digest: string -> string)
    requires !ReleaseAtLeast(spec.version, SOURCE_HASH_VERSION)
    ensures ComputeUniqueIdentifier(spec, source1, invocations, digest) == ComputeUniqueIdentifier(spec, source2, invocations, digest)
  {
  }

  /** Two invocation maps that give the spec's steps the same sources
      hash the same way; invocations outside the spec are not read. */
  lemma {:induction false} StepSourcesReadOnlyListedSteps(steps: seq<StepSpec>, inv1: map<string, Pipelines.StepInvocation>,
                                                         inv2: map<string, Pipelines.StepInvocation>)
    requires forall i :: 0 <= i < |steps| ==> steps[i].pipelineParameterName in inv1 && steps[i].pipelineParameterName in inv2
    requires forall i :: 0 <= i < |steps| ==>
               inv1[steps[i].pipelineParameterName].step.sourceCode == inv2[steps[i].pipelineParameterName].step.sourceCode
    ensures StepSources(steps, inv1) == StepSources(steps, inv2)
  {
    if |steps| > 0 {
      StepSourcesReadOnlyListedSteps(steps[1..], inv1, inv2);
    }
  }

  lemma IdentifierReadsOnlyListedSteps(spec: PipelineSpec, pipelineSource: string, inv1: map<string, Pipelines.StepInvocation>,
                                       inv2: map<string, Pipelines.StepInvocation>, digest: string -> string)
    requires forall i :: 0 <= i < |spec.steps| ==> spec.steps[i].pipelineParameterName in inv1 && spec.steps[i].pipelineParameterName in inv2
    requires forall i :: 0 <= i < |spec.steps| ==>
               inv1[spec.steps[i].pipelineParameterName].step.sourceCode == inv2[spec.steps[i].pipelineParameterName].step.sourceCode
    ensures ComputeUniqueIdentifier(spec, pipelineSource, inv1, digest) == ComputeUniqueIdentifier(spec, pipelineSource, inv2, digest)
  {
    StepSourcesReadOnlyListedSteps(spec.steps, inv1, inv2);
  }

  // ---------------------------------------------------------------------
  // Store queries
  // ---------------------------------------------------------------------

  /** The `list_pipelines` filter: same name and, when given, same hash. */
  predicate Matches(r: PipelineRecord, name: string, hash: Option<string>) {
    r.name == name && (hash.None? || r.versionHash == hash.value)
  }

  /** `list_pipelines(..., sort_by="desc:created", size=1)`: the newest match. */
  function NewestMatching(records: seq<PipelineRecord>, name: string, hash: Option<string>): (r: Option<PipelineRecord>)
    ensures r.None? <==> forall i :: 0 <= i < |records| ==> !Matches(records[i], name, hash)
    ensures r.Some? ==> exists i :: 0 <= i < |records| && records[i] == r.value && Matches(records[i], name, hash)
                          && forall j :: i < j < |records| ==> !Matches(records[j], name, hash)
  {
    if |records| == 0 then None
    else if Matches(records[|records| - 1], name, hash) then Some(records[|records| - 1])
    else NewestMatching(records[..|records| - 1], name, hash)
  }

  /** `_get_latest_version`: `None` when no pipeline of that name exists or
      the newest is unversioned, otherwise `int(version)` of the newest,
      which raises when the version is not a decimal integer. */
  function GetLatestVersion(store: PipelineStore, name: string): (r: Result<Option<int>, RegistrationError>)
    ensures NewestMatching(store.records, name, None).None? ==> r == Success(None)
    ensures NewestMatching(store.records, name, None).Some? && NewestMatching(store.records, name, None).value.version == UNVERSIONED ==> r == Success(None)
    ensures r.Failure? <==>
              && NewestMatching(store.records, name, None).Some?
              && NewestMatching(store.records, name, None).value.version != UNVERSIONED
              && Decimal.ParseInt(NewestMatching(store.records, name, None).value.version).None?
    ensures r.Failure? ==> r.error == InvalidVersion(NewestMatching(store.records, name, None).value.version)
    ensures NewestMatching(store.records, name, None).Some? && Decimal.ParseInt(NewestMatching(store.records, name, None).value.version).Some?
            ==> r == Success(Decimal.ParseInt(NewestMatching(store.records, name, None).value.version))
    ensures r.Success? && r.value.Some? ==>
              && NewestMatching(store.records, name, None).Some?
              && Decimal.ParseInt(NewestMatching(store.records, name, None).value.version) == r.value
  {
    match NewestMatching(store.records, name, None)
    case None => Success(None)
    case Some(newest) =>
      if newest.version == UNVERSIONED then Success(None)
      else match Decimal.ParseInt(newest.version)
        case None => Failure(InvalidVersion(newest.version))
        case Some(v) => Success(Some(v))
  }

  /** A pipeline of that name and version is stored. */
  predicate VersionTaken(store: PipelineStore, name: string, version: string) {
    exists i :: 0 <= i < |store.records| && store.records[i].name == name && store.records[i].version == version
  }

  /** `create_pipeline`: refused with `EntityExistsError` when a pipeline of
      the same name and version exists; otherwise appended under the next
      id. */
  function CreatePipeline(store: PipelineStore, name: string, version: string, hash: string, spec: PipelineSpec, docstring: string):
    (r: Result<(PipelineRecord, PipelineStore), RegistrationError>)
    ensures r.Failure? <==> VersionTaken(store, name, version)
    ensures r.Failure? ==> r.error == PipelineExists(name, version)
    ensures r.Success? ==> r.value.0 == PipelineRecord(store.nextId, name, version, hash, spec, docstring)
                           && r.value.1 == PipelineStore(store.records + [r.value.0], store.nextId + 1)
    ensures r.Success? ==> VersionTaken(r.value.1, name, version)
  {
    if VersionTaken(store, name, version) then Failure(PipelineExists(name, version))
    else
      var record := PipelineRecord(store.nextId, name, version, hash, spec, docstring);
      var store' := PipelineStore(store.records + [record], store.nextId + 1);
      assert store'.records[|store.records|] == record;
      Success((record, store'))
  }

  /** `str((latest or 0) + 1)`, the version `_register` gives a new record. */
  function NextVersion(latest: Option<int>): string {
    Decimal.IntToString(latest.GetOr(0) + 1)
  }

  // ---------------------------------------------------------------------
  // _register
  // ---------------------------------------------------------------------

  /** `_register`: reuse the newest record with this name and version hash;
      otherwise create one with version `str((latest or 0) + 1)`. */
  function Register(store: PipelineStore, name: string, spec: PipelineSpec, pipelineSource: string,
                    invocations: map<string, Pipelines.StepInvocation>, digest: string -> string): (r: Result<(PipelineRecord, PipelineStore), RegistrationError>)
    ensures var hash := ComputeUniqueIdentifier(spec, pipelineSource, invocations, digest);
            r.Failure? <==>
              || hash.Failure?
              || (&& NewestMatching(store.records, name, Some(hash.value)).None?
                  && (|| GetLatestVersion(store, name).Failure?
                      || VersionTaken(store, name, NextVersion(GetLatestVersion(store, name).value))))
    ensures ComputeUniqueIdentifier(spec, pipelineSource, invocations, digest).Failure? ==>
              r == Failure(ComputeUniqueIdentifier(spec, pipelineSource, invocations, digest).error)
    ensures r.Failure? && ComputeUniqueIdentifier(spec, pipelineSource, invocations, digest).Success? ==>
              if GetLatestVersion(store, name).Failure? then r == Failure(GetLatestVersion(store, name).error)
              else r == Failure(PipelineExists(name, NextVersion(GetLatestVersion(store, name).value)))
    ensures r.Success? ==> r.value.0.name == name
    ensures r.Success? ==> r.value.0.versionHash == ComputeUniqueIdentifier(spec, pipelineSource, invocations, digest).value
    ensures r.Success? && NewestMatching(store.records, name, Some(r.value.0.versionHash)).Some? ==>
              r.value == (NewestMatching(store.records, name, Some(r.value.0.versionHash)).value, store)
    ensures r.Success? && NewestMatching(store.records, name, Some(r.value.0.versionHash)).None? ==>
              && GetLatestVersion(store, name).Success?
              && r.value.0 == PipelineRecord(store.nextId, name, NextVersion(GetLatestVersion(store, name).value),
                                             r.value.0.versionHash, spec, PIPELINE_DOCSTRING)
              && r.value.1 == PipelineStore(store.records + [r.value.0], store.nextId + 1)
  {
    var hash :- ComputeUniqueIdentifier(spec, pipelineSource, invocations, digest);
    match NewestMatching(store.records, name, Some(hash))
    case Some(existing) => Success((existing, store))
    case None =>
      var latest :- GetLatestVersion(store, name);
      CreatePipeline(store, name, NextVersion(latest), hash, spec, PIPELINE_DOCSTRING)
  }

  /** The newest pipeline of the name is unversioned and an older one has
      version "1": the new record would be version "1" again, which the
      store refuses. */
  lemma RegisterAfterUnversionedClashesWithOne(store: PipelineStore, name: string, spec: PipelineSpec, pipelineSource: string,
                                               invocations: map<string, Pipelines.StepInvocation>, digest: string -> string)
    requires ComputeUniqueIdentifier(spec, pipelineSource, invocations, digest).Success?
    requires NewestMatching(store.records, name, Some(ComputeUniqueIdentifier(spec, pipelineSource, invocations, digest).value)).None?
    requires NewestMatching(store.records, name, None).Some? && NewestMatching(store.records, name, None).value.version == UNVERSIONED
    requires VersionTaken(store, name, "1")
    ensures Register(store, name, spec, pipelineSource, invocations, digest) == Failure(PipelineExists(name, "1"))
  {
    assert NextVersion(None) == "1" by {
      assert Decimal.IntToString(1) == "1";
    }
  }

  /** Registering an unchanged pipeline twice gives the same record, and the
      second call creates nothing. */
  lemma RegisterIsIdempotent(store: PipelineStore, name: string, spec: PipelineSpec, pipelineSource: string,
                             invocations: map<string, Pipelines.StepInvocation>, digest: string -> string)
    requires Register(store, name, spec, pipelineSource, invocations, digest).Success?
    ensures var (record, store') := Register(store, name, spec, pipelineSource, invocations, digest).value;
            Register(store', name, spec, pipelineSource, invocations, digest) == Success((record, store'))
  {
    var (record, store') := Register(store, name, spec, pipelineSource, invocations, digest).value;
    if NewestMatching(store.records, name, Some(record.versionHash)).None? {
      var rs := store'.records;
      assert rs[|rs| - 1] == record;
      assert Matches(record, name, Some(record.versionHash));
    }
  }

  /** After a new record is created, `_get_latest_version` reads back the
      number it was given: `int(str(n)) == n`. */
  lemma CreatedVersionIsLatest(store: PipelineStore, name: string, spec: PipelineSpec, pipelineSource: string,
                               invocations: map<string, Pipelines.StepInvocation>, digest: string -> string)
    requires Register(store, name, spec, pipelineSource, invocations, digest).Success?
    requires NewestMatching(store.records, name, Some(Register(store, name, spec, pipelineSource, invocations, digest).value.0.versionHash)).None?
    ensures var store' := Register(store, name, spec, pipelineSource, invocations, digest).value.1;
            GetLatestVersion(store', name) == Success(Some(GetLatestVersion(store, name).value.GetOr(0) + 1))
  {
    var (record, store') := Register(store, name, spec, pipelineSource, invocations, digest).value;
    var n := GetLatestVersion(store, name).value.GetOr(0) + 1;
    assert record.version == Decimal.IntToString(n);
    var rs := store'.records;
    assert rs[|rs| - 1] == record;
    assert NewestMatching(rs, name, None) == Some(record);
    Decimal.ParseIntToString(n);
    assert record.version != UNVERSIONED by {
      assert record.version[0] == '-' || Decimal.IsDigit(record.version[0]);
      assert UNVERSIONED[0] == 'U';
    }
  }

  /** The first registration of a name, or one after an unversioned
      pipeline, is version "1". */
  lemma FirstVersionIsOne(store: PipelineStore, name: string, spec: PipelineSpec, pipelineSource: string,
                          invocations: map<string, Pipelines.StepInvocation>, digest: string -> string)
    requires Register(store, name, spec, pipelineSource, invocations, digest).Success?
    requires NewestMatching(store.records, name, Some(Register(store, name, spec, pipelineSource, invocations, digest).value.0.versionHash)).None?
    requires NewestMatching(store.records, name, None).None? || NewestMatching(store.records, name, None).value.version == UNVERSIONED
    ensures Register(store, name, spec, pipelineSource, invocations, digest).value.0.version == "1"
  {
    assert NextVersion(None) == "1" by {
      assert Decimal.IntToString(1) == "1";
    }
  }
}
