# ZenML pipeline core, modelled in Dafny

This project models the core of ZenML's pipeline machinery as pure Dafny
functions over immutable datatypes, and proves properties about it.

- **Pipeline graph building** (`Pipelines`, pipeline.dfy). A pipeline is
  entered as the class-wide active pipeline. Each step call records a step
  invocation with a unique id. An id clash is resolved by a numeric suffix
  below 10000, or refused.
- **Preparation and calling** (`Pipelines`, `PipelineRun`). `prepare`
  clears the graph, validates the entrypoint arguments and runs the
  entrypoint inside the active context. `__call__` either runs the
  entrypoint in the outer pipeline's context (a nested call) or prepares
  and runs.
- **Configuration** (`PipelineConfiguration`). `configure` resolves the
  hooks, validates the setting keys and then merges `extra` and `settings`
  into the existing configuration, or replaces them.
- **Registration** (`Registration`). The unique identifier is a digest of
  the spec's JSON, the pipeline's source (for specs from version 0.4 on)
  and the sources of the spec's steps. The latest version comes from
  the store. A pipeline is registered again only when no record with the
  same name and identifier exists.
- **`_run`** (`PipelineRun`). The fixed sequence of collaborator calls:
  compile, register, create a schedule, build, create the deployment,
  prepare the stack and deploy. Each collaborator's outcome is an input.
- **Zen store bootstrap** (`ZenStore`). Default project, default user,
  default stack, and the validation of the active project and stack.
- **Test-harness configuration merge** (`HarnessConfig`). Lists are
  appended, then checked for repeated keys.
- **Materializers** (`Materializers`). Validation and registration of
  materializer classes, and the type guard of `load` and `save`.
- **Step outputs** (`StepOutputs`). A step's return annotation is parsed
  into a map from output name to type.

`Decimal` models `str(n)` and `int(s)` on integers. `Wrappers` holds
`Option` and `Result`.

Some parts of the system are parameters of the model:

- the md5 digest;
- the validity of a hook source and of a setting key;
- whether pydantic accepts an entrypoint argument's value;
- Python's `issubclass`;
- membership in the `ArtifactType` enum;
- the outcomes of the compiler, the stack, the build utilities, and the
  schedule and deployment creation calls.

Python exceptions are modelled as `Failure` values.

Calling pipeline B inside pipeline A runs B's entrypoint while A is
active (`src/zenml/new/pipelines/pipeline.py:1157-1164`), so B's step
calls go into A's graph, and a step call A refuses is raised out of the
call; see `PipelineRun.Call`, `PipelineRun.NestedCallAddsCalleeSteps` and
`Pipelines.ExecuteBodyAddsOneInvocationPerCall`.

## Model
| member | source | states |
|---|---|---|
| Decimal.ParseIntToString | src/zenml/new/pipelines/pipeline.py:930-936 | reading back a version written with `str` gives the same integer, so the stored version string round-trips |
| Decimal.IntToStringInjective | src/zenml/new/pipelines/pipeline.py:1039-1052 | distinct suffixes give distinct decimal strings, so the candidate ids `name_k` never coincide |
| Pipelines.FirstFreeSuffix | src/zenml/new/pipelines/pipeline.py:1039-1052 | the suffix search finds the smallest k in the window whose suffixed id is unused, and finds none only when the whole window is taken |
| Pipelines.ComputeInvocationId | src/zenml/new/pipelines/pipeline.py:1017-1052 | the id is never already in use; the call succeeds exactly when the plain step name (or custom id) is free, or suffixing is allowed and some suffix 2..9999 is free; a free name is used as is; a clash with suffixing disallowed is a duplicate-id error; otherwise the id carries the smallest free suffix, and the search fails exactly when all 9998 candidates `name_2` .. `name_9999` are taken |
| Pipelines.AddStepInvocation | src/zenml/new/pipelines/pipeline.py:959-1015 | refused when the pipeline is not the active one, or when an input artifact comes from another pipeline; otherwise exactly one new invocation is added under a fresh id and every earlier invocation is kept |
| Pipelines.AddStepInvocationKeepsOthers | src/zenml/new/pipelines/pipeline.py:1002-1015 | a successful insertion adds exactly the new id, keeps every earlier invocation as it was, and keeps the graph well formed: each invocation stored under its own id, owned by this pipeline, with inputs from this pipeline only |
| Pipelines.Enter | src/zenml/new/pipelines/pipeline.py:1054-1070 | entering fails when another pipeline is active, and otherwise makes this pipeline the active one |
| Pipelines.Exit | src/zenml/new/pipelines/pipeline.py:1072-1078 | leaving always empties the active slot |
| Pipelines.ExecuteBody | src/zenml/new/pipelines/pipeline.py:1140-1167 | running the body, nested pipeline calls included, only adds invocations to the active pipeline: every earlier invocation and every other field is kept, and a well-formed graph stays well formed |
| Pipelines.ExecuteBodyAddsOneInvocationPerCall | src/zenml/new/pipelines/pipeline.py:1140-1167 | running a body adds one invocation per step call it reaches, nested pipeline bodies spliced in, in order, each under an id not used before and recording that call; the run stops exactly at the first call the insertion refuses, with that refusal as the error, and reaches every call when nothing is refused |
| Pipelines.StepCallAddsOneInvocation | src/zenml/new/pipelines/pipeline.py:959-1015 | the same, for a body that starts with a step call: that call is the first one added, or the refused one |
| Pipelines.NestedCallAddsOneInvocationPerCall | src/zenml/new/pipelines/pipeline.py:1157-1164 | the same, for a body that starts with a pipeline call: the callee's step calls come first, and a refusal inside the callee stops the outer body |
| Pipelines.AddedInvocationExtends | src/zenml/new/pipelines/pipeline.py:1002-1015 | one accepted insertion adds exactly one invocation, under an unused id, recording the call |
| Pipelines.ExtendsCompose | src/zenml/new/pipelines/pipeline.py:1140-1167 | two runs of insertions in a row add the concatenation of their ids and calls, all distinct |
| Pipelines.NestedCallIgnoresCalleeGraph | src/zenml/new/pipelines/pipeline.py:1157-1164 | a pipeline called while another is active adds its steps to the active pipeline, and its own graph and configuration play no part |
| Pipelines.ValidateArgs | src/zenml/new/pipelines/pipeline.py:1169-1194 | validation succeeds exactly when every argument names a parameter, every parameter without default is given and every given value is accepted (JSON serialisable, of the annotated type); every failure is the one invalid-inputs error; the bound arguments are exactly the given ones plus the defaults of unfilled parameters |
| Pipelines.Prepare | src/zenml/new/pipelines/pipeline.py:383-398 | when another pipeline is active, the graph is cleared, nothing runs and the slot is left as it was; otherwise the slot is empty afterwards, invalid arguments leave an empty graph, and valid ones become the parameters, with the graph and error being those of running the entrypoint body on the cleared pipeline; the resulting graph is always well formed |
| Pipelines.PrepareDiscardsEarlierGraph | src/zenml/new/pipelines/pipeline.py:389-391 | the result of `prepare` does not depend on the invocations recorded before it |
| Pipelines.EmptyGraphCountsCalls | src/zenml/new/pipelines/pipeline.py:389-398 | from an empty graph, the run leaves one invocation per step call when nothing is refused, and fewer otherwise |
| Pipelines.EmptyGraphRecordsCalls | src/zenml/new/pipelines/pipeline.py:389-398 | from an empty graph, every invocation records one of the body's step calls, and when nothing is refused every step call has one |
| Pipelines.PrepareBuildsOneInvocationPerStepCall | src/zenml/new/pipelines/pipeline.py:383-398 | after valid arguments, the prepared graph has exactly one invocation per step call of the body, nested calls included, when nothing was refused (fewer otherwise), every invocation records one of those calls, and the pipeline counts as prepared exactly when the body makes a step call |
| Pipelines.PrepareIfPossible | src/zenml/new/pipelines/pipeline.py:1196-1212 | a prepared pipeline is left as it is; an unprepared one whose entrypoint needs parameters is refused; any other is prepared with no arguments, which then always validate |
| Pipelines.DuplicateStepNamesExample | src/zenml/new/pipelines/pipeline.py:1039-1052 | calling step `foo` twice yields the ids `foo` and `foo_2`, and a second `foo` with suffixing disallowed is refused |
| PipelineConfiguration.UpdateMap | src/zenml/new/pipelines/pipeline.py:343-355 | with merging, existing keys survive and updated keys take the new value; without merging, a given map replaces the old one; an absent update keeps it |
| PipelineConfiguration.ResolveHook | src/zenml/new/pipelines/pipeline.py:331-340 | no hook gives no source; a hook that resolves gives its source; one that does not is an error |
| PipelineConfiguration.Configure | src/zenml/new/pipelines/pipeline.py:285-357 | the call succeeds exactly when both given hooks resolve and no setting key is unknown; an unresolved on_failure hook is reported first, then an unresolved on_success hook, then the unknown keys; on success a given hook is stored as its resolved source, each given field is updated, `extra` and `settings` are merged or replaced as requested, and each field not given keeps its value |
| PipelineConfiguration.DocumentedExtraExample | src/zenml/new/pipelines/pipeline.py:298-306 | the documented example: `extra` ends as `{key1, key2}` with merging and as `{key2}` without |
| Registration.StepSources | src/zenml/new/pipelines/pipeline.py:909-917 | the step-source part of the digest input is defined exactly when every listed step has an invocation; a missing one is reported by name |
| Registration.StepSourcesOfOneStep | src/zenml/new/pipelines/pipeline.py:914-917 | a single step spec contributes exactly the source of the step its invocation calls |
| Registration.StepSourcesOfConcat | src/zenml/new/pipelines/pipeline.py:913-917 | the step sources of two spec lists in sequence are those of the first followed by those of the second, and are defined exactly when both are, so each step's source enters the digest in spec order |
| Registration.IdentifierInput | src/zenml/new/pipelines/pipeline.py:896-919 | the digest input is the spec's JSON, then the pipeline source for specs from version 0.4 on, then the step sources in spec order, and is defined exactly when every listed step has an invocation |
| Registration.ComputeUniqueIdentifier | src/zenml/new/pipelines/pipeline.py:896-919 | the identifier is the digest of the identifier input, and fails exactly when that input is undefined |
| Registration.LegacySpecIgnoresPipelineSource | src/zenml/new/pipelines/pipeline.py:905-907 | a spec older than 0.4 gets the same identifier whatever the pipeline source |
| Registration.IdentifierReadsOnlyListedSteps | src/zenml/new/pipelines/pipeline.py:909-917 | two graphs that agree on the listed steps give the same identifier |
| Registration.NewestMatching | src/zenml/new/pipelines/pipeline.py:858-866 | the newest stored record with the given name and, when given, identifier, or none when no record matches |
| Registration.GetLatestVersion | src/zenml/new/pipelines/pipeline.py:921-936 | none when no record has the name or the newest one is unversioned; the integer the newest record's version denotes when it is a decimal integer; and a failure, naming that version, exactly when the newest record is versioned but not a decimal integer |
| Registration.CreatePipeline | src/zenml/zen_stores/zen_store_interface.py:849-864 | refused exactly when a pipeline of the same name and version is stored; otherwise the record is appended under the next id |
| Registration.Register | src/zenml/new/pipelines/pipeline.py:842-894 | an existing record with the same name and identifier is returned with the store unchanged; otherwise one record is appended with version latest + 1 and the digest; it fails exactly when the identifier cannot be computed, or no record matches and either the latest version is unreadable or the new version is already taken, with that cause as the error |
| Registration.RegisterIsIdempotent | src/zenml/new/pipelines/pipeline.py:858-870 | registering the same pipeline twice returns the same record and leaves the store as after the first registration |
| Registration.CreatedVersionIsLatest | src/zenml/new/pipelines/pipeline.py:872-873 | after a new registration, the latest version of the name is one above the previous one |
| Registration.FirstVersionIsOne | src/zenml/new/pipelines/pipeline.py:872-873 | the first registration of a name gets version "1" |
| Registration.RegisterAfterUnversionedClashesWithOne | src/zenml/new/pipelines/pipeline.py:872-889 | when the newest record of the name is unversioned and an older one has version "1", a new registration asks for "1" again and the store refuses it |
| PipelineRun.CodeReference | src/zenml/new/pipelines/pipeline.py:606-614 | a code reference is attached exactly when there is a local repository and it is clean |
| PipelineRun.StackDeploy | src/zenml/new/pipelines/pipeline.py:653-661 | the stack is prepared, then deployed with the prevent-execution flag raised; the deploy is reached exactly when preparation succeeds, and the run succeeds exactly when the deploy does |
| PipelineRun.DeploymentStage | src/zenml/new/pipelines/pipeline.py:631-661 | the deployment is created before the stack work, which runs exactly when creation succeeds |
| PipelineRun.BuildStage | src/zenml/new/pipelines/pipeline.py:597-661 | the build precedes deployment creation, and every deployment carries the given pipeline id and code reference |
| PipelineRun.ScheduleBuildDeploy | src/zenml/new/pipelines/pipeline.py:556-661 | the deploy is reached exactly when the schedule creation (needed only when one is compiled), the build, the deployment creation and the stack preparation all succeed; every deployment carries the given pipeline id |
| PipelineRun.RegisterAndDispatch | src/zenml/new/pipelines/pipeline.py:547-661 | the pipeline is registered exactly when neither skipping nor unlisted is set; a successful registration leaves the registered store and every deployment names the registered pipeline; a failed one stops the run with the store unchanged; without registration the store is unchanged and deployments carry no pipeline id; the deploy is reached exactly when registration (if made) and every later call before it succeed |
| PipelineRun.Run | src/zenml/new/pipelines/pipeline.py:471-667 | with execution prevented nothing happens; otherwise compilation comes first, the calls keep their fixed order, every deploy happens with the flag raised, the flag is lowered at the end, and registration happens exactly when compilation succeeds and it is not skipped; the store afterwards is the one registration leaves, and deployments name the registered pipeline |
| PipelineRun.DeployReachedIffEarlierCallsSucceed | src/zenml/new/pipelines/pipeline.py:525-661 | the deploy call is reached exactly when every earlier collaborator call succeeds |
| PipelineRun.RunTwiceRegistersOnce | src/zenml/new/pipelines/pipeline.py:858-870 | running an unchanged pipeline again on the store the first run left changes the store no further, and both runs' deployments name the same pipeline |
| PipelineRun.Call | src/zenml/new/pipelines/pipeline.py:1140-1167 | a call while another pipeline is active runs the entrypoint body in that pipeline exactly as a nested pipeline call in a body does, arguments that do not bind are an error with nothing added, and the entrypoint's value is returned exactly when no step call was refused; otherwise the pipeline is prepared with the arguments and then run only when preparation succeeded |
| PipelineRun.NestedCallAddsCalleeSteps | src/zenml/new/pipelines/pipeline.py:1157-1164 | a nested call adds to the active pipeline one invocation per step call of the callee's body, in order, and stops with the first refusal as its error |
| PipelineRun.NestedCallRefusesTakenStepId | src/zenml/new/pipelines/pipeline.py:1157-1164 | a callee calling step "foo" without suffixing inside a pipeline that already holds "foo" raises the duplicate-id error and returns nothing |
| PipelineRun.CallDuringDeployDoesNothing | src/zenml/new/pipelines/pipeline.py:513-524 | a call made while the prevent-execution flag is raised prepares the pipeline but makes no collaborator call and leaves the store unchanged |
| ZenStore.FindFirst | src/zenml/zen_stores/base_zen_store.py:442-469 | the index of the first element that matches, or none exactly when no element matches |
| ZenStore.DefaultProject | src/zenml/zen_stores/base_zen_store.py:663-681 | the project named by the environment (default "default"), or `KeyError` |
| ZenStore.DefaultUser | src/zenml/zen_stores/base_zen_store.py:504-518 | the user named by the environment (default "default"), or `KeyError` |
| ZenStore.ActiveUser | src/zenml/zen_stores/base_zen_store.py:475-483 | the active user is the user with the configured name, or `KeyError` |
| ZenStore.GetDefaultStack | src/zenml/zen_stores/base_zen_store.py:442-469 | the first stack named "default" in the project owned by the user; `KeyError` exactly when there is none |
| ZenStore.CreateStackComponent | src/zenml/zen_stores/zen_store_interface.py:265-279 | refused exactly when the user already owns a component of that name and type in the project; otherwise the component is appended under a fresh id |
| ZenStore.CreateStack | src/zenml/zen_stores/zen_store_interface.py:190-201 | refused exactly when the user already owns a stack of that name in the project; otherwise the stack is appended under a fresh id |
| ZenStore.AddArtifactStoreAndStack | src/zenml/zen_stores/base_zen_store.py:419-440 | with the orchestrator in place, the artifact store is created, then the stack holding both; each refusal is reported with what was created before it kept |
| ZenStore.AddDefaultStack | src/zenml/zen_stores/base_zen_store.py:407-440 | succeeds exactly when neither default component nor the default stack exists; then it appends the local orchestrator, the local artifact store and the unshared default stack holding them; otherwise it reports the first refusal and keeps the components created before it |
| ZenStore.CreateDefaultStack | src/zenml/zen_stores/base_zen_store.py:364-440 | a missing project or user is a `KeyError`; an existing default stack is refused; otherwise the components and the stack are created as above; it succeeds exactly when the project and user exist, no default stack does, and no default component is taken, and projects, users and fresh ids are kept |
| ZenStore.CreatedDefaultStackIsFound | src/zenml/zen_stores/base_zen_store.py:364-469 | the stack just created is the one the default-stack lookup returns afterwards |
| ZenStore.GetOrCreateDefaultStack | src/zenml/zen_stores/base_zen_store.py:346-358 | an unknown active user is an error; an existing default stack is returned with the store unchanged; otherwise it is the creation of one; a returned stack is what the default-stack lookup finds afterwards; for a stored project it succeeds exactly when a default stack exists or no default component is taken |
| ZenStore.ValidateActiveProject | src/zenml/zen_stores/base_zen_store.py:258-273 | the requested project when it is given and exists, the default project otherwise |
| ZenStore.ValidateActiveConfig | src/zenml/zen_stores/base_zen_store.py:230-321 | a project error is returned with the store unchanged; the requested stack is kept exactly when it exists, belongs to the active project, and is shared or owned by the active user; otherwise the result is the user's default stack, fetched or created, which the default-stack lookup finds afterwards; with a valid project and user it succeeds exactly when the stack is kept, a default stack exists or no default component is taken |
| ZenStore.CreateDefaultProject | src/zenml/zen_stores/base_zen_store.py:683-694 | appends one project, named by the environment, under the next id, which no stored project has when ids are fresh |
| ZenStore.CreatedProjectIsFound | src/zenml/zen_stores/base_zen_store.py:683-694 | the created project is what a lookup by its id returns |
| ZenStore.CreateDefaultUser | src/zenml/zen_stores/base_zen_store.py:520-539 | appends one user, named by the environment, under the next id, which no stored user has when ids are fresh |
| ZenStore.CreatedUserIsFound | src/zenml/zen_stores/base_zen_store.py:520-539 | the created user is what a lookup by its id returns |
| ZenStore.EnsureDefaultProject | src/zenml/zen_stores/base_zen_store.py:193-196 | afterwards the default project exists and is the one returned; it is created only when missing, and nothing but the projects changes |
| ZenStore.EnsureDefaultUser | src/zenml/zen_stores/base_zen_store.py:197-200 | afterwards the default user exists and is the one returned; it is created only when missing, and nothing but the users changes |
| ZenStore.EnsureDefaultStack | src/zenml/zen_stores/base_zen_store.py:201-210 | nothing changes when the default stack exists; otherwise the store is the one creating it leaves, with its outcome; success means the default stack exists afterwards; for a stored project and user it succeeds exactly when the stack existed or no default component is taken, any failure being a component refusal; projects, users and fresh ids are kept |
| ZenStore.InitializeDatabase | src/zenml/zen_stores/base_zen_store.py:190-210 | a successful initialization leaves the default project, user and stack all in place, and fresh ids stay fresh |
| ZenStore.InitializeDatabaseFailsOnlyOnTakenComponent | src/zenml/zen_stores/base_zen_store.py:190-210 | initialization succeeds exactly when the default stack exists or no default component is taken, and its only failure is that component refusal |
| ZenStore.InitializeDatabaseKeepsExistingDefaults | src/zenml/zen_stores/base_zen_store.py:190-210 | an existing default project or user is not recreated, and a store that already has all three defaults is returned unchanged, so initialization is idempotent |
| HarnessConfig.RepeatedIn | tests/harness/model/config.py:64-65 | keeps each key exactly as often as it occurs, when it occurs more than once in the whole list, and drops it otherwise |
| HarnessConfig.CheckDuplicateKeys | tests/harness/model/config.py:52-65 | every key that occurs more than once is listed once per occurrence, no other key is listed, and the list is empty exactly when all keys are distinct |
| HarnessConfig.DistinctIffNoRepeatedCount | tests/harness/model/config.py:64-65 | a key list has no repeated key exactly when each key occurs at most once |
| HarnessConfig.FirstRepeating | tests/harness/model/config.py:82-89 | the first checked list that has a repeated key, with all earlier lists free of them; none exactly when every list is free of them |
| HarnessConfig.FreeOfRepeatsIffAllChecks | tests/harness/model/config.py:74-80 | the five checked lists, with their key attributes, are exactly the five lists of a configuration |
| HarnessConfig.CheckLists | tests/harness/model/config.py:82-89 | no error exactly when no list repeats a key; otherwise the error names the first list in check order that does, with its repeated keys, which are never empty |
| HarnessConfig.Merge | tests/harness/model/config.py:45-89 | each list becomes this one's entries followed by the other's; the merge fails exactly when some merged list repeats a key, and the error names the first such list in check order with its repeated keys |
| HarnessConfig.MergeEmptyIsCheckOnly | tests/harness/model/config.py:67-71 | merging an empty configuration changes no list |
| HarnessConfig.KeyTwiceReportedTwice | tests/harness/model/config.py:64-65 | a key that occurs twice is reported once per occurrence |
| HarnessConfig.RepeatedDeploymentReported | tests/harness/model/config.py:74-89 | deployments are checked first, so a deployment name that occurs twice is the error raised, whatever the other lists hold |
| HarnessConfig.KeyAttributeExample | tests/harness/model/config.py:74-80 | deployments are keyed by name alone: two deployments with one name are refused even though their bodies differ |
| Materializers.FirstNonClass | src/zenml/materializers/base_materializer.py:86-92 | the first associated type that is not a class, and none exactly when all of them are classes |
| Materializers.Registrations | src/zenml/materializers/base_materializer.py:94-98 | one registration per associated type, in order, each naming the new class |
| Materializers.CreateMaterializerClass | src/zenml/materializers/base_materializer.py:37-100 | the base class is neither validated nor registered; no associated types, an invalid artifact type or a non-class type is refused, in that order, with the registry unchanged; on success the registry gains one entry per associated type, naming the class |
| Materializers.AnySubclass | src/zenml/materializers/base_materializer.py:126-129 | when it does not fail, the result is true exactly when the type is a subclass of some associated type; it cannot fail when all types are classes |
| Materializers.CanHandleType | src/zenml/materializers/base_materializer.py:117-129 | with class-only associated types, a type is handled exactly when it is a subclass of one of them |
| Materializers.Load | src/zenml/materializers/base_materializer.py:131-150 | loading succeeds exactly when the type is handled, and a type that is not handled is a `TypeError` |
| Materializers.Save | src/zenml/materializers/base_materializer.py:152-166 | saving succeeds exactly when the data's type is handled, and a type that is not handled is a `TypeError` |
| Materializers.CreatedClassHandlesRegisteredTypes | src/zenml/materializers/base_materializer.py:94-98 | each registration added by a new class names that class, and an instance of the class loads and saves any subclass of the registered type |
| StepOutputs.ResolveTypeAnnotation | src/zenml/steps/utils.py:28-51 | the result is always a plain type: a plain type is unchanged and a generic alias becomes its origin |
| StepOutputs.OutputSignature | src/zenml/steps/utils.py:76-81 | the outputs are exactly the declared names, each with a plain type |
| StepOutputs.OutputSignatureLastWins | src/zenml/steps/utils.py:76-81 | a name declared more than once takes the resolved type of its last declaration |
| StepOutputs.ParseReturnTypeAnnotations | src/zenml/steps/utils.py:54-81 | no annotation or `None` gives no outputs; a single type gives one output named "output" with the resolved type; an `Output` gives exactly its declared names |
| StepOutputs.OutputAnnotationEntryCount | src/zenml/steps/utils.py:76-81 | with distinct names, the output map has exactly one entry per declared output |
| StepOutputs.OutputAnnotationKeepsEachOutput | src/zenml/steps/utils.py:76-81 | with distinct names, each declared output appears under its name with its resolved type |

## Left out

- Positional arguments are left out. The entrypoint is called with keyword arguments only.
- Pipelines.ValidateArgs: pydantic's coercion of values (`smart_union`, conversion to the annotated type) is not modelled; an accepted value is bound as given. Which values are accepted is a parameter, since values are opaque strings here.
- A pipeline called inside another pipeline's body (an action of the body) carries no arguments, so Python's binding check is modelled only for a direct `PipelineRun.Call`.
- Registration.ReleaseAtLeast: `packaging.version.parse` ordering is reduced to release numbers; pre-, post- and dev-release tags and epochs are not modelled.
- The entrypoint body is a fixed list of step calls that does not depend on the argument values. Return values of step calls are not modelled.
- Pipeline.register, build, with_options, copy, _get_registered_model and write_run_configuration_template are not modelled. They sit outside the graph-building, registration and run core.
- The team helpers and `extract_metadata` are not modelled, and neither is step_decorator.py apart from the output name "output".
- PipelineConfiguration.Configure: values are atomic, so the recursive merge of nested dictionaries inside `extra` and `settings` is not modelled.
- Registration.Register: there is no recovery from a registration conflict raised by a concurrent writer. The store is a list that is only ever appended to.
- Registration.CreatePipeline: the store's notion of an "identical pipeline" is read as one with the same name and version; src/zenml/zen_stores/sql_zen_store.py is not part of this model.
- Decimal.ParseIntToString: the model's `int()` accepts only an optional sign followed by digits. Python also accepts surrounding whitespace, underscores between digits and non-ASCII decimal digits, and those forms are not modelled.
- PipelineRun.Run: the schedule's name, taken from the current time, is not modelled. Logging, analytics and the dashboard URL are left out. The compiler, stack, build utilities and store calls are opaque; only their success or failure is an input.
- ZenStore.ActiveUser: the cached active-user id and the repository's own lookups by UUID are not modelled. Users and projects are looked up by name or id in creation order.
- ZenStore.CreateDefaultUser: the default password and the environment variables it comes from are not modelled.
- ZenStore: concurrency, SQL persistence and the analytics calls are left out. Stack and component refusals follow the documented conditions of the store interface; the SQL store's own checks are not part of this model.
- Materializers.CreateMaterializerClass: the `ArtifactType` enum and Python's subclass relation are parameters, because the enum and the registry's internals are not part of this model. Any class named "BaseMaterializer" skips validation, matching the name test in the source.
- Materializers.Load, Materializers.Save: only the type guard is modelled. The base implementations do no I/O and return nothing.
- StepOutputs.ResolveTypeAnnotation: only the Python 3.8+ branch is modelled. The Python 3.7 fallback branch is left out.
