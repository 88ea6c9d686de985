/** The pipeline-level configuration record and `Pipeline.configure`
    (src/zenml/new/pipelines/pipeline.py): unset options are dropped, hooks
    are resolved to source strings, setting keys are validated, and the
    update is applied in merge or replace mode. */
module PipelineConfiguration {
  import opened Wrappers

  /** A JSON-serializable configuration value; nested structure is not
      modelled, values are atomic. */
  type Value = string

  /** A hook as the caller may give it: a callable or a source path string. */
  datatype HookSpec = Callable(qualifiedName: string) | SourcePath(path: string)

  /** Python truthiness of a hook specification: only the empty string is falsy. */
  predicate HookGiven(h: Option<HookSpec>) {
    h.Some? && h.value != SourcePath("")
  }

  datatype Configuration = Configuration(
    name: string,
    enableCache: Option<bool>,
    enableArtifactMetadata: Option<bool>,
    enableArtifactVisualization: Option<bool>,
    settings: map<string, Value>,
    extra: map<string, Value>,
    failureHookSource: Option<string>,
    successHookSource: Option<string>)

  /** The keyword arguments of `configure`; `None` means "not passed". */
  datatype ConfigureArgs = ConfigureArgs(
    enableCache: Option<bool>,
    enableArtifactMetadata: Option<bool>,
    enableArtifactVisualization: Option<bool>,
    settings: Option<map<string, Value>>,
    extra: Option<map<string, Value>>,
    onFailure: Option<HookSpec>,
    onSuccess: Option<HookSpec>)

  /** `configure()` with every option left at `None`. */
  const NoArgs := ConfigureArgs(None, None, None, None, None, None, None)

  datatype ConfigError =
    | InvalidHook(spec: HookSpec)
    | UnknownSettingKeys(keys: set<string>)

  /** A fresh configuration carrying only the pipeline name. */
  function InitialConfiguration(name: string): Configuration {
    Configuration(name, None, None, None, map[], map[], None, None)
  }

  /** Dictionary update in merge mode (the update wins on common keys) or
      replace mode (the update is the whole new dictionary). */
  function UpdateMap(current: map<string, Value>, update: Option<map<string, Value>>, merge: bool): (r: map<string, Value>)
    ensures update.None? ==> r == current
    ensures update.Some? && !merge ==> r == update.value
    ensures update.Some? && merge ==> r.Keys == current.Keys + update.value.Keys
    ensures update.Some? && merge ==> forall k :: k in update.value ==> r[k] == update.value[k]
    ensures update.Some? && merge ==> forall k :: k in current && k !in update.value ==> r[k] == current[k]
  {
    match update
    case None => current
    case Some(u) => if merge then current + u else u
  }

  /** Resolves a given hook (`resolve_and_validate_hook`, supplied as
      `resolveHook`); an absent or falsy hook gives `None`. */
  function ResolveHook(h: Option<HookSpec>, resolveHook: HookSpec -> Option<string>): (r: Result<Option<string>, ConfigError>)
    ensures !HookGiven(h) ==> r == Success(None)
    ensures HookGiven(h) && resolveHook(h.value).None? ==> r == Failure(InvalidHook(h.value))
    ensures HookGiven(h) && resolveHook(h.value).Some? ==> r == Success(resolveHook(h.value))
  {
    if !HookGiven(h) then Success(None)
    else match resolveHook(h.value)
      case None => Failure(InvalidHook(h.value))
      case Some(src) => Success(Some(src))
  }

  /** The setting keys the validator (`validate_setting_keys`, supplied as
      `validKey`) refuses. */
  function UnknownKeys(settings: Option<map<string, Value>>, validKey: string -> bool): (r: set<string>)
    ensures settings.None? ==> r == {}
    ensures settings.Some? ==> forall k :: k in r <==> k in settings.value && !validKey(k)
  {
    if settings.None? then {} else set k | k in settings.value && !validKey(k)
  }

  /** The hook is absent or its source resolves. */
  predicate HookResolves(h: Option<HookSpec>, resolveHook: HookSpec -> Option<string>) {
    !HookGiven(h) || resolveHook(h.value).Some?
  }

  /** `Pipeline.configure`: hooks are resolved first, then the update with
      `None` values removed is validated (setting keys) and applied. */
  function Configure(c: Configuration, args: ConfigureArgs, merge: bool,
                     resolveHook: HookSpec -> Option<string>, validKey: string -> bool): (r: Result<Configuration, ConfigError>)
    ensures r.Success? ==> r.value.name == c.name
    ensures r.Success? ==> r.value.enableCache == (if args.enableCache.Some? then args.enableCache else c.enableCache)
    ensures r.Success? ==> r.value.enableArtifactMetadata == (if args.enableArtifactMetadata.Some? then args.enableArtifactMetadata else c.enableArtifactMetadata)
    ensures r.Success? ==> r.value.enableArtifactVisualization == (if args.enableArtifactVisualization.Some? then args.enableArtifactVisualization else c.enableArtifactVisualization)
    ensures r.Success? ==> r.value.extra == UpdateMap(c.extra, args.extra, merge)
    ensures r.Success? ==> r.value.settings == UpdateMap(c.settings, args.settings, merge)
    ensures r.Success? && !HookGiven(args.onFailure) ==> r.value.failureHookSource == c.failureHookSource
    ensures r.Success? && !HookGiven(args.onSuccess) ==> r.value.successHookSource == c.successHookSource
    ensures r.Success? && HookGiven(args.onFailure) ==> r.value.failureHookSource == resolveHook(args.onFailure.value)
    ensures r.Success? && HookGiven(args.onSuccess) ==> r.value.successHookSource == resolveHook(args.onSuccess.value)
    ensures r.Success? <==>
              HookResolves(args.onFailure, resolveHook) && HookResolves(args.onSuccess, resolveHook) && UnknownKeys(args.settings, validKey) == {}
    ensures !HookResolves(args.onFailure, resolveHook) ==> r == Failure(InvalidHook(args.onFailure.value))
    ensures HookResolves(args.onFailure, resolveHook) && !HookResolves(args.onSuccess, resolveHook) ==>
              r == Failure(InvalidHook(args.onSuccess.value))
    ensures r.Failure? && r.error.UnknownSettingKeys? ==> r.error.keys != {} && r.error.keys == UnknownKeys(args.settings, validKey)
    ensures HookResolves(args.onFailure, resolveHook) && HookResolves(args.onSuccess, resolveHook) && UnknownKeys(args.settings, validKey) != {} ==>
              r == Failure(UnknownSettingKeys(UnknownKeys(args.settings, validKey)))
    ensures args.settings.Some? && (exists k :: k in args.settings.value && !validKey(k)) ==> r.Failure?
  {
    var failure :- ResolveHook(args.onFailure, resolveHook);
    var success :- ResolveHook(args.onSuccess, resolveHook);
    var bad := UnknownKeys(args.settings, validKey);
    if bad != {} then Failure(UnknownSettingKeys(bad))
    else
      Success(Configuration(
        c.name,
        if args.enableCache.Some? then args.enableCache else c.enableCache,
        if args.enableArtifactMetadata.Some? then args.enableArtifactMetadata else c.enableArtifactMetadata,
        if args.enableArtifactVisualization.Some? then args.enableArtifactVisualization else c.enableArtifactVisualization,
        UpdateMap(c.settings, args.settings, merge),
        UpdateMap(c.extra, args.extra, merge),
        if failure.Some? then failure else c.failureHookSource,
        if success.Some? then success else c.successHookSource))
  }

  /** Options left at `None` change nothing, in either mode. */
  lemma ConfigureWithNothingIsIdentity(c: Configuration, merge: bool,
                                       resolveHook: HookSpec -> Option<string>, validKey: string -> bool)
    ensures Configure(c, NoArgs, merge, resolveHook, validKey) == Success(c)
  {
  }

  /** Passing only `extra` changes nothing but `extra`. */
  lemma ConfigureExtraOnly(c: Configuration, extra: map<string, Value>, merge: bool,
                           resolveHook: HookSpec -> Option<string>, validKey: string -> bool)
    ensures Configure(c, NoArgs.(extra := Some(extra)), merge, resolveHook, validKey)
            == Success(c.(extra := UpdateMap(c.extra, Some(extra), merge)))
  {
  }

  /** The documented example: `extra={"key1": 1}` then `extra={"key2": 2}`
      gives both keys with `merge=True` and only `key2` with `merge=False`. */
  lemma DocumentedExtraExample(c: Configuration, resolveHook: HookSpec -> Option<string>, validKey: string -> bool)
    ensures var first := ConfigureArgs(None, None, None, None, Some(map["key1" := "1"]), None, None);
            var second := ConfigureArgs(None, None, None, None, Some(map["key2" := "2"]), None, None);
            var c1 := Configure(c, first, true, resolveHook, validKey);
            && c1.Success?
            && Configure(c1.value, second, true, resolveHook, validKey).Success?
            && Configure(c1.value, second, true, resolveHook, validKey).value.extra == c.extra + map["key1" := "1", "key2" := "2"]
            && Configure(c1.value, second, false, resolveHook, validKey).Success?
            && Configure(c1.value, second, false, resolveHook, validKey).value.extra == map["key2" := "2"]
  {
    var first := ConfigureArgs(None, None, None, None, Some(map["key1" := "1"]), None, None);
    var second := ConfigureArgs(None, None, None, None, Some(map["key2" := "2"]), None, None);
    assert first == NoArgs.(extra := Some(map["key1" := "1"]));
    assert second == NoArgs.(extra := Some(map["key2" := "2"]));
    ConfigureExtraOnly(c, map["key1" := "1"], true, resolveHook, validKey);
    var c1 := c.(extra := c.extra + map["key1" := "1"]);
    ConfigureExtraOnly(c1, map["key2" := "2"], true, resolveHook, validKey);
    ConfigureExtraOnly(c1, map["key2" := "2"], false, resolveHook, validKey);
    TwoUpdatesMerge(c.extra);
  }

  lemma TwoUpdatesMerge(extra: map<string, Value>)
    ensures (extra + map["key1" := "1"]) + map["key2" := "2"] == extra + map["key1" := "1", "key2" := "2"]
  {
  }
}
