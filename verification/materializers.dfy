/** Materializer class validation and registration (`BaseMaterializerMeta.__new__`)
    and the type guard of materializer instances (`_can_handle_type`,
    `load`, `save`) in src/zenml/materializers/base_materializer.py.

    The default materializer registry is modelled as the log of
    `register_materializer_type` calls made so far; Python's subclass
    relation and the set of `ArtifactType` values are parameters. */
module Materializers {
  import opened Wrappers

  /** The class name that skips validation and registration. */
  const BASE_MATERIALIZER_NAME: string := "BaseMaterializer"

  /** An entry of `ASSOCIATED_TYPES`: a class, named, or any other object. */
  datatype PyObject = ClassObject(name: string) | NonClassObject(repr: string)

  /** A materializer class: its name, `ASSOCIATED_TYPES`, and
      `ASSOCIATED_ARTIFACT_TYPE` as a string value ("" is falsy). */
  datatype MaterializerClass = MaterializerClass(name: string, associatedTypes: seq<PyObject>, artifactType: string)

  /** One `register_materializer_type(associated_type, cls)` call. */
  datatype Registration = Registration(typeName: string, materializer: string)

  /** The reasons `MaterializerInterfaceError` is raised. */
  datatype InterfaceError =
    | NoAssociatedTypes(className: string)
    | InvalidArtifactType(className: string, value: string)
    | NotAClass(className: string, obj: PyObject)

  predicate AllClasses(types: seq<PyObject>) {
    forall i :: 0 <= i < |types| ==> types[i].ClassObject?
  }

  /** The first entry that is not a class, if any (the validation loop). */
  function FirstNonClass(types: seq<PyObject>): (r: Option<PyObject>)
    ensures r.None? <==> AllClasses(types)
    ensures r.Some? ==> exists i :: 0 <= i < |types| && types[i] == r.value && r.value.NonClassObject?
                                    && forall j :: 0 <= j < i ==> types[j].ClassObject?
  {
    if |types| == 0 then None
    else if types[0].NonClassObject? then Some(types[0])
    else match FirstNonClass(types[1..])
      case None => None
      case Some(o) =>
        var i :| 0 <= i < |types[1..]| && types[1..][i] == o && o.NonClassObject?
                 && forall j :: 0 <= j < i ==> types[1..][j].ClassObject?;
        assert types[1 + i] == o;
        assert forall j :: 1 <= j < 1 + i ==> types[j] == types[1..][j - 1];
        Some(o)
  }

  /** The registration loop: one call per associated type, in order. */
  function Registrations(types: seq<PyObject>, className: string): (r: seq<Registration>)
    requires AllClasses(types)
    ensures |r| == |types|
    ensures forall i :: 0 <= i < |r| ==> r[i] == Registration(types[i].name, className)
  {
    if |types| == 0 then []
    else [Registration(types[0].name, className)] + Registrations(types[1..], className)
  }

  /** `BaseMaterializerMeta.__new__`: returns the class and the registry log
      after it, or the `MaterializerInterfaceError` raised (the registry is
      then left as it was). */
  function CreateMaterializerClass(cls: MaterializerClass, registry: seq<Registration>, isArtifactType: string -> bool):
    (r: Result<seq<Registration>, InterfaceError>)
    ensures cls.name == BASE_MATERIALIZER_NAME ==> r == Success(registry)
    ensures cls.name != BASE_MATERIALIZER_NAME && |cls.associatedTypes| == 0 ==> r == Failure(NoAssociatedTypes(cls.name))
    ensures cls.name != BASE_MATERIALIZER_NAME && |cls.associatedTypes| > 0 && cls.artifactType != "" && !isArtifactType(cls.artifactType) ==>
              r == Failure(InvalidArtifactType(cls.name, cls.artifactType))
    ensures cls.name != BASE_MATERIALIZER_NAME && !AllClasses(cls.associatedTypes) ==> r.Failure?
    ensures (cls.name != BASE_MATERIALIZER_NAME && (cls.artifactType == "" || isArtifactType(cls.artifactType))
             && !AllClasses(cls.associatedTypes)) ==> r.Failure? && r.error.NotAClass?
    ensures r.Failure? && r.error.NotAClass? ==> r.error.obj in cls.associatedTypes && r.error.obj.NonClassObject?
    ensures r.Success? && cls.name != BASE_MATERIALIZER_NAME ==>
              && |cls.associatedTypes| > 0 && AllClasses(cls.associatedTypes)
              && (cls.artifactType == "" || isArtifactType(cls.artifactType))
              && |r.value| == |registry| + |cls.associatedTypes|
              && r.value[..|registry|] == registry
              && forall i :: |registry| <= i < |r.value| ==>
                   r.value[i] == Registration(cls.associatedTypes[i - |registry|].name, cls.name)
  {
    if cls.name == BASE_MATERIALIZER_NAME then Success(registry)
    else if |cls.associatedTypes| == 0 then Failure(NoAssociatedTypes(cls.name))
    else if cls.artifactType != "" && !isArtifactType(cls.artifactType) then
      Failure(InvalidArtifactType(cls.name, cls.artifactType))
    else match FirstNonClass(cls.associatedTypes)
      case Some(o) => Failure(NotAClass(cls.name, o))
      case None => Success(registry + Registrations(cls.associatedTypes, cls.name))
  }

  /** A materializer instance. */
  datatype Materializer = Materializer(cls: MaterializerClass, uri: string)

  /** The `TypeError`s of the instance methods: the type is not handled,
      or `issubclass` was given an associated type that is not a class. */
  datatype MaterializerTypeError =
    | CannotHandle(dataType: string)
    | IssubclassArgument(obj: PyObject)

  /** `any(issubclass(data_type, t) for t in ASSOCIATED_TYPES)`, short-circuiting
      at the first match; `issubclass` raises on a non-class entry it reaches. */
  function AnySubclass(dataType: string, types: seq<PyObject>, isSubclass: (string, string) -> bool):
    (r: Result<bool, MaterializerTypeError>)
    ensures AllClasses(types) ==> r.Success?
    ensures r.Success? ==> (r.value <==> exists i :: 0 <= i < |types| && types[i].ClassObject? && isSubclass(dataType, types[i].name))
  {
    if |types| == 0 then Success(false)
    else match types[0]
      case NonClassObject(_) => Failure(IssubclassArgument(types[0]))
      case ClassObject(t) =>
        if isSubclass(dataType, t) then Success(true)
        else
          var rest := AnySubclass(dataType, types[1..], isSubclass);
          if rest.Success? && rest.value then
            var i :| 0 <= i < |types[1..]| && types[1..][i].ClassObject? && isSubclass(dataType, types[1..][i].name);
            assert types[i + 1] == types[1..][i];
            rest
          else
            assert AllClasses(types) ==> AllClasses(types[1..]) by {
              if AllClasses(types) {
                forall j | 0 <= j < |types[1..]| ensures types[1..][j].ClassObject? {
                  assert types[1..][j] == types[j + 1];
                }
              }
            }
            rest
  }

  /** `_can_handle_type`. */
  function CanHandleType(m: Materializer, dataType: string, isSubclass: (string, string) -> bool): (r: Result<bool, MaterializerTypeError>)
    ensures AllClasses(m.cls.associatedTypes) ==>
              r == Success(exists i :: 0 <= i < |m.cls.associatedTypes| && isSubclass(dataType, m.cls.associatedTypes[i].name))
  {
    AnySubclass(dataType, m.cls.associatedTypes, isSubclass)
  }

  /** The guard of `load`: `TypeError` unless the type is handled; the base
      implementation then returns `None`. */
  function Load(m: Materializer, dataType: string, isSubclass: (string, string) -> bool): (r: Result<Option<string>, MaterializerTypeError>)
    ensures r.Success? <==> CanHandleType(m, dataType, isSubclass) == Success(true)
    ensures r.Success? ==> r.value.None?
    ensures CanHandleType(m, dataType, isSubclass) == Success(false) ==> r == Failure(CannotHandle(dataType))
  {
    var handled :- CanHandleType(m, dataType, isSubclass);
    if !handled then Failure(CannotHandle(dataType)) else Success(None)
  }

  /** The guard of `save`, applied to `type(data)`. */
  function Save(m: Materializer, dataType: string, isSubclass: (string, string) -> bool): (r: Result<(), MaterializerTypeError>)
    ensures r.Success? <==> CanHandleType(m, dataType, isSubclass) == Success(true)
    ensures CanHandleType(m, dataType, isSubclass) == Success(false) ==> r == Failure(CannotHandle(dataType))
  {
    var handled :- CanHandleType(m, dataType, isSubclass);
    if !handled then Failure(CannotHandle(dataType)) else Success(())
  }

  /** Every registration a successful creation adds names the new class,
      and an instance of that class loads and saves any subclass of the
      registered type (the type itself included, `issubclass` being
      reflexive in Python). */
  lemma CreatedClassHandlesRegisteredTypes(cls: MaterializerClass, registry: seq<Registration>,
                                           isArtifactType: string -> bool, isSubclass: (string, string) -> bool,
                                           uri: string, k: nat, sub: string)
    requires cls.name != BASE_MATERIALIZER_NAME
    requires CreateMaterializerClass(cls, registry, isArtifactType).Success?
    requires |registry| <= k < |CreateMaterializerClass(cls, registry, isArtifactType).value|
    requires isSubclass(sub, CreateMaterializerClass(cls, registry, isArtifactType).value[k].typeName)
    ensures CreateMaterializerClass(cls, registry, isArtifactType).value[k].materializer == cls.name
    ensures Load(Materializer(cls, uri), sub, isSubclass) == Success(None)
    ensures Save(Materializer(cls, uri), sub, isSubclass) == Success(())
  {
    var i := k - |registry|;
    assert cls.associatedTypes[i].name == CreateMaterializerClass(cls, registry, isArtifactType).value[k].typeName;
  }
}
