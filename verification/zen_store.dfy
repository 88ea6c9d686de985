/** The default-resource bootstrap and the active-configuration fallback of
    `BaseZenStore` (src/zenml/zen_stores/base_zen_store.py).

    The store is an explicit record of projects, users, stack components
    and stacks, each list in creation order; `get_project`, `get_user`,
    `get_stack` and `list_stacks` are first-match lookups over it, and every
    `create_*` call appends a record with the next fresh id. Environment
    variables that override the default names are an explicit `Env`. */
module ZenStore {
  import opened Wrappers

  type Id = nat

  const DEFAULT_USERNAME: string := "default"
  const DEFAULT_PROJECT_NAME: string := "default"
  const DEFAULT_STACK_NAME: string := "default"

  /** The name and flavor of the components of a default stack. */
  const DEFAULT_COMPONENT_NAME: string := "default"
  const LOCAL_FLAVOR: string := "local"

  /** The `name_or_id` argument of the store's lookups. */
  datatype NameOrId = ByName(name: string) | ById(id: Id)

  /** Python truthiness of an optional name-or-id: `None` and `""` are falsy. */
  predicate Given(r: Option<NameOrId>) {
    r.Some? && r.value != ByName("")
  }

  predicate Refers(r: NameOrId, id: Id, name: string) {
    match r
    case ByName(n) => name == n
    case ById(i) => id == i
  }

  datatype Project = Project(id: Id, name: string)
  datatype User = User(id: Id, name: string)

  datatype ComponentType = Orchestrator | ArtifactStore | OtherComponentType(name: string)

  datatype Component = Component(id: Id, user: Id, project: Id, name: string,
                                 componentType: ComponentType, flavor: string)

  datatype Stack = Stack(id: Id, name: string, components: map<ComponentType, seq<Id>>,
                         isShared: bool, project: Id, user: Id)

  /** `ZENML_DEFAULT_PROJECT_NAME` and `ZENML_DEFAULT_USER_NAME`, when set. */
  datatype Env = Env(defaultProjectName: Option<string>, defaultUserName: Option<string>)

  datatype Store = Store(
    projects: seq<Project>,
    users: seq<User>,
    components: seq<Component>,
    stacks: seq<Stack>,
    nextId: Id,
    activeUserName: string,
    env: Env)

  /** The store's refusals: a missing record (`KeyError`), a stack or a
      stack component whose name the user already uses in the project
      (`StackExistsError`, `StackComponentExistsError`). */
  datatype StoreError =
    | KeyError(missing: string)
    | StackExists(name: string, project: Id, user: Id)
    | ComponentExists(name: string, componentType: ComponentType, project: Id, user: Id)

  /** The result of a store operation and the store afterwards: an operation
      that raises part-way keeps the records it created before raising. */
  datatype Outcome<T> = Outcome(result: Result<T, StoreError>, store: Store)

  /** Every stored id was handed out before `nextId`, so the next id is
      unused. */
  predicate FreshIds(s: Store) {
    && (forall i :: 0 <= i < |s.projects| ==> s.projects[i].id < s.nextId)
    && (forall i :: 0 <= i < |s.users| ==> s.users[i].id < s.nextId)
    && (forall i :: 0 <= i < |s.components| ==> s.components[i].id < s.nextId)
    && (forall i :: 0 <= i < |s.stacks| ==> s.stacks[i].id < s.nextId)
  }

  /** The index of the first element satisfying `matches`, if any. */
  function FindFirst<T>(xs: seq<T>, matches: T -> bool): (r: Option<nat>)
    ensures r.None? <==> forall i :: 0 <= i < |xs| ==> !matches(xs[i])
    ensures r.Some? ==> r.value < |xs| && matches(xs[r.value])
    ensures r.Some? ==> forall j :: 0 <= j < r.value ==> !matches(xs[j])
  {
    if |xs| == 0 then None
    else if matches(xs[0]) then Some(0)
    else match FindFirst(xs[1..], matches)
      case None => None
      case Some(k) => Some(k + 1)
  }

  // ---------------------------------------------------------------------
  // Lookups
  // ---------------------------------------------------------------------

  function GetProject(s: Store, ref: NameOrId): (r: Result<Project, StoreError>)
    ensures r.Success? ==> r.value in s.projects && Refers(ref, r.value.id, r.value.name)
    ensures r.Failure? <==> forall i :: 0 <= i < |s.projects| ==> !Refers(ref, s.projects[i].id, s.projects[i].name)
  {
    match FindFirst(s.projects, (p: Project) => Refers(ref, p.id, p.name))
    case None => Failure(KeyError("project"))
    case Some(i) => Success(s.projects[i])
  }

  function GetUser(s: Store, ref: NameOrId): (r: Result<User, StoreError>)
    ensures r.Success? ==> r.value in s.users && Refers(ref, r.value.id, r.value.name)
    ensures r.Failure? <==> forall i :: 0 <= i < |s.users| ==> !Refers(ref, s.users[i].id, s.users[i].name)
  {
    match FindFirst(s.users, (u: User) => Refers(ref, u.id, u.name))
    case None => Failure(KeyError("user"))
    case Some(i) => Success(s.users[i])
  }

  function GetStack(s: Store, id: Id): (r: Result<Stack, StoreError>)
    ensures r.Success? ==> r.value in s.stacks && r.value.id == id
    ensures r.Failure? <==> forall i :: 0 <= i < |s.stacks| ==> s.stacks[i].id != id
  {
    match FindFirst(s.stacks, (st: Stack) => st.id == id)
    case None => Failure(KeyError("stack"))
    case Some(i) => Success(s.stacks[i])
  }

  function DefaultProjectName(env: Env): string {
    env.defaultProjectName.GetOr(DEFAULT_PROJECT_NAME)
  }

  function DefaultUserName(env: Env): string {
    env.defaultUserName.GetOr(DEFAULT_USERNAME)
  }

  /** `_default_project`: the project named by the environment, or "default". */
  function DefaultProject(s: Store): (r: Result<Project, StoreError>)
    ensures r.Success? ==> r.value in s.projects && r.value.name == DefaultProjectName(s.env)
    ensures r.Failure? <==> forall p :: p in s.projects ==> p.name != DefaultProjectName(s.env)
  {
    GetProject(s, ByName(DefaultProjectName(s.env)))
  }

  /** `_default_user`: the user named by the environment, or "default". */
  function DefaultUser(s: Store): (r: Result<User, StoreError>)
    ensures r.Success? ==> r.value in s.users && r.value.name == DefaultUserName(s.env)
    ensures r.Failure? <==> forall u :: u in s.users ==> u.name != DefaultUserName(s.env)
  {
    GetUser(s, ByName(DefaultUserName(s.env)))
  }

  /** `active_user`: the user named by the store's active user name. */
  function ActiveUser(s: Store): (r: Result<User, StoreError>)
    ensures r.Success? ==> r.value in s.users && r.value.name == s.activeUserName
    ensures r.Failure? <==> forall u :: u in s.users ==> u.name != s.activeUserName
  {
    GetUser(s, ByName(s.activeUserName))
  }

  // ---------------------------------------------------------------------
  // Default stack
  // ---------------------------------------------------------------------

  /** A stack of that name owned by the user in the project. */
  predicate OwnedNamed(st: Stack, name: string, project: Id, user: Id) {
    st.project == project && st.user == user && st.name == name
  }

  /** The `list_stacks` filter of `_get_default_stack`. */
  predicate IsDefaultFor(st: Stack, project: Id, user: Id) {
    OwnedNamed(st, DEFAULT_STACK_NAME, project, user)
  }

  /** `_get_default_stack`: the first stack named "default" in the project
      owned by the user; `KeyError` when there is none. */
  function GetDefaultStack(s: Store, project: Id, user: Id): (r: Result<Stack, StoreError>)
    ensures r.Failure? <==> forall i :: 0 <= i < |s.stacks| ==> !IsDefaultFor(s.stacks[i], project, user)
    ensures r.Failure? ==> r.error.KeyError?
    ensures r.Success? ==> exists k :: 0 <= k < |s.stacks| && s.stacks[k] == r.value && IsDefaultFor(r.value, project, user)
                                      && forall j :: 0 <= j < k ==> !IsDefaultFor(s.stacks[j], project, user)
  {
    match FindFirst(s.stacks, (st: Stack) => IsDefaultFor(st, project, user))
    case None => Failure(KeyError("default stack"))
    case Some(i) => Success(s.stacks[i])
  }

  /** The user already owns a component of this name and type in the
      project. */
  predicate ComponentTaken(s: Store, project: Id, user: Id, name: string, t: ComponentType) {
    exists i :: 0 <= i < |s.components| && s.components[i].project == project && s.components[i].user == user
                && s.components[i].name == name && s.components[i].componentType == t
  }

  /** The user already owns a stack of this name in the project. */
  predicate StackTaken(s: Store, name: string, project: Id, user: Id) {
    exists i :: 0 <= i < |s.stacks| && OwnedNamed(s.stacks[i], name, project, user)
  }

  /** `create_stack_component`: refused with `StackComponentExistsError`
      when the user already owns a component of that name and type in the
      project; otherwise appended under the next id. */
  function CreateStackComponent(s: Store, project: Id, user: Id, name: string, t: ComponentType, flavor: string):
    (r: Result<(Component, Store), StoreError>)
    ensures r.Failure? <==> ComponentTaken(s, project, user, name, t)
    ensures r.Failure? ==> r.error == ComponentExists(name, t, project, user)
    ensures r.Success? ==> r.value.0 == Component(s.nextId, user, project, name, t, flavor)
                           && r.value.1 == s.(components := s.components + [r.value.0], nextId := s.nextId + 1)
    ensures r.Success? ==> ComponentTaken(r.value.1, project, user, name, t)
    ensures r.Success? && FreshIds(s) ==>
              FreshIds(r.value.1) && forall i :: 0 <= i < |s.components| ==> s.components[i].id != r.value.0.id
  {
    if ComponentTaken(s, project, user, name, t) then Failure(ComponentExists(name, t, project, user))
    else
      var c := Component(s.nextId, user, project, name, t, flavor);
      var s' := s.(components := s.components + [c], nextId := s.nextId + 1);
      assert s'.components[|s.components|] == c;
      Success((c, s'))
  }

  /** `create_stack`: refused with `StackExistsError` when the user already
      owns a stack of that name in the project; otherwise appended under
      the next id. */
  function CreateStack(s: Store, name: string, components: map<ComponentType, seq<Id>>, isShared: bool, project: Id, user: Id):
    (r: Result<(Stack, Store), StoreError>)
    ensures r.Failure? <==> StackTaken(s, name, project, user)
    ensures r.Failure? ==> r.error == StackExists(name, project, user)
    ensures r.Success? ==> r.value.0 == Stack(s.nextId, name, components, isShared, project, user)
                           && r.value.1 == s.(stacks := s.stacks + [r.value.0], nextId := s.nextId + 1)
    ensures r.Success? ==> StackTaken(r.value.1, name, project, user)
    ensures r.Success? && FreshIds(s) ==>
              FreshIds(r.value.1) && forall i :: 0 <= i < |s.stacks| ==> s.stacks[i].id != r.value.0.id
  {
    if StackTaken(s, name, project, user) then Failure(StackExists(name, project, user))
    else
      var st := Stack(s.nextId, name, components, isShared, project, user);
      var s' := s.(stacks := s.stacks + [st], nextId := s.nextId + 1);
      assert s'.stacks[|s.stacks|] == st;
      Success((st, s'))
  }

  /** A component that makes `_create_default_stack` raise: the user already
      owns an orchestrator or an artifact store named "default" in the
      project. */
  predicate DefaultComponentTaken(s: Store, project: Id, user: Id) {
    || ComponentTaken(s, project, user, DEFAULT_COMPONENT_NAME, Orchestrator)
    || ComponentTaken(s, project, user, DEFAULT_COMPONENT_NAME, ArtifactStore)
  }

  /** The project and the user both exist. */
  predicate Resolvable(s: Store, project: Id, user: Id) {
    GetProject(s, ById(project)).Success? && GetUser(s, ById(user)).Success?
  }

  /** Adding the orchestrator leaves the artifact-store and stack checks as
      they were. */
  lemma AddedOrchestratorKeepsChecks(s: Store, s1: Store, c: Component, project: Id, user: Id)
    requires c.componentType == Orchestrator
    requires s1 == s.(components := s.components + [c], nextId := s1.nextId)
    ensures ComponentTaken(s1, project, user, DEFAULT_COMPONENT_NAME, ArtifactStore)
            <==> ComponentTaken(s, project, user, DEFAULT_COMPONENT_NAME, ArtifactStore)
    ensures StackTaken(s1, DEFAULT_STACK_NAME, project, user) <==> StackTaken(s, DEFAULT_STACK_NAME, project, user)
  {
    if ComponentTaken(s1, project, user, DEFAULT_COMPONENT_NAME, ArtifactStore) {
      var i :| 0 <= i < |s1.components| && s1.components[i].project == project && s1.components[i].user == user
               && s1.components[i].name == DEFAULT_COMPONENT_NAME && s1.components[i].componentType == ArtifactStore;
      assert i < |s.components| && s.components[i] == s1.components[i];
    }
    if ComponentTaken(s, project, user, DEFAULT_COMPONENT_NAME, ArtifactStore) {
      var i :| 0 <= i < |s.components| && s.components[i].project == project && s.components[i].user == user
               && s.components[i].name == DEFAULT_COMPONENT_NAME && s.components[i].componentType == ArtifactStore;
      assert s1.components[i] == s.components[i];
    }
  }

  /** A default stack exists exactly when the name "default" is taken. */
  lemma DefaultStackIffTaken(s: Store, project: Id, user: Id)
    ensures GetDefaultStack(s, project, user).Success? <==> StackTaken(s, DEFAULT_STACK_NAME, project, user)
  {
    if StackTaken(s, DEFAULT_STACK_NAME, project, user) {
      var i :| 0 <= i < |s.stacks| && OwnedNamed(s.stacks[i], DEFAULT_STACK_NAME, project, user);
      assert IsDefaultFor(s.stacks[i], project, user);
    }
  }

  /** The two components `_create_default_stack` creates, in order, from
      the id `id` on: a local orchestrator and a local artifact store, both
      named "default". */
  function DefaultComponents(id: Id, project: Id, user: Id): seq<Component> {
    [ Component(id, user, project, DEFAULT_COMPONENT_NAME, Orchestrator, LOCAL_FLAVOR),
      Component(id + 1, user, project, DEFAULT_COMPONENT_NAME, ArtifactStore, LOCAL_FLAVOR) ]
  }

  /** `s` with the first `k` of the default components appended. */
  function WithDefaults(s: Store, project: Id, user: Id, k: nat): Store
    requires k <= 2
  {
    s.(components := s.components + DefaultComponents(s.nextId, project, user)[..k], nextId := s.nextId + k)
  }

  /** How many default components `_create_default_stack` creates before a
      refusal stops it (2 when neither is refused). */
  function DefaultsCreated(s: Store, project: Id, user: Id): (k: nat)
    ensures k <= 2
  {
    if ComponentTaken(s, project, user, DEFAULT_COMPONENT_NAME, Orchestrator) then 0
    else if ComponentTaken(s, project, user, DEFAULT_COMPONENT_NAME, ArtifactStore) then 1
    else 2
  }

  /** The error of the first refused creation. */
  function DefaultStackRefusal(s: Store, project: Id, user: Id): StoreError {
    if ComponentTaken(s, project, user, DEFAULT_COMPONENT_NAME, Orchestrator) then
      ComponentExists(DEFAULT_COMPONENT_NAME, Orchestrator, project, user)
    else if ComponentTaken(s, project, user, DEFAULT_COMPONENT_NAME, ArtifactStore) then
      ComponentExists(DEFAULT_COMPONENT_NAME, ArtifactStore, project, user)
    else StackExists(DEFAULT_STACK_NAME, project, user)
  }

  /** The second half of `_create_default_stack`, once the orchestrator
      `orchestrator` exists in `s`: the local artifact store, then the
      unshared stack holding the two. */
  function AddArtifactStoreAndStack(s: Store, orchestrator: Id, project: Id, user: Id): (r: Outcome<Stack>)
    ensures r.result.Success? <==>
              !ComponentTaken(s, project, user, DEFAULT_COMPONENT_NAME, ArtifactStore) && !StackTaken(s, DEFAULT_STACK_NAME, project, user)
    ensures ComponentTaken(s, project, user, DEFAULT_COMPONENT_NAME, ArtifactStore) ==>
              r == Outcome(Failure(ComponentExists(DEFAULT_COMPONENT_NAME, ArtifactStore, project, user)), s)
    ensures !ComponentTaken(s, project, user, DEFAULT_COMPONENT_NAME, ArtifactStore) ==>
              var s2 := s.(components := s.components + [Component(s.nextId, user, project, DEFAULT_COMPONENT_NAME, ArtifactStore, LOCAL_FLAVOR)],
                           nextId := s.nextId + 1);
              var stack := Stack(s.nextId + 1, DEFAULT_STACK_NAME, map[Orchestrator := [orchestrator], ArtifactStore := [s.nextId]],
                                 false, project, user);
              r == if r.result.Failure? then Outcome(Failure(StackExists(DEFAULT_STACK_NAME, project, user)), s2)
                   else Outcome(Success(stack), s2.(stacks := s.stacks + [stack], nextId := s.nextId + 2))
    ensures FreshIds(s) ==> FreshIds(r.store)
  {
    match CreateStackComponent(s, project, user, DEFAULT_COMPONENT_NAME, ArtifactStore, LOCAL_FLAVOR)
    case Failure(e) => Outcome(Failure(e), s)
    case Success(second) =>
      var (artifactStore, s2) := second;
      assert StackTaken(s2, DEFAULT_STACK_NAME, project, user) == StackTaken(s, DEFAULT_STACK_NAME, project, user);
      var components := map[Orchestrator := [orchestrator], ArtifactStore := [artifactStore.id]];
      match CreateStack(s2, DEFAULT_STACK_NAME, components, false, project, user)
      case Failure(e) => Outcome(Failure(e), s2)
      case Success(third) => Outcome(Success(third.0), third.1)
  }

  /** The creating part of `_create_default_stack`: the local orchestrator,
      the local artifact store, then the unshared stack holding them. A
      refusal keeps the components already created. */
  function AddDefaultStack(s: Store, project: Id, user: Id): (r: Outcome<Stack>)
    ensures r.result.Success? <==> !DefaultComponentTaken(s, project, user) && !StackTaken(s, DEFAULT_STACK_NAME, project, user)
    ensures r.result.Failure? ==>
              r == Outcome(Failure(DefaultStackRefusal(s, project, user)), WithDefaults(s, project, user, DefaultsCreated(s, project, user)))
    ensures r.result.Success? ==>
              && r.result.value == Stack(s.nextId + 2, DEFAULT_STACK_NAME, map[Orchestrator := [s.nextId], ArtifactStore := [s.nextId + 1]],
                                         false, project, user)
              && r.store == WithDefaults(s, project, user, 2).(stacks := s.stacks + [r.result.value], nextId := s.nextId + 3)
    ensures FreshIds(s) ==> FreshIds(r.store)
  {
    var defaults := DefaultComponents(s.nextId, project, user);
    match CreateStackComponent(s, project, user, DEFAULT_COMPONENT_NAME, Orchestrator, LOCAL_FLAVOR)
    case Failure(e) => Outcome(Failure(e), s)
    case Success(first) =>
      var (orchestrator, s1) := first;
      assert [orchestrator] == defaults[..1];
      assert s1.components + [defaults[1]] == s.components + defaults;
      AddedOrchestratorKeepsChecks(s, s1, orchestrator, project, user);
      AddArtifactStoreAndStack(s1, orchestrator.id, project, user)
  }

  /** `_create_default_stack`: the project and the user are looked up by id,
      an existing default stack is refused with `StackExistsError`, and
      otherwise the components and the stack are created. */
  function CreateDefaultStack(s: Store, project: Id, user: Id): (r: Outcome<Stack>)
    ensures GetProject(s, ById(project)).Failure? ==> r == Outcome(Failure(KeyError("project")), s)
    ensures GetProject(s, ById(project)).Success? && GetUser(s, ById(user)).Failure? ==> r == Outcome(Failure(KeyError("user")), s)
    ensures Resolvable(s, project, user) && GetDefaultStack(s, project, user).Success? ==>
              r == Outcome(Failure(StackExists(DEFAULT_STACK_NAME, project, user)), s)
    ensures Resolvable(s, project, user) && GetDefaultStack(s, project, user).Failure? ==> r == AddDefaultStack(s, project, user)
    ensures r.result.Success? <==>
              Resolvable(s, project, user) && GetDefaultStack(s, project, user).Failure? && !DefaultComponentTaken(s, project, user)
    ensures r.result.Failure? && Resolvable(s, project, user) && GetDefaultStack(s, project, user).Failure? ==>
              r.result.error.ComponentExists?
    ensures r.store.projects == s.projects && r.store.users == s.users && r.store.env == s.env
    ensures r.store.activeUserName == s.activeUserName
    ensures FreshIds(s) ==> FreshIds(r.store)
  {
    match GetProject(s, ById(project))
    case Failure(e) => Outcome(Failure(e), s)
    case Success(p) =>
      match GetUser(s, ById(user))
      case Failure(e) => Outcome(Failure(e), s)
      case Success(u) =>
        if GetDefaultStack(s, p.id, u.id).Success? then Outcome(Failure(StackExists(DEFAULT_STACK_NAME, project, user)), s)
        else
          DefaultStackIffTaken(s, project, user);
          AddDefaultStack(s, p.id, u.id)
  }

  /** A created default stack is what `_get_default_stack` finds afterwards. */
  lemma CreatedDefaultStackIsFound(s: Store, project: Id, user: Id)
    ensures var r := CreateDefaultStack(s, project, user);
            r.result.Success? ==> GetDefaultStack(r.store, project, user) == r.result
  {
    var r := CreateDefaultStack(s, project, user);
    if r.result.Success? {
      var stack := r.result.value;
      var found := GetDefaultStack(r.store, project, user);
      assert r.store.stacks[|s.stacks|] == stack;
      assert found.Success?;
      var k :| 0 <= k < |r.store.stacks| && r.store.stacks[k] == found.value && IsDefaultFor(found.value, project, user)
               && forall j :: 0 <= j < k ==> !IsDefaultFor(r.store.stacks[j], project, user);
    }
  }

  /** `_get_or_create_default_stack`: the active user's default stack in
      the project, created only when the lookup raises `KeyError`. */
  function GetOrCreateDefaultStack(s: Store, project: Project): (r: Outcome<Stack>)
    ensures ActiveUser(s).Failure? ==> r == Outcome(Failure(ActiveUser(s).error), s)
    ensures ActiveUser(s).Success? && GetDefaultStack(s, project.id, ActiveUser(s).value.id).Success? ==>
              r == Outcome(GetDefaultStack(s, project.id, ActiveUser(s).value.id), s)
    ensures ActiveUser(s).Success? && GetDefaultStack(s, project.id, ActiveUser(s).value.id).Failure? ==>
              r == CreateDefaultStack(s, project.id, ActiveUser(s).value.id)
    ensures r.result.Success? ==>
              ActiveUser(s).Success? && GetDefaultStack(r.store, project.id, ActiveUser(s).value.id) == r.result
    ensures ActiveUser(s).Success? && project in s.projects ==>
              (r.result.Success? <==> GetDefaultStack(s, project.id, ActiveUser(s).value.id).Success?
                                      || !DefaultComponentTaken(s, project.id, ActiveUser(s).value.id))
  {
    match ActiveUser(s)
    case Failure(e) => Outcome(Failure(e), s)
    case Success(user) =>
      match GetDefaultStack(s, project.id, user.id)
      case Success(stack) => Outcome(Success(stack), s)
      case Failure(_) =>
        CreatedDefaultStackIsFound(s, project.id, user.id);
        ProjectFoundById(s, project);
        CreateDefaultStack(s, project.id, user.id)
  }

  /** A stored project is found by its id. */
  lemma ProjectFoundById(s: Store, project: Project)
    ensures project in s.projects ==> GetProject(s, ById(project.id)).Success?
  {
    if project in s.projects {
      var i :| 0 <= i < |s.projects| && s.projects[i] == project;
      assert Refers(ById(project.id), s.projects[i].id, s.projects[i].name);
    }
  }

  /** A stored user is found by its id. */
  lemma UserFoundById(s: Store, user: User)
    ensures user in s.users ==> GetUser(s, ById(user.id)).Success?
  {
    if user in s.users {
      var i :| 0 <= i < |s.users| && s.users[i] == user;
      assert Refers(ById(user.id), s.users[i].id, s.users[i].name);
    }
  }

  // ---------------------------------------------------------------------
  // validate_active_config
  // ---------------------------------------------------------------------

  /** The active project `validate_active_config` settles on: the requested
      one when it is given and exists, the default project otherwise. */
  function ValidateActiveProject(s: Store, requested: Option<NameOrId>): (r: Result<Project, StoreError>)
    ensures Given(requested) && GetProject(s, requested.value).Success? ==> r == GetProject(s, requested.value)
    ensures !(Given(requested) && GetProject(s, requested.value).Success?) ==> r == DefaultProject(s)
  {
    if Given(requested) then
      match GetProject(s, requested.value)
      case Success(p) => Success(p)
      case Failure(_) => DefaultProject(s)
    else DefaultProject(s)
  }

  /** The conditions under which `validate_active_config` keeps the
      requested stack: it exists, belongs to the active project, and is
      shared or owned by the active user. */
  predicate KeepsStack(s: Store, project: Project, requested: Option<Id>) {
    && requested.Some?
    && GetStack(s, requested.value).Success?
    && GetStack(s, requested.value).value.project == project.id
    && (GetStack(s, requested.value).value.isShared
        || (ActiveUser(s).Success? && GetStack(s, requested.value).value.user == ActiveUser(s).value.id))
  }

  /** Pairs the outcome of a stack lookup with the settled project. */
  function WithProject(project: Project, o: Outcome<Stack>): (r: Outcome<(Project, Stack)>)
    ensures r.store == o.store && (r.result.Success? <==> o.result.Success?)
    ensures r.result.Success? ==> r.result.value == (project, o.result.value)
    ensures r.result.Failure? ==> r.result.error == o.result.error
  {
    match o.result
    case Success(stack) => Outcome(Success((project, stack)), o.store)
    case Failure(e) => Outcome(Failure(e), o.store)
  }

  /** `validate_active_config`: the active project and stack, falling back
      to the default project and the get-or-create default stack. */
  function ValidateActiveConfig(s: Store, requestedProject: Option<NameOrId>, requestedStack: Option<Id>):
    (r: Outcome<(Project, Stack)>)
    ensures ValidateActiveProject(s, requestedProject).Failure? ==>
              r == Outcome(Failure(ValidateActiveProject(s, requestedProject).error), s)
    ensures ValidateActiveProject(s, requestedProject).Success?
            && KeepsStack(s, ValidateActiveProject(s, requestedProject).value, requestedStack) ==>
              r == Outcome(Success((ValidateActiveProject(s, requestedProject).value, GetStack(s, requestedStack.value).value)), s)
    ensures ValidateActiveProject(s, requestedProject).Success?
            && !KeepsStack(s, ValidateActiveProject(s, requestedProject).value, requestedStack) ==>
              r == WithProject(ValidateActiveProject(s, requestedProject).value,
                               GetOrCreateDefaultStack(s, ValidateActiveProject(s, requestedProject).value))
    ensures r.result.Success? ==> ValidateActiveProject(s, requestedProject) == Success(r.result.value.0)
    ensures r.result.Success? && !KeepsStack(s, r.result.value.0, requestedStack) ==>
              ActiveUser(s).Success? && GetDefaultStack(r.store, r.result.value.0.id, ActiveUser(s).value.id) == Success(r.result.value.1)
    ensures ValidateActiveProject(s, requestedProject).Success? && ActiveUser(s).Success? ==>
              var project := ValidateActiveProject(s, requestedProject).value;
              (r.result.Success? <==> KeepsStack(s, project, requestedStack)
                                      || GetDefaultStack(s, project.id, ActiveUser(s).value.id).Success?
                                      || !DefaultComponentTaken(s, project.id, ActiveUser(s).value.id))
  {
    match ValidateActiveProject(s, requestedProject)
    case Failure(e) => Outcome(Failure(e), s)
    case Success(project) =>
      assert project in s.projects;
      var fallback := WithProject(project, GetOrCreateDefaultStack(s, project));
      if requestedStack.None? then fallback
      else
        match GetStack(s, requestedStack.value)
        case Failure(_) => fallback
        case Success(stack) =>
          if stack.project != project.id then fallback
          else if stack.isShared then Outcome(Success((project, stack)), s)
          else
            match ActiveUser(s)
            case Failure(e) => Outcome(Failure(e), s)
            case Success(user) =>
              if stack.user != user.id then fallback
              else Outcome(Success((project, stack)), s)
  }

  // ---------------------------------------------------------------------
  // _initialize_database
  // ---------------------------------------------------------------------

  /** `_create_default_project`. */
  function CreateDefaultProject(s: Store): (r: (Project, Store))
    ensures r.1 == s.(projects := s.projects + [r.0], nextId := s.nextId + 1)
    ensures r.0.name == DefaultProjectName(s.env)
    ensures FreshIds(s) ==> FreshIds(r.1) && forall i :: 0 <= i < |s.projects| ==> s.projects[i].id != r.0.id
  {
    var p := Project(s.nextId, DefaultProjectName(s.env));
    var s' := s.(projects := s.projects + [p], nextId := s.nextId + 1);
    assert s'.projects[|s.projects|] == p;
    (p, s')
  }

  /** In a store with fresh ids, the created project is what a lookup by its
      id returns. */
  lemma CreatedProjectIsFound(s: Store)
    requires FreshIds(s)
    ensures GetProject(CreateDefaultProject(s).1, ById(CreateDefaultProject(s).0.id)) == Success(CreateDefaultProject(s).0)
  {
    var (p, s') := CreateDefaultProject(s);
    FirstMatchAppended(s.projects, p, (q: Project) => Refers(ById(p.id), q.id, q.name));
  }

  /** `_create_default_user`; the password is not modelled. */
  function CreateDefaultUser(s: Store): (r: (User, Store))
    ensures r.1 == s.(users := s.users + [r.0], nextId := s.nextId + 1)
    ensures r.0.name == DefaultUserName(s.env)
    ensures FreshIds(s) ==> FreshIds(r.1) && forall i :: 0 <= i < |s.users| ==> s.users[i].id != r.0.id
  {
    var u := User(s.nextId, DefaultUserName(s.env));
    var s' := s.(users := s.users + [u], nextId := s.nextId + 1);
    assert s'.users[|s.users|] == u;
    (u, s')
  }

  /** In a store with fresh ids, the created user is what a lookup by its id
      returns. */
  lemma CreatedUserIsFound(s: Store)
    requires FreshIds(s)
    ensures GetUser(CreateDefaultUser(s).1, ById(CreateDefaultUser(s).0.id)) == Success(CreateDefaultUser(s).0)
  {
    var (u, s') := CreateDefaultUser(s);
    FirstMatchAppended(s.users, u, (v: User) => Refers(ById(u.id), v.id, v.name));
  }

  /** All three default resources exist: the default project, the default
      user, and a default stack of that user in that project. */
  predicate Bootstrapped(s: Store) {
    && DefaultProject(s).Success?
    && DefaultUser(s).Success?
    && GetDefaultStack(s, DefaultProject(s).value.id, DefaultUser(s).value.id).Success?
  }

  /** The first step of `_initialize_database`: the default project, created
      when its lookup raises `KeyError`. Only the projects change. */
  function EnsureDefaultProject(s: Store): (r: (Project, Store))
    ensures DefaultProject(r.1) == Success(r.0)
    ensures r.1 == s.(projects := r.1.projects, nextId := r.1.nextId)
    ensures DefaultProject(s).Success? ==> r == (DefaultProject(s).value, s)
    ensures DefaultProject(s).Failure? ==> r == CreateDefaultProject(s)
    ensures DefaultUser(r.1) == DefaultUser(s)
    ensures FreshIds(s) ==> FreshIds(r.1)
  {
    match DefaultProject(s)
    case Success(p) => (p, s)
    case Failure(_) =>
      var created := CreateDefaultProject(s);
      FirstMatchAppended(s.projects, created.0, (p: Project) => Refers(ByName(DefaultProjectName(s.env)), p.id, p.name));
      created
  }

  /** The second step: the default user, created when its lookup raises
      `KeyError`. Only the users change. */
  function EnsureDefaultUser(s: Store): (r: (User, Store))
    ensures DefaultUser(r.1) == Success(r.0)
    ensures r.1 == s.(users := r.1.users, nextId := r.1.nextId)
    ensures DefaultUser(s).Success? ==> r == (DefaultUser(s).value, s)
    ensures DefaultUser(s).Failure? ==> r == CreateDefaultUser(s)
    ensures DefaultProject(r.1) == DefaultProject(s)
    ensures FreshIds(s) ==> FreshIds(r.1)
  {
    match DefaultUser(s)
    case Success(u) => (u, s)
    case Failure(_) =>
      var created := CreateDefaultUser(s);
      FirstMatchAppended(s.users, created.0, (u: User) => Refers(ByName(DefaultUserName(s.env)), u.id, u.name));
      created
  }

  /** The last step: the user's default stack in the project, created when
      its lookup raises `KeyError`. */
  function EnsureDefaultStack(s: Store, project: Project, user: User): (r: Outcome<()>)
    ensures GetDefaultStack(s, project.id, user.id).Success? ==> r == Outcome(Success(()), s)
    ensures GetDefaultStack(s, project.id, user.id).Failure? ==>
              && r.store == CreateDefaultStack(s, project.id, user.id).store
              && (r.result.Success? <==> CreateDefaultStack(s, project.id, user.id).result.Success?)
              && (r.result.Failure? ==> r.result.error == CreateDefaultStack(s, project.id, user.id).result.error)
    ensures r.result.Success? ==> GetDefaultStack(r.store, project.id, user.id).Success?
    ensures project in s.projects && user in s.users ==>
              && (r.result.Success? <==> GetDefaultStack(s, project.id, user.id).Success? || !DefaultComponentTaken(s, project.id, user.id))
              && (r.result.Failure? ==> r.result.error.ComponentExists?)
    ensures r.store.projects == s.projects && r.store.users == s.users && r.store.env == s.env
    ensures DefaultProject(r.store) == DefaultProject(s) && DefaultUser(r.store) == DefaultUser(s)
    ensures FreshIds(s) ==> FreshIds(r.store)
  {
    match GetDefaultStack(s, project.id, user.id)
    case Success(_) => Outcome(Success(()), s)
    case Failure(_) =>
      var created := CreateDefaultStack(s, project.id, user.id);
      CreatedDefaultStackIsFound(s, project.id, user.id);
      ProjectFoundById(s, project);
      UserFoundById(s, user);
      Outcome(if created.result.Success? then Success(()) else Failure(created.result.error), created.store)
  }

  /** `_initialize_database`: each default resource is created only when
      its lookup raises `KeyError`. */
  function InitializeDatabase(s: Store): (r: Outcome<()>)
    ensures r.result.Success? ==> Bootstrapped(r.store)
    ensures FreshIds(s) ==> FreshIds(r.store)
  {
    var (project, s1) := EnsureDefaultProject(s);
    var (user, s2) := EnsureDefaultUser(s1);
    EnsureDefaultStack(s2, project, user)
  }

  /** Initialization fails only when the default stack is missing and one
      of its components is already taken, and then with that refusal. */
  lemma InitializeDatabaseFailsOnlyOnTakenComponent(s: Store)
    ensures var project := EnsureDefaultProject(s).0;
            var user := EnsureDefaultUser(EnsureDefaultProject(s).1).0;
            var r := InitializeDatabase(s);
            && (r.result.Success? <==> GetDefaultStack(s, project.id, user.id).Success? || !DefaultComponentTaken(s, project.id, user.id))
            && (r.result.Failure? ==> r.result.error.ComponentExists?)
  {
    var s1 := EnsureDefaultProject(s).1;
    var project := EnsureDefaultProject(s).0;
    var s2 := EnsureDefaultUser(s1).1;
    var user := EnsureDefaultUser(s1).0;
    assert project in s2.projects && user in s2.users;
    SameStacksSameDefaults(s, s2, project.id, user.id);
    var r := EnsureDefaultStack(s2, project, user);
    assert InitializeDatabase(s) == r;
  }

  /** The default-stack lookup and the component checks read only the
      stacks and the components. */
  lemma SameStacksSameDefaults(s: Store, s': Store, project: Id, user: Id)
    requires s'.stacks == s.stacks && s'.components == s.components
    ensures GetDefaultStack(s', project, user) == GetDefaultStack(s, project, user)
    ensures DefaultComponentTaken(s', project, user) == DefaultComponentTaken(s, project, user)
  {
  }

  /** Initialization recreates no default that exists: an existing default
      project or user is kept as the only one, and a store that already
      holds all three defaults is returned unchanged. */
  lemma InitializeDatabaseKeepsExistingDefaults(s: Store)
    ensures DefaultProject(s).Success? ==> InitializeDatabase(s).store.projects == s.projects
    ensures DefaultUser(s).Success? ==> InitializeDatabase(s).store.users == s.users
    ensures Bootstrapped(s) ==> InitializeDatabase(s) == Outcome(Success(()), s)
  {
    var (project, s1) := EnsureDefaultProject(s);
    var (user, s2) := EnsureDefaultUser(s1);
    assert InitializeDatabase(s) == EnsureDefaultStack(s2, project, user);
  }

  lemma {:induction false} FirstMatchAppended<T>(xs: seq<T>, x: T, matches: T -> bool)
    requires forall i :: 0 <= i < |xs| ==> !matches(xs[i])
    requires matches(x)
    ensures FindFirst(xs + [x], matches) == Some(|xs|)
  {
    var r := FindFirst(xs + [x], matches);
    assert (xs + [x])[|xs|] == x;
  }
}
