/** The store-access helper: a fixed registry of store names, a helper object
    per name whose store instance is created lazily and then reused, and
    string-keyed reads (`get`) and action calls (`set`) checked at run time.

    `Pinia` stands for the active Pinia instance: `useProjectsStore()` and
    `useConfigStore()` hand out one store per id, creating it on first use, so
    two helpers for the same name share one store. */
module PiniaHelper {
  import opened JsValues
  import Projects
  import Config

  datatype StoreKind = ProjectsKind | ConfigKind

  /** The entries of `storeMap`, looked up as own keys: the store each
      registered name loads. */
  function Registered(storeName: string): (k: Option<StoreKind>)
    ensures k.Some? <==> storeName == "projects" || storeName == "config"
    ensures k == Some(ProjectsKind) <==> storeName == "projects"
    ensures k == Some(ConfigKind) <==> storeName == "config"
  {
    if storeName == "projects" then Some(ProjectsKind)
    else if storeName == "config" then Some(ConfigKind)
    else None
  }

  /** The methods every plain JavaScript object inherits from
      `Object.prototype`, and with `__proto__` all the inherited keys. */
  const InheritedMethods: set<string> :=
    {"constructor", "hasOwnProperty", "isPrototypeOf", "propertyIsEnumerable",
     "toString", "toLocaleString", "valueOf", "__defineGetter__",
     "__defineSetter__", "__lookupGetter__", "__lookupSetter__"}
  const InheritedKeys: set<string> := InheritedMethods + {"__proto__"}

  /** What a property read yields, as far as a truthiness or `typeof` test
      can tell: nothing, a function, or some other object. */
  datatype PropertyRead = UndefinedValue | FunctionValue | ObjectValue

  /** Reading a key that is not an own property of a plain object: a method
      of `Object.prototype`, the prototype itself for `__proto__`, otherwise
      undefined. */
  function InheritedRead(key: string): PropertyRead
  {
    if key in InheritedMethods then FunctionValue
    else if key == "__proto__" then ObjectValue
    else UndefinedValue
  }

  /** `storeMap[storeName]`: each registered name holds its loader function;
      any other name falls through to the prototype chain. */
  function StoreMapRead(storeName: string): PropertyRead
  {
    if Registered(storeName).Some? then FunctionValue else InheritedRead(storeName)
  }

  /** The registration guard as written, `!storeMap[storeName]`, passes when
      the read is truthy. Besides the registered names, exactly the keys
      inherited from `Object.prototype` get through. */
  predicate RegistrationGuardPassesAsWritten(storeName: string): (b: bool)
    ensures Registered(storeName).Some? ==> b
    ensures storeName in InheritedKeys ==> b
    ensures b && Registered(storeName).None? ==> storeName in InheritedKeys
  {
    StoreMapRead(storeName) != UndefinedValue
  }

  /** The guard as written lets through a name that is not registered. */
  lemma RegistrationGuardAdmitsUnregisteredName()
    ensures exists name :: RegistrationGuardPassesAsWritten(name) && Registered(name).None?
  {
    assert RegistrationGuardPassesAsWritten("toString") && Registered("toString").None?;
  }

  function NotRegisteredMessage(storeName: string): string
  {
    "Pinia 仓库【" + storeName + "】未在 storeMap 中注册，请先添加！"
  }

  function NotAFunctionMessage(storeName: string): string
  {
    "仓库【" + storeName + "】的创建方法不是函数，请检查导出！"
  }

  function MissingKeyMessage(storeName: string, key: string): string
  {
    "仓库【" + storeName + "】中不存在【" + key + "】（state/getters）！"
  }

  function MissingActionMessage(storeName: string, actionName: string): string
  {
    "仓库【" + storeName + "】中不存在 actions【" + actionName + "】，或该字段不是函数！"
  }

  /** What the dynamically imported store module exports under the expected
      name: a store creator, or something that is not a function. */
  datatype Export = StoreFactory | NotAFunction

  /** A value read from a store: a project list, the configuration map, or
      an action (reading an action's key yields the function itself). */
  datatype StoreValue =
    | ProjectList(items: seq<Json>)
    | ConfigInfo(info: map<string, string>)
    | ActionFn(name: string)

  /** The keys a store holds as own properties: its state fields, its getters
      and its actions. None of them is also inherited from `Object.prototype`,
      so on these keys an own-property test and a prototype-chain read agree. */
  function OwnKeys(kind: StoreKind): (k: set<string>)
    ensures k !! InheritedKeys
  {
    match kind
    case ProjectsKind =>
      (set w | w in Projects.AllLists :: Projects.StateKey(w))
      + (set w | w in Projects.AllLists :: Projects.GetterKey(w))
      + (set w | w in Projects.AllLists :: Projects.ActionKey(w))
    case ConfigKind =>
      {Config.StateKey, Config.GetterKey, Config.ActionKey}
  }

  /** The value `store[key]` has, given the state of both stores: defined
      exactly when `key` is an own property, and an action's key reads the
      action of that name. */
  function Lookup(kind: StoreKind, ps: Projects.Lists, cs: map<string, string>, key: string): (r: Option<StoreValue>)
    ensures r.Some? <==> key in OwnKeys(kind)
    ensures r.Some? && r.value.ActionFn? ==> r.value.name == key
    ensures kind == ConfigKind && r.Some? && !r.value.ActionFn? ==> r == Some(ConfigInfo(cs))
  {
    match kind
    case ProjectsKind =>
      (match Projects.ListReadBy(key)
       case Some(w) => Some(ProjectList(Projects.ListOf(ps, w)))
       case None => if Projects.ListUpdatedBy(key).Some? then Some(ActionFn(key)) else None)
    case ConfigKind =>
      if key == Config.StateKey || key == Config.GetterKey then Some(ConfigInfo(cs))
      else if key == Config.ActionKey then Some(ActionFn(key))
      else None
  }

  /** Both the state key and the getter key of a list read that list's current
      contents; its action key reads the action. */
  lemma LookupReadsTheNamedList(ps: Projects.Lists, cs: map<string, string>, w: Projects.ListName)
    ensures Lookup(ProjectsKind, ps, cs, Projects.StateKey(w)) == Some(ProjectList(Projects.ListOf(ps, w)))
    ensures Lookup(ProjectsKind, ps, cs, Projects.GetterKey(w)) == Some(ProjectList(Projects.ListOf(ps, w)))
    ensures Lookup(ProjectsKind, ps, cs, Projects.ActionKey(w)) == Some(ActionFn(Projects.ActionKey(w)))
  {
  }

  /** The actions the two stores define. */
  datatype Action = UpdateList(list: Projects.ListName) | UpdateConfig

  /** The action `store[actionName]` names, checked against the store's own
      actions only. */
  function ActionFor(kind: StoreKind, actionName: string): (a: Option<Action>)
    ensures a.Some? <==> actionName in OwnKeys(kind) && Lookup(kind, Projects.Initial, map[], actionName).Some?
                         && Lookup(kind, Projects.Initial, map[], actionName).value.ActionFn?
    ensures a.Some? ==> actionName !in InheritedMethods
  {
    match kind
    case ProjectsKind =>
      (match Projects.ListUpdatedBy(actionName)
       case Some(w) => Some(UpdateList(w))
       case None => None)
    case ConfigKind =>
      if actionName == Config.ActionKey then Some(UpdateConfig) else None
  }

  /** `store[actionName]`, for `typeof`: an own action reads as a function,
      an own state or getter key as a non-function value, and any other key
      falls through to the prototype chain. (The list contents do not matter
      to `typeof`, so the initial state stands for every state.) */
  function StoreRead(kind: StoreKind, actionName: string): PropertyRead
  {
    match Lookup(kind, Projects.Initial, map[], actionName)
    case Some(ActionFn(_)) => FunctionValue
    case Some(_) => ObjectValue
    case None => InheritedRead(actionName)
  }

  /** The check in `set` as written, `typeof store[actionName] !== "function"`,
      passes when the read is a function. Besides the store's own actions,
      exactly the methods inherited from `Object.prototype` get through. */
  predicate ActionCheckPassesAsWritten(kind: StoreKind, actionName: string): (b: bool)
    ensures ActionFor(kind, actionName).Some? ==> b
    ensures actionName in InheritedMethods ==> b
    ensures b && ActionFor(kind, actionName).None? ==> actionName in InheritedMethods
  {
    StoreRead(kind, actionName) == FunctionValue
  }

  /** As written, `set` accepts a name that is no action of the store, calls
      the inherited method and returns without error or change. */
  lemma ActionCheckAdmitsNonAction(kind: StoreKind)
    ensures exists name :: ActionCheckPassesAsWritten(kind, name) && ActionFor(kind, name).None?
  {
    assert ActionCheckPassesAsWritten(kind, "toString") && ActionFor(kind, "toString").None?;
  }

  /** The argument has the shape the named action stores. */
  predicate ArgumentFits(kind: StoreKind, actionName: string, value: StoreValue)
  {
    match ActionFor(kind, actionName)
    case Some(UpdateList(_)) => value.ProjectList?
    case Some(UpdateConfig) => value.ConfigInfo?
    case None => true
  }

  /** The active Pinia instance, holding at most one store per id. */
  class Pinia {
    var projects: Projects.ProjectsStore?
    var config: Config.ConfigStore?

    constructor ()
      ensures projects == null && config == null
    {
      projects, config := null, null;
    }

    /** The projects state the store shows, or will show once created. */
    ghost function ProjectsState(): Projects.Lists
      reads this, projects
    {
      if projects != null then projects.State() else Projects.Initial
    }

    /** The configuration the store shows, or will show once created. */
    ghost function ConfigState(): map<string, string>
      reads this, config
    {
      if config != null then config.configInfo else map[]
    }

    /** `useProjectsStore()`: the existing store, or a new one with the
        initial state. */
    method UseProjectsStore() returns (s: Projects.ProjectsStore)
      modifies this
      ensures projects == s && config == old(config)
      ensures old(projects) != null ==> s == old(projects)
      ensures old(projects) == null ==> fresh(s) && s.State() == Projects.Initial
    {
      if projects == null {
        projects := new Projects.ProjectsStore();
      }
      s := projects;
    }

    /** `useConfigStore()`: the existing store, or a new one with an empty
        configuration. */
    method UseConfigStore() returns (s: Config.ConfigStore)
      modifies this
      ensures config == s && projects == old(projects)
      ensures old(config) != null ==> s == old(config)
      ensures old(config) == null ==> fresh(s) && s.configInfo == map[]
    {
      if config == null {
        config := new Config.ConfigStore();
      }
      s := config;
    }
  }

  /** The object `usePiniaHelper(storeName)` returns, with its closure
      variable `storeInstance` split by store kind. */
  class StoreHelper {
    const pinia: Pinia
    const storeName: string
    const kind: StoreKind
    var projectsInstance: Projects.ProjectsStore?
    var configInstance: Config.ConfigStore?

    ghost predicate Valid()
      reads this, pinia
    {
      && Registered(storeName) == Some(kind)
      && (kind == ProjectsKind ==>
            configInstance == null && (projectsInstance != null ==> projectsInstance == pinia.projects))
      && (kind == ConfigKind ==>
            projectsInstance == null && (configInstance != null ==> configInstance == pinia.config))
    }

    /** Whether `storeInstance` has been recorded. */
    predicate Initialized()
      reads this
    {
      projectsInstance != null || configInstance != null
    }

    constructor (pinia: Pinia, storeName: string, kind: StoreKind)
      requires Registered(storeName) == Some(kind)
      ensures Valid() && !Initialized()
      ensures this.pinia == pinia && this.storeName == storeName && this.kind == kind
    {
      this.pinia, this.storeName, this.kind := pinia, storeName, kind;
      projectsInstance, configInstance := null, null;
    }

    /** `initStore`: create the instance on first use and record it; later
        calls return the recorded one. A creator that is not a function fails
        and records nothing. Store contents never change here. */
    method InitStore(loaded: Export) returns (err: Option<string>)
      requires Valid()
      modifies this, pinia
      ensures Valid()
      ensures old(Initialized()) ==>
        err.None? && projectsInstance == old(projectsInstance) && configInstance == old(configInstance)
        && unchanged(pinia)
      ensures !old(Initialized()) && loaded == NotAFunction ==>
        err == Some(NotAFunctionMessage(storeName)) && !Initialized() && unchanged(pinia)
      ensures !old(Initialized()) && loaded == StoreFactory ==> err.None? && Initialized()
      ensures pinia.projects == old(pinia.projects) || (old(pinia.projects) == null && fresh(pinia.projects))
      ensures pinia.config == old(pinia.config) || (old(pinia.config) == null && fresh(pinia.config))
      ensures pinia.ProjectsState() == old(pinia.ProjectsState())
      ensures pinia.ConfigState() == old(pinia.ConfigState())
    {
      err := None;
      if !Initialized() {
        if loaded == NotAFunction {
          err := Some(NotAFunctionMessage(storeName));
          return;
        }
        match kind
        case ProjectsKind =>
          projectsInstance := pinia.UseProjectsStore();
        case ConfigKind =>
          configInstance := pinia.UseConfigStore();
      }
    }

    /** `get(key)`: the current value of an own property of the store, or an
        error naming the missing key; the stores are left as they were. */
    method Get(key: string, loaded: Export) returns (r: Completion<StoreValue>)
      requires Valid()
      modifies this, pinia
      ensures Valid()
      ensures pinia.projects == old(pinia.projects) || (old(pinia.projects) == null && fresh(pinia.projects))
      ensures pinia.config == old(pinia.config) || (old(pinia.config) == null && fresh(pinia.config))
      ensures old(Initialized()) ==> projectsInstance == old(projectsInstance) && configInstance == old(configInstance)
      ensures pinia.ProjectsState() == old(pinia.ProjectsState())
      ensures pinia.ConfigState() == old(pinia.ConfigState())
      ensures !old(Initialized()) && loaded == NotAFunction ==>
        r == Throws(NotAFunctionMessage(storeName)) && !Initialized()
      ensures old(Initialized()) || loaded == StoreFactory ==>
        Initialized() &&
        r == match Lookup(kind, old(pinia.ProjectsState()), old(pinia.ConfigState()), key)
             case Some(v) => Returns(v)
             case None => Throws(MissingKeyMessage(storeName, key))
    {
      var err := InitStore(loaded);
      if err.Some? {
        return Throws(err.value);
      }
      if key !in OwnKeys(kind) {
        return Throws(MissingKeyMessage(storeName, key));
      }
      match kind
      case ProjectsKind =>
        var store := projectsInstance;
        match Projects.ListReadBy(key) {
          case Some(w) =>
            var items := match w
              case Github => store.GetGithubProjects()
              case Npm => store.GetNpmProjects()
              case Rendered => store.GetRenderedProjects()
              case Local => store.GetLocalProjects();
            r := Returns(ProjectList(items));
          case None =>
            r := Returns(ActionFn(key));
        }
      case ConfigKind =>
        var store := configInstance;
        if key == Config.ActionKey {
          r := Returns(ActionFn(key));
        } else {
          r := Returns(ConfigInfo(store.GetConfigInfo()));
        }
    }

    /** `set(actionName, value)`: apply the named action of the store to
        `value`, or fail without touching the store when the store has no
        such action. */
    method Set(actionName: string, value: StoreValue, loaded: Export) returns (r: Completion<()>)
      requires Valid()
      requires ArgumentFits(kind, actionName, value)
      modifies this, pinia, pinia.projects, pinia.config
      ensures Valid()
      ensures pinia.projects == old(pinia.projects) || (old(pinia.projects) == null && fresh(pinia.projects))
      ensures pinia.config == old(pinia.config) || (old(pinia.config) == null && fresh(pinia.config))
      ensures old(Initialized()) ==> projectsInstance == old(projectsInstance) && configInstance == old(configInstance)
      ensures !old(Initialized()) && loaded == NotAFunction ==>
        r == Throws(NotAFunctionMessage(storeName)) && !Initialized()
        && pinia.ProjectsState() == old(pinia.ProjectsState()) && pinia.ConfigState() == old(pinia.ConfigState())
      ensures old(Initialized()) || loaded == StoreFactory ==>
        Initialized() &&
        match ActionFor(kind, actionName)
        case None =>
          r == Throws(MissingActionMessage(storeName, actionName))
          && pinia.ProjectsState() == old(pinia.ProjectsState()) && pinia.ConfigState() == old(pinia.ConfigState())
        case Some(UpdateList(w)) =>
          r == Returns(())
          && pinia.ProjectsState() == Projects.WithList(old(pinia.ProjectsState()), w, value.items)
          && pinia.ConfigState() == old(pinia.ConfigState())
        case Some(UpdateConfig) =>
          r == Returns(())
          && pinia.ProjectsState() == old(pinia.ProjectsState()) && pinia.ConfigState() == value.info
    {
      var err := InitStore(loaded);
      if err.Some? {
        return Throws(err.value);
      }
      match ActionFor(kind, actionName)
      case None =>
        r := Throws(MissingActionMessage(storeName, actionName));
      case Some(UpdateList(w)) =>
        var store := projectsInstance;
        match w {
          case Github => store.UpdateGithubProjects(value.items);
          case Npm => store.UpdateNpmProjects(value.items);
          case Rendered => store.UpdateRenderedProjects(value.items);
          case Local => store.UpdateLocalProjects(value.items);
        }
        r := Returns(());
      case Some(UpdateConfig) =>
        var store := configInstance;
        store.UpdateConfigInfo(value.info);
        r := Returns(());
    }
  }

  /** `usePiniaHelper(storeName)`: fails at once for a name outside the
      registry; otherwise a helper with no instance yet. */
  method UsePiniaHelper(pinia: Pinia, storeName: string) returns (r: Completion<StoreHelper>)
    ensures r.Throws? <==> Registered(storeName).None?
    ensures r.Throws? ==> r.error == NotRegisteredMessage(storeName)
    ensures r.Returns? ==>
      fresh(r.value) && r.value.Valid() && !r.value.Initialized()
      && r.value.pinia == pinia && r.value.storeName == storeName
  {
    match Registered(storeName)
    case None =>
      r := Throws(NotRegisteredMessage(storeName));
    case Some(kind) =>
      var helper := new StoreHelper(pinia, storeName, kind);
      r := Returns(helper);
  }

  /** Writing a project list through one helper and reading it back through
      the same helper yields the list written. */
  method UpdateThenReadThroughHelper(xs: seq<Json>) returns (r: Completion<StoreValue>)
    ensures r == Returns(ProjectList(xs))
  {
    var pinia := new Pinia();
    var made := UsePiniaHelper(pinia, "projects");
    assert made.Returns?;
    var helper := made.value;
    var _ := helper.Set("updateGithubProjects", ProjectList(xs), StoreFactory);
    r := helper.Get("getGithubProjects", StoreFactory);
  }

  /** Two helpers for "config" share one store: what the first one writes,
      the second one reads, even though the second one had already created
      and recorded its instance before the write. */
  method HelpersShareTheStore(info: map<string, string>) returns (r: Completion<StoreValue>)
    ensures r == Returns(ConfigInfo(info))
  {
    var pinia := new Pinia();
    var madeWriter := UsePiniaHelper(pinia, "config");
    var madeReader := UsePiniaHelper(pinia, "config");
    assert madeWriter.Returns? && madeReader.Returns?;
    var writer, reader := madeWriter.value, madeReader.value;
    var before := reader.Get("getConfigInfo", StoreFactory);
    var _ := writer.Set("updateConfigInfo", ConfigInfo(info), StoreFactory);
    r := reader.Get("getConfigInfo", StoreFactory);
  }
}
