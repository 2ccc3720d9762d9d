/**
 * The base layer of the Petite container: the registry of bean definitions, shared scope
 * instances, provider definitions and the per-type cache of bean names, together with the
 * registration of injection points on existing definitions.
 */
module Petite {
  import opened Wrappers
  import opened Reflection
  import opened MemberIndex
  import opened Introspector

  // ---------------------------------------------------------------- values

  datatype WiringMode = DefaultMode | NoneMode | StrictMode | OptionalMode | AutowireMode

  datatype InitMethodInvocationStrategy = PostConstruct | PostDefine | PostInitialize

  /** A scope kind is the class of the scope implementation. */
  type ScopeKind = TypeId

  /** The placeholder scope class that stands for "the configured default scope". */
  const DEFAULT_SCOPE: ScopeKind := "jodd.petite.scope.DefaultScope"

  datatype PetiteConfig = PetiteConfig(
    useFullTypeNames: bool,
    defaultWiringMode: WiringMode,
    defaultScope: ScopeKind,
    detectDuplicatedBeanNames: bool)

  datatype CtorInjectionPoint = CtorInjectionPoint(ctor: Option<Ctor>, references: seq<seq<string>>)
  datatype PropertyInjectionPoint = PropertyInjectionPoint(field: Field, references: Option<seq<string>>)
  datatype SetInjectionPoint = SetInjectionPoint(field: Field)
  datatype MethodInjectionPoint = MethodInjectionPoint(target: Method, references: seq<seq<string>>)
  datatype InitMethodPoint = InitMethodPoint(target: Method, order: int, strategy: InitMethodInvocationStrategy)

  datatype ProviderDefinition =
    | InstanceProvider(name: string, beanName: string, target: Method)
    | StaticProvider(name: string, target: Method)

  /** The PetiteExceptions the registry throws, by cause. */
  datatype PetiteError =
    | ScopeCreationFailed(scope: ScopeKind)
    | DuplicatedBeanName(name: string)
    | InterfaceNotAllowed(beanType: TypeId)
    | BeanNotFound(name: string)
    | AmbiguousCtors(beanType: TypeId, count: nat)
    | CtorNotFound(beanType: TypeId)
    | PropertyNotFound(beanType: TypeId, property: string)
    | AmbiguousMethods(beanType: TypeId, methodName: string, count: nat)
    | MethodNotFound(beanType: TypeId, methodName: string)
    | InitMethodNotFound(beanType: TypeId, methodName: string)
    | ProviderMethodNotFound(methodName: string)

  /**
   * Collaborators whose code lies outside the registry, as uninterpreted functions:
   * annotation-based name, wiring and scope resolution, whether a scope class can be
   * instantiated, provider and constructor resolution, and reference-name conversion.
   */
  datatype Collaborators = Collaborators(
    beanName: (TypeId, bool) -> string,
    beanWiringMode: TypeId -> WiringMode,
    beanScopeType: TypeId -> ScopeKind,
    scopeInstantiable: ScopeKind -> bool,
    providerDefinitions: (string, TypeId) -> seq<ProviderDefinition>,
    ctorInjectionPoint: TypeId -> CtorInjectionPoint,
    references: Option<seq<string>> -> seq<seq<string>>)

  // ---------------------------------------------------------------- defaults

  /** An explicit name wins; otherwise the name is derived from the type. */
  function ResolvedName(config: PetiteConfig, c: Collaborators, t: TypeId, name: Option<string>): (r: string)
    ensures name.Some? ==> r == name.value
  {
    if name.Some? then name.value else c.beanName(t, config.useFullTypeNames)
  }

  /** Explicit mode, else the type's declared mode; DEFAULT then stands for the configured default. */
  function ResolvedWiringMode(config: PetiteConfig, c: Collaborators, t: TypeId, mode: Option<WiringMode>)
    : (r: WiringMode)
    ensures r == DefaultMode ==> config.defaultWiringMode == DefaultMode
    ensures mode.Some? && mode.value != DefaultMode ==> r == mode.value
    ensures mode == Some(DefaultMode) ==> r == config.defaultWiringMode
  {
    var m := if mode.Some? then mode.value else c.beanWiringMode(t);
    if m == DefaultMode then config.defaultWiringMode else m
  }

  /** Explicit scope, else the type's declared scope; DefaultScope then stands for the configured default. */
  function ResolvedScopeKind(config: PetiteConfig, c: Collaborators, t: TypeId, kind: Option<ScopeKind>)
    : (r: ScopeKind)
    ensures r == DEFAULT_SCOPE ==> config.defaultScope == DEFAULT_SCOPE
    ensures kind.Some? && kind.value != DEFAULT_SCOPE ==> r == kind.value
    ensures kind == Some(DEFAULT_SCOPE) ==> r == config.defaultScope
  {
    var k := if kind.Some? then kind.value else c.beanScopeType(t);
    if k == DEFAULT_SCOPE then config.defaultScope else k
  }

  // ---------------------------------------------------------------- providers

  /** The provider map after storing each definition under its name, in order. */
  function PutProviders(m: map<string, ProviderDefinition>, defs: seq<ProviderDefinition>)
    : map<string, ProviderDefinition>
    decreases |defs|
  {
    if defs == [] then m
    else
      var last := defs[|defs| - 1];
      PutProviders(m, defs[..|defs| - 1])[last.name := last]
  }

  /** After storing `defs`, a name is present exactly when it was before or some definition carries it. */
  lemma {:induction false} PutProvidersKeys(m: map<string, ProviderDefinition>, defs: seq<ProviderDefinition>, k: string)
    ensures k in PutProviders(m, defs) <==> k in m || exists i :: 0 <= i < |defs| && defs[i].name == k
    decreases |defs|
  {
    if defs != [] {
      var pre := defs[..|defs| - 1];
      PutProvidersKeys(m, pre, k);
      assert forall i :: 0 <= i < |pre| ==> pre[i] == defs[i];
    }
  }

  /** A name no stored definition carries keeps its earlier provider. */
  lemma {:induction false} PutProvidersUntouched(m: map<string, ProviderDefinition>, defs: seq<ProviderDefinition>, k: string)
    requires k in m
    requires forall i :: 0 <= i < |defs| ==> defs[i].name != k
    ensures k in PutProviders(m, defs) && PutProviders(m, defs)[k] == m[k]
    decreases |defs|
  {
    if defs != [] {
      var pre := defs[..|defs| - 1];
      assert forall i :: 0 <= i < |pre| ==> pre[i] == defs[i];
      PutProvidersUntouched(m, pre, k);
    }
  }

  /** A name some stored definition carries holds the last definition of that name: a later one replaces an earlier one. */
  lemma {:induction false} PutProvidersLastWins(
    m: map<string, ProviderDefinition>, defs: seq<ProviderDefinition>, j: nat)
    requires j < |defs|
    requires forall l :: j < l < |defs| ==> defs[l].name != defs[j].name
    ensures defs[j].name in PutProviders(m, defs) && PutProviders(m, defs)[defs[j].name] == defs[j]
    decreases |defs|
  {
    var pre := defs[..|defs| - 1];
    if j < |defs| - 1 {
      assert forall l :: j < l < |pre| ==> pre[l] == defs[l];
      PutProvidersLastWins(m, pre, j);
    }
  }

  // ---------------------------------------------------------------- injection-point selection

  /**
   * Choosing the constructor to inject. Without parameter types the type must declare
   * exactly one constructor: none is "not found", several are ambiguous. With parameter
   * types the constructor must match them exactly.
   */
  function SelectCtor(beanType: TypeId, ctors: seq<Ctor>, paramTypes: Option<seq<TypeId>>)
    : (r: Result<Ctor, PetiteError>)
    ensures paramTypes.None? ==>
      && (r.Ok? <==> |ctors| == 1)
      && (r.Ok? ==> r.value == ctors[0])
      && (r == Err(AmbiguousCtors(beanType, |ctors|)) <==> |ctors| > 1)
      && (r == Err(CtorNotFound(beanType)) <==> |ctors| == 0)
    ensures paramTypes.Some? ==>
      && (r.Ok? <==> exists c :: c in ctors && c.params == paramTypes.value)
      && (r.Ok? ==> r.value in ctors && r.value.params == paramTypes.value)
      && (r.Err? ==> r.error == CtorNotFound(beanType))
  {
    match paramTypes
    case None =>
      if |ctors| > 1 then Err(AmbiguousCtors(beanType, |ctors|))
      else if |ctors| == 0 then Err(CtorNotFound(beanType))
      else Ok(ctors[0])
    case Some(params) =>
      match CtorWithParams(ctors, params)
      case None => Err(CtorNotFound(beanType))
      case Some(c) => Ok(c)
  }

  /**
   * Choosing the method to inject among the methods of that name. Without argument types
   * exactly one must exist: none is "not found", several are ambiguous. With argument types
   * the method must match them exactly.
   */
  function SelectMethod(beanType: TypeId, methodName: string, named: seq<Method>, arguments: Option<seq<TypeId>>)
    : (r: Result<Method, PetiteError>)
    ensures arguments.None? ==>
      && (r.Ok? <==> |named| == 1)
      && (r.Ok? ==> r.value == named[0])
      && (r == Err(AmbiguousMethods(beanType, methodName, |named|)) <==> |named| > 1)
      && (r == Err(MethodNotFound(beanType, methodName)) <==> |named| == 0)
    ensures arguments.Some? ==>
      && (r.Ok? <==> exists m :: m in named && m.params == arguments.value)
      && (r.Ok? ==> r.value in named && r.value.params == arguments.value)
      && (r.Err? ==> r.error == MethodNotFound(beanType, methodName))
  {
    match arguments
    case None =>
      if |named| > 1 then Err(AmbiguousMethods(beanType, methodName, |named|))
      else if |named| == 0 then Err(MethodNotFound(beanType, methodName))
      else Ok(named[0])
    case Some(args) =>
      match MethodWithParams(named, args)
      case None => Err(MethodNotFound(beanType, methodName))
      case Some(m) => Ok(m)
  }

  /** The no-argument method of that name, among the methods the index lists. */
  function InitMethod(methods: map<string, seq<Method>>, name: string): Option<Method> {
    MethodWithParams(Lookup(methods, name), [])
  }

  /** The init-method points for `names`, in order, or the first name without a no-argument method. */
  function InitMethodPoints(
    methods: map<string, seq<Method>>, beanType: TypeId, names: seq<string>, strategy: InitMethodInvocationStrategy)
    : Result<seq<InitMethodPoint>, PetiteError>
    decreases |names|
  {
    if names == [] then Ok([])
    else
      match InitMethodPoints(methods, beanType, names[..|names| - 1], strategy)
      case Err(e) => Err(e)
      case Ok(points) =>
        var last := names[|names| - 1];
        match InitMethod(methods, last)
        case None => Err(InitMethodNotFound(beanType, last))
        case Some(m) => Ok(points + [InitMethodPoint(m, |names| - 1, strategy)])
  }

  /** One more name: the points for `names[..i + 1]` extend those for `names[..i]`, or fail on `names[i]`. */
  lemma InitMethodPointsStep(
    methods: map<string, seq<Method>>, beanType: TypeId, names: seq<string>, i: nat, strategy: InitMethodInvocationStrategy)
    requires i < |names|
    ensures var pre := InitMethodPoints(methods, beanType, names[..i], strategy);
      var r := InitMethodPoints(methods, beanType, names[..i + 1], strategy);
      && (pre.Err? ==> r == pre)
      && (pre.Ok? && InitMethod(methods, names[i]).None? ==> r == Err(InitMethodNotFound(beanType, names[i])))
      && (pre.Ok? && InitMethod(methods, names[i]).Some? ==>
            r == Ok(pre.value + [InitMethodPoint(InitMethod(methods, names[i]).value, i, strategy)]))
  {
    assert names[..i + 1][..i] == names[..i];
  }

  /** Init methods are all-or-nothing: the points exist exactly when every name has a no-argument method. */
  lemma {:induction false} InitMethodPointsOk(
    methods: map<string, seq<Method>>, beanType: TypeId, names: seq<string>, strategy: InitMethodInvocationStrategy)
    ensures InitMethodPoints(methods, beanType, names, strategy).Ok? <==>
      forall i :: 0 <= i < |names| ==> InitMethod(methods, names[i]).Some?
    decreases |names|
  {
    if names != [] {
      var pre := names[..|names| - 1];
      InitMethodPointsOk(methods, beanType, pre, strategy);
      assert forall j :: 0 <= j < |pre| ==> pre[j] == names[j];
    }
  }

  /** The points are one per name, in order: the i-th carries the i-th name's method and ordinal i. */
  lemma {:induction false} InitMethodPointsAt(
    methods: map<string, seq<Method>>, beanType: TypeId, names: seq<string>, strategy: InitMethodInvocationStrategy, i: nat)
    requires InitMethodPoints(methods, beanType, names, strategy).Ok?
    requires i < |names|
    ensures |InitMethodPoints(methods, beanType, names, strategy).value| == |names|
    ensures InitMethod(methods, names[i]).Some?
    ensures InitMethodPoints(methods, beanType, names, strategy).value[i]
         == InitMethodPoint(InitMethod(methods, names[i]).value, i, strategy)
    decreases |names|
  {
    var pre := names[..|names| - 1];
    if i < |pre| {
      InitMethodPointsAt(methods, beanType, pre, strategy, i);
    } else if pre != [] {
      InitMethodPointsAt(methods, beanType, pre, strategy, 0);
    }
  }

  /** A failure names the first name without a no-argument method. */
  lemma {:induction false} InitMethodPointsFirstMissing(
    methods: map<string, seq<Method>>, beanType: TypeId, names: seq<string>, strategy: InitMethodInvocationStrategy)
    requires InitMethodPoints(methods, beanType, names, strategy).Err?
    ensures exists i ::
      && 0 <= i < |names| && InitMethod(methods, names[i]).None?
      && InitMethodPoints(methods, beanType, names, strategy).error == InitMethodNotFound(beanType, names[i])
      && forall j :: 0 <= j < i ==> InitMethod(methods, names[j]).Some?
    decreases |names|
  {
    var pre := names[..|names| - 1];
    if InitMethodPoints(methods, beanType, pre, strategy).Err? {
      InitMethodPointsFirstMissing(methods, beanType, pre, strategy);
      var i :| 0 <= i < |pre| && InitMethod(methods, pre[i]).None?
        && InitMethodPoints(methods, beanType, pre, strategy).error == InitMethodNotFound(beanType, pre[i])
        && forall j :: 0 <= j < i ==> InitMethod(methods, pre[j]).Some?;
      assert names[i] == pre[i];
      assert forall j :: 0 <= j < i ==> names[j] == pre[j];
    } else {
      InitMethodPointsOk(methods, beanType, pre, strategy);
      assert forall j :: 0 <= j < |pre| ==> names[j] == pre[j];
    }
  }

  /** When a prefix of the names already fails, the whole list fails with the same error. */
  lemma {:induction false} InitMethodPointsPrefixErr(
    methods: map<string, seq<Method>>, beanType: TypeId, names: seq<string>, k: nat, strategy: InitMethodInvocationStrategy)
    requires k <= |names|
    requires InitMethodPoints(methods, beanType, names[..k], strategy).Err?
    ensures InitMethodPoints(methods, beanType, names, strategy) == InitMethodPoints(methods, beanType, names[..k], strategy)
    decreases |names| - k
  {
    if k < |names| {
      var pre := names[..|names| - 1];
      assert pre[..k] == names[..k];
      InitMethodPointsPrefixErr(methods, beanType, pre, k, strategy);
    } else {
      assert names[..k] == names;
    }
  }

  /**
   * A map that keeps exactly the entries whose key is not in `names`, unchanged, where
   * `names` are the keys whose definition has type `t`, is `before` restricted to the
   * definitions of other types.
   */
  lemma RemainingBeans(
    before: map<string, BeanDefinition>, after: map<string, BeanDefinition>, names: set<string>, t: TypeId)
    requires names == set n | n in before && before[n].beanType == t
    requires forall n :: n in after <==> n in before && n !in names
    requires forall n :: n in after ==> after[n] == before[n]
    ensures after == map n | n in before && before[n].beanType != t :: before[n]
  {
  }

  /** The log `now` extends the log `was`, and every definition appended since is one of `allowed`. */
  predicate EvictedSince(was: seq<BeanDefinition>, now: seq<BeanDefinition>, allowed: set<BeanDefinition>) {
    was <= now && forall i :: |was| <= i < |now| ==> now[i] in allowed
  }

  /**
   * The bookkeeping of RemoveBeansOfType: every scope's log is its starting log followed by
   * allowed definitions only, and every removed definition is in its own scope's log.
   */
  ghost predicate EvictionsTracked(
    scopes: set<Scope>, logsBefore: map<Scope, seq<BeanDefinition>>, allowed: set<BeanDefinition>,
    before: map<string, BeanDefinition>, done: set<string>)
    reads scopes
  {
    && (forall s :: s in scopes ==> s in logsBefore && EvictedSince(logsBefore[s], s.evicted, allowed))
    && (forall n :: n in done && n in before ==> before[n].scope in scopes && before[n] in before[n].scope.evicted)
  }

  /** Evicting one more allowed definition keeps a log within EvictedSince. */
  lemma EvictedSinceStep(was: seq<BeanDefinition>, mid: seq<BeanDefinition>, allowed: set<BeanDefinition>, bd: BeanDefinition)
    requires EvictedSince(was, mid, allowed) && bd in allowed
    ensures EvictedSince(was, mid + [bd], allowed)
  {
  }

  /** The definitions of type `t` in `beans`. */
  function DefinitionsOfType(beans: map<string, BeanDefinition>, t: TypeId): set<BeanDefinition> {
    set n | n in beans && beans[n].beanType == t :: beans[n]
  }

  /** Dropping the registered names `names` from `before` lowers its size by their number. */
  lemma CountWithout(before: map<string, BeanDefinition>, after: map<string, BeanDefinition>, names: set<string>)
    requires names <= before.Keys
    requires forall n :: n in after <==> n in before && n !in names
    ensures |after| == |before| - |names|
  {
    assert after.Keys == before.Keys - names;
    assert |before.Keys - names| == |before.Keys| - |names|;
  }

  /** Removing `name` lowers the size by one when it is registered, and changes nothing otherwise. */
  lemma CountWithoutName(before: map<string, BeanDefinition>, name: string)
    ensures |before - {name}| == |before| - (if name in before then 1 else 0)
  {
    assert (before - {name}).Keys == before.Keys - {name};
  }

  /** Storing under `name` raises the size by one unless the name is registered already. */
  lemma CountWithName(before: map<string, BeanDefinition>, name: string, bd: BeanDefinition)
    ensures |before[name := bd]| == |before| + (if name in before then 0 else 1)
  {
  }

  /** Whether no name occurs twice. */
  predicate NoDuplicates(s: seq<string>) {
    forall i, j :: 0 <= i < j < |s| ==> s[i] != s[j]
  }

  // ---------------------------------------------------------------- scopes and definitions

  /** A shared scope instance. It records the definitions it was told to evict. */
  class Scope {
    const kind: ScopeKind
    var evicted: seq<BeanDefinition>

    constructor (kind: ScopeKind)
      ensures this.kind == kind && evicted == []
    {
      this.kind := kind;
      evicted := [];
    }

    method Remove(bd: BeanDefinition)
      modifies this`evicted
      ensures evicted == old(evicted) + [bd]
    {
      evicted := evicted + [bd];
    }
  }

  /** The injection points of a definition; None is a collection never set (Java's null). */
  datatype InjectionPoints = InjectionPoints(
    ctor: Option<CtorInjectionPoint>,
    properties: Option<seq<PropertyInjectionPoint>>,
    sets: Option<seq<SetInjectionPoint>>,
    methods: Option<seq<MethodInjectionPoint>>,
    initMethods: Option<seq<InitMethodPoint>>)

  const NoInjectionPoints := InjectionPoints(None, None, None, None, None)

  /** Appending to an array that may still be null. */
  function Extend<T>(a: Option<seq<T>>, b: seq<T>): (r: seq<T>)
    ensures a.None? ==> r == b
    ensures a.Some? ==> |r| == |a.value| + |b| && r[..|a.value|] == a.value && r[|a.value|..] == b
  {
    (if a.Some? then a.value else []) + b
  }

  class BeanDefinition {
    const name: string
    const beanType: TypeId
    const scope: Scope
    const wiringMode: WiringMode
    var ctor: Option<CtorInjectionPoint>
    var properties: Option<seq<PropertyInjectionPoint>>
    var sets: Option<seq<SetInjectionPoint>>
    var methods: Option<seq<MethodInjectionPoint>>
    var initMethods: Option<seq<InitMethodPoint>>

    function Points(): InjectionPoints
      reads this
    {
      InjectionPoints(ctor, properties, sets, methods, initMethods)
    }

    constructor (name: string, beanType: TypeId, scope: Scope, wiringMode: WiringMode)
      ensures this.name == name && this.beanType == beanType
      ensures this.scope == scope && this.wiringMode == wiringMode
      ensures Points() == NoInjectionPoints
    {
      this.name := name;
      this.beanType := beanType;
      this.scope := scope;
      this.wiringMode := wiringMode;
      ctor, properties, sets, methods, initMethods := None, None, None, None, None;
    }

    /** Tells the owning scope to evict whatever it holds for this definition. */
    method ScopeRemove()
      modifies scope`evicted
      ensures scope.evicted == old(scope.evicted) + [this]
    {
      scope.Remove(this);
    }

    method AddPropertyInjectionPoint(p: PropertyInjectionPoint)
      modifies this`properties
      ensures properties == Some(Extend(old(properties), [p]))
    {
      properties := Some(Extend(properties, [p]));
    }

    method AddSetInjectionPoint(p: SetInjectionPoint)
      modifies this`sets
      ensures sets == Some(Extend(old(sets), [p]))
    {
      sets := Some(Extend(sets, [p]));
    }

    method AddMethodInjectionPoint(p: MethodInjectionPoint)
      modifies this`methods
      ensures methods == Some(Extend(old(methods), [p]))
    {
      methods := Some(Extend(methods, [p]));
    }

    method AddInitMethodPoints(ps: seq<InitMethodPoint>)
      modifies this`initMethods
      ensures initMethods == Some(Extend(old(initMethods), ps))
    {
      initMethods := Some(Extend(initMethods, ps));
    }
  }

  // ---------------------------------------------------------------- the registry

  class PetiteBeans {
    const config: PetiteConfig
    const collaborators: Collaborators
    const world: World
    /** The scanning mode of the class descriptors the registry consults. */
    const accessibleOnly: bool

    var beans: map<string, BeanDefinition>
    var scopes: map<ScopeKind, Scope>
    var providers: map<string, ProviderDefinition>
    var beanCollections: map<TypeId, seq<string>>

    /** Every definition is stored under its own name, and none defines an interface. */
    ghost predicate Valid()
      reads this
    {
      forall n :: n in beans ==> beans[n].name == n && !IsInterface(world, beans[n].beanType)
    }

    ghost function BeanScopes(): set<Scope>
      reads this
    {
      set n | n in beans :: beans[n].scope
    }

    ghost function ScopeOf(name: string): set<Scope>
      reads this
    {
      if name in beans then {beans[name].scope} else {}
    }

    ghost function DefinitionOf(name: string): set<BeanDefinition>
      reads this
    {
      if name in beans then {beans[name]} else {}
    }

    /** The registry is `before` without the names in `done`, the other definitions untouched. */
    ghost predicate RemovedSoFar(before: map<string, BeanDefinition>, done: set<string>)
      reads this
    {
      && (forall n :: n in beans <==> n in before && n !in done)
      && (forall n :: n in beans ==> beans[n] == before[n])
    }

    /** The methods cache, all partition, of the descriptor for `t`. */
    function MethodsFor(t: TypeId): map<string, seq<Method>> {
      MethodsOf(world.info(t), accessibleOnly, true)
    }

    constructor (config: PetiteConfig, collaborators: Collaborators, world: World, accessibleOnly: bool)
      ensures Valid()
      ensures this.config == config && this.collaborators == collaborators
      ensures this.world == world && this.accessibleOnly == accessibleOnly
      ensures beans == map[] && scopes == map[] && providers == map[] && beanCollections == map[]
    {
      this.config := config;
      this.collaborators := collaborators;
      this.world := world;
      this.accessibleOnly := accessibleOnly;
      beans, scopes, providers, beanCollections := map[], map[], map[], map[];
    }

    // -------------------------------------------------------------- scopes

    /**
     * The scope registered for `kind`, unchanged; otherwise one new instance, stored under
     * `kind`, so that every later call returns that same instance.
     */
    method ResolveScope(kind: ScopeKind) returns (r: Result<Scope, PetiteError>)
      modifies this`scopes
      ensures kind in old(scopes) ==> r == Ok(old(scopes)[kind]) && scopes == old(scopes)
      ensures kind !in old(scopes) && !collaborators.scopeInstantiable(kind) ==>
        r == Err(ScopeCreationFailed(kind)) && scopes == old(scopes)
      ensures kind !in old(scopes) && collaborators.scopeInstantiable(kind) ==>
        && r.Ok? && fresh(r.value) && r.value.kind == kind && r.value.evicted == []
        && scopes == old(scopes)[kind := r.value]
    {
      if kind in scopes {
        return Ok(scopes[kind]);
      }
      if !collaborators.scopeInstantiable(kind) {
        return Err(ScopeCreationFailed(kind));
      }
      var scope := new Scope(kind);
      RegisterScope(kind, scope);
      scopes := scopes[kind := scope];
      r := Ok(scope);
    }

    /** Registers or replaces the scope instance for `kind`. */
    method RegisterScope(kind: ScopeKind, scope: Scope)
      modifies this`scopes
      ensures scopes == old(scopes)[kind := scope]
    {
      scopes := scopes[kind := scope];
    }

    // -------------------------------------------------------------- lookup

    /** The definition registered under `name`, or none. */
    function LookupBeanDefinition(name: string): (r: Option<BeanDefinition>)
      requires Valid()
      reads this
      ensures r.Some? <==> name in beans
      ensures r.Some? ==> r.value == beans[name] && r.value.name == name && !IsInterface(world, r.value.beanType)
    {
      if name in beans then Some(beans[name]) else None
    }

    /** The definition of the first name that is registered, or none when no name is. */
    method LookupBeanDefinitions(names: seq<string>) returns (r: Option<BeanDefinition>)
      requires Valid()
      ensures r.Some? ==> exists i :: 0 <= i < |names| && names[i] in beans && r.value == beans[names[i]]
                                     && forall j :: 0 <= j < i ==> names[j] !in beans
      ensures r.Some? ==> !IsInterface(world, r.value.beanType)
      ensures r.None? <==> forall i :: 0 <= i < |names| ==> names[i] !in beans
    {
      for i := 0 to |names|
        invariant forall j :: 0 <= j < i ==> names[j] !in beans
      {
        var bd := LookupBeanDefinition(names[i]);
        if bd.Some? {
          return bd;
        }
      }
      return None;
    }

    /** The definition registered under `name`, or "bean not found". */
    function LookupExistingBeanDefinition(name: string): (r: Result<BeanDefinition, PetiteError>)
      requires Valid()
      reads this
      ensures r.Err? <==> name !in beans
      ensures r.Err? ==> r.error == BeanNotFound(name)
      ensures r.Ok? ==> r.value == beans[name] && r.value.name == name && !IsInterface(world, r.value.beanType)
    {
      match LookupBeanDefinition(name)
      case None => Err(BeanNotFound(name))
      case Some(bd) => Ok(bd)
    }

    // -------------------------------------------------------------- registration

    /**
     * Registers a bean. The name, wiring mode and scope are resolved first; any bean of that
     * name is then removed BEFORE the duplicate check and BEFORE the interface check, so a
     * failed registration still evicts it. A definition of an interface is refused.
     */
    method RegisterPetiteBean(
      beanType: TypeId, name: Option<string>, scopeType: Option<ScopeKind>, wiringMode: Option<WiringMode>, define: bool)
      returns (r: Result<BeanDefinition, PetiteError>)
      requires Valid()
      modifies this`beans, this`scopes, this`providers, ScopeOf(ResolvedName(config, collaborators, beanType, name))
      ensures Valid()
      ensures var n := ResolvedName(config, collaborators, beanType, name);
        var prev := old(beans);
        n in prev ==> prev[n].scope.evicted == old(prev[n].scope.evicted) + [prev[n]]
      ensures var n := ResolvedName(config, collaborators, beanType, name);
        r.Err? ==> beans == old(beans) - {n} && providers == old(providers)
      ensures var n := ResolvedName(config, collaborators, beanType, name);
        r == Err(DuplicatedBeanName(n)) <==> n in old(beans) && config.detectDuplicatedBeanNames
      ensures var n := ResolvedName(config, collaborators, beanType, name);
        r == Err(InterfaceNotAllowed(beanType)) <==>
          !(n in old(beans) && config.detectDuplicatedBeanNames) && IsInterface(world, beanType)
      ensures var n := ResolvedName(config, collaborators, beanType, name);
        var kind := ResolvedScopeKind(config, collaborators, beanType, scopeType);
        r == Err(ScopeCreationFailed(kind)) <==>
          && !(n in old(beans) && config.detectDuplicatedBeanNames) && !IsInterface(world, beanType)
          && kind !in old(scopes) && !collaborators.scopeInstantiable(kind)
      ensures var kind := ResolvedScopeKind(config, collaborators, beanType, scopeType);
        && (r.Err? || kind in old(scopes) ==> scopes == old(scopes))
        && (r.Ok? ==> kind in scopes && r.value.scope == scopes[kind])
        && (r.Ok? && kind !in old(scopes) ==>
              fresh(r.value.scope) && r.value.scope.kind == kind && scopes == old(scopes)[kind := r.value.scope])
      ensures var n := ResolvedName(config, collaborators, beanType, name);
        r.Ok? ==>
          && fresh(r.value)
          && beans == old(beans)[n := r.value]
          && r.value.name == n && r.value.beanType == beanType
          && r.value.wiringMode == ResolvedWiringMode(config, collaborators, beanType, wiringMode)
          && providers == PutProviders(old(providers), collaborators.providerDefinitions(n, beanType))
          && (define ==>
                r.value.Points()
                == InjectionPoints(Some(collaborators.ctorInjectionPoint(beanType)), Some([]), None, Some([]), Some([])))
          && (!define ==> r.value.Points() == NoInjectionPoints)
    {
      var n := ResolvedName(config, collaborators, beanType, name);
      var mode := ResolvedWiringMode(config, collaborators, beanType, wiringMode);
      var kind := ResolvedScopeKind(config, collaborators, beanType, scopeType);
      var existing := RemoveBean(n);
      if existing.Some? && config.detectDuplicatedBeanNames {
        return Err(DuplicatedBeanName(n));
      }
      if IsInterface(world, beanType) {
        return Err(InterfaceNotAllowed(beanType));
      }
      var scope := ResolveScope(kind);
      if scope.Err? {
        return Err(scope.error);
      }
      var bd := DefineBean(n, beanType, scope.value, mode, define);
      r := Ok(bd);
    }

    /**
     * Stores a new definition under `name`, then the providers its type declares, and, when
     * `define` is set, gives it the constructor point and empty property, method and
     * init-method points (set points stay unset).
     */
    method DefineBean(name: string, beanType: TypeId, scope: Scope, mode: WiringMode, define: bool)
      returns (bd: BeanDefinition)
      requires Valid() && !IsInterface(world, beanType)
      modifies this`beans, this`providers
      ensures Valid()
      ensures fresh(bd) && beans == old(beans)[name := bd]
      ensures bd.name == name && bd.beanType == beanType && bd.scope == scope && bd.wiringMode == mode
      ensures providers == PutProviders(old(providers), collaborators.providerDefinitions(name, beanType))
      ensures define ==>
        bd.Points() == InjectionPoints(Some(collaborators.ctorInjectionPoint(beanType)), Some([]), None, Some([]), Some([]))
      ensures !define ==> bd.Points() == NoInjectionPoints
    {
      bd := new BeanDefinition(name, beanType, scope, mode);
      beans := beans[name := bd];
      PutProviderDefinitions(collaborators.providerDefinitions(name, beanType));
      if define {
        bd.ctor := Some(collaborators.ctorInjectionPoint(beanType));
        bd.properties := Some([]);
        bd.methods := Some([]);
        bd.initMethods := Some([]);
      }
    }

    /** Stores each provider definition under its name, a later one replacing an earlier one. */
    method PutProviderDefinitions(defs: seq<ProviderDefinition>)
      modifies this`providers
      ensures providers == PutProviders(old(providers), defs)
    {
      for i := 0 to |defs|
        invariant providers == PutProviders(old(providers), defs[..i])
      {
        assert defs[..i + 1][..i] == defs[..i];
        providers := providers[defs[i].name := defs[i]];
      }
      assert defs[..|defs|] == defs;
    }

    /** Removes the definition under `name`, telling its scope to evict it; none when absent. */
    method RemoveBean(name: string) returns (r: Option<BeanDefinition>)
      requires Valid()
      modifies this`beans, ScopeOf(name)
      ensures Valid()
      ensures name !in old(beans) ==> r.None? && beans == old(beans)
      ensures name in old(beans) ==> r == Some(old(beans)[name]) && beans == old(beans) - {name}
      ensures r.Some? ==> r.value.name == name && r.value.scope.evicted == old(r.value.scope.evicted) + [r.value]
    {
      if name !in beans {
        return None;
      }
      var bd := beans[name];
      beans := beans - {name};
      bd.ScopeRemove();
      r := Some(bd);
    }

    /** The names of the definitions whose type is exactly `t`. */
    method CollectNamesOfType(t: TypeId) returns (names: set<string>)
      requires Valid()
      ensures names == set n | n in beans && beans[n].beanType == t
    {
      names := {};
      var rest := beans.Values;
      while rest != {}
        invariant rest <= beans.Values
        invariant forall n :: n in names <==> exists d :: d in beans.Values - rest && d.beanType == t && d.name == n
        decreases rest
      {
        var d :| d in rest;
        if d.beanType == t {
          names := names + {d.name};
        }
        rest := rest - {d};
      }
      forall n | true
        ensures n in names <==> n in beans && beans[n].beanType == t
      {
        if n in beans && beans[n].beanType == t {
          assert beans[n] in beans.Values;
        }
      }
    }

    /** Removes every definition whose type equals `t`; definitions of any other type stay. */
    method RemoveBeansOfType(t: TypeId)
      requires Valid()
      modifies this`beans, BeanScopes()
      ensures Valid()
      ensures beans == map n | n in old(beans) && old(beans)[n].beanType != t :: old(beans)[n]
      ensures forall n :: n in old(beans) && old(beans)[n].beanType == t ==>
        old(beans)[n] in old(beans)[n].scope.evicted
      ensures forall s :: s in old(BeanScopes()) ==> EvictedSince(old(s.evicted), s.evicted, DefinitionsOfType(old(beans), t))
      ensures TotalBeans() == old(TotalBeans()) - |set n | n in old(beans) && old(beans)[n].beanType == t|
    {
      var names := CollectNamesOfType(t);
      ghost var before := beans;
      RemoveNamed(names, DefinitionsOfType(beans, t));
      RemainingBeans(before, beans, names, t);
      CountWithout(before, beans, names);
    }

    /**
     * Removes the registered names among `names`, one at a time in an unspecified order, each
     * through RemoveBean; every scope's log grows by allowed definitions only.
     */
    method RemoveNamed(names: set<string>, ghost allowed: set<BeanDefinition>)
      requires Valid()
      requires forall n :: n in names && n in beans ==> beans[n] in allowed
      modifies this`beans, BeanScopes()
      ensures Valid()
      ensures forall n :: n in beans <==> n in old(beans) && n !in names
      ensures forall n :: n in beans ==> beans[n] == old(beans)[n]
      ensures forall n :: n in names && n in old(beans) ==> old(beans)[n] in old(beans)[n].scope.evicted
      ensures forall s :: s in old(BeanScopes()) ==> EvictedSince(old(s.evicted), s.evicted, allowed)
    {
      ghost var before := beans;
      ghost var scopesBefore := BeanScopes();
      ghost var logsBefore: map<Scope, seq<BeanDefinition>> := map s: Scope | s in scopesBefore :: s.evicted;
      ghost var done: set<string> := {};
      var pending := names;
      while pending != {}
        invariant pending !! done && pending + done == names
        invariant Valid()
        invariant RemovedSoFar(before, done)
        invariant EvictionsTracked(scopesBefore, logsBefore, allowed, before, done)
        decreases pending
      {
        var n :| n in pending;
        if n in beans {
          assert beans[n].scope in scopesBefore;
          RemoveTracked(n, scopesBefore, logsBefore, allowed, before, done);
        } else {
          assert EvictionsTracked(scopesBefore, logsBefore, allowed, before, done + {n});
        }
        pending := pending - {n};
        done := done + {n};
      }
      forall s | s in scopesBefore
        ensures EvictedSince(old(s.evicted), s.evicted, allowed)
      {
        assert logsBefore[s] == old(s.evicted);
      }
    }

    /**
     * One step of RemoveNamed: removes the definition under `n`, an allowed one, and counts
     * `n` among the names done, keeping RemovedSoFar and EvictionsTracked.
     */
    method RemoveTracked(
      n: string, ghost scopes: set<Scope>, ghost logsBefore: map<Scope, seq<BeanDefinition>>,
      ghost allowed: set<BeanDefinition>, ghost before: map<string, BeanDefinition>, ghost done: set<string>)
      requires Valid() && RemovedSoFar(before, done) && n in beans
      requires beans[n] in allowed && beans[n].scope in scopes
      requires EvictionsTracked(scopes, logsBefore, allowed, before, done)
      modifies this`beans, ScopeOf(n)
      ensures Valid() && RemovedSoFar(before, done + {n})
      ensures EvictionsTracked(scopes, logsBefore, allowed, before, done + {n})
    {
      var bd := beans[n];
      label BeforeRemoval:
      var gone := RemoveBean(n);
      forall s | s in scopes
        ensures EvictedSince(logsBefore[s], s.evicted, allowed)
      {
        if s == bd.scope {
          EvictedSinceStep(logsBefore[s], old@BeforeRemoval(s.evicted), allowed, bd);
        }
      }
      forall m | m in done + {n} && m in before
        ensures before[m] in before[m].scope.evicted
      {
        var d := before[m];
        if d.scope == bd.scope {
          assert d.scope.evicted == old@BeforeRemoval(d.scope.evicted) + [bd];
        } else {
          assert d.scope.evicted == old@BeforeRemoval(d.scope.evicted);
        }
      }
    }

    // -------------------------------------------------------------- bean collections

    /** The names of every definition whose type is `t` or a subtype of it, each once. */
    method CollectNamesAssignableTo(t: TypeId) returns (list: seq<string>)
      ensures forall n :: n in list <==> n in beans && IsSubclass(world, beans[n].beanType, t)
      ensures NoDuplicates(list)
    {
      list := [];
      var rest := beans.Keys;
      while rest != {}
        invariant rest <= beans.Keys
        invariant forall n :: n in list <==> n in beans.Keys - rest && IsSubclass(world, beans[n].beanType, t)
        invariant NoDuplicates(list)
        decreases rest
      {
        var n :| n in rest;
        if IsSubclass(world, beans[n].beanType, t) {
          list := list + [n];
        }
        rest := rest - {n};
      }
    }

    /**
     * The names of the beans assignable to `t`, computed on the first call and cached; the
     * cache is never invalidated, so later calls return the first answer even after beans
     * are registered or removed.
     */
    method ResolveBeanNamesForType(t: TypeId) returns (r: seq<string>)
      modifies this`beanCollections
      ensures t in old(beanCollections) ==> r == old(beanCollections)[t] && beanCollections == old(beanCollections)
      ensures t !in old(beanCollections) ==>
        && (forall n :: n in r <==> n in beans && IsSubclass(world, beans[n].beanType, t))
        && NoDuplicates(r)
        && beanCollections == old(beanCollections)[t := r]
    {
      if t in beanCollections {
        return beanCollections[t];
      }
      r := CollectNamesAssignableTo(t);
      beanCollections := beanCollections[t := r];
    }

    // -------------------------------------------------------------- injection points

    /** Attaches the constructor chosen by SelectCtor among the declared constructors. */
    method RegisterPetiteCtorInjectionPoint(
      beanName: string, paramTypes: Option<seq<TypeId>>, references: Option<seq<string>>)
      returns (r: Outcome<PetiteError>)
      modifies DefinitionOf(beanName)
      ensures beanName !in beans ==> r == Fail(BeanNotFound(beanName))
      ensures beanName in beans ==>
        var bd := beans[beanName];
        var sel := SelectCtor(bd.beanType, CtorsOf(world.info(bd.beanType), true), paramTypes);
        && (sel.Err? ==> r == Fail(sel.error) && bd.Points() == old(bd.Points()))
        && (sel.Ok? ==> r == Pass && bd.Points() == old(bd.Points()).(
              ctor := Some(CtorInjectionPoint(Some(sel.value), collaborators.references(references)))))
    {
      if beanName !in beans {
        return Fail(BeanNotFound(beanName));
      }
      var bd := beans[beanName];
      var refs := collaborators.references(references);
      var ctors := CtorsOf(world.info(bd.beanType), true);
      var sel := SelectCtor(bd.beanType, ctors, paramTypes);
      if sel.Err? {
        return Fail(sel.error);
      }
      bd.ctor := Some(CtorInjectionPoint(Some(sel.value), refs));
      r := Pass;
    }

    /** Appends a property injection point for the field of that name, declared or inherited. */
    method RegisterPetitePropertyInjectionPoint(beanName: string, property: string, reference: Option<string>)
      returns (r: Outcome<PetiteError>)
      modifies DefinitionOf(beanName)
      ensures beanName !in beans ==> r == Fail(BeanNotFound(beanName))
      ensures beanName in beans ==>
        var bd := beans[beanName];
        var field := FirstField(FieldsOf(world.info(bd.beanType), accessibleOnly, true), property);
        var refs := if reference.Some? then Some([reference.value]) else None;
        && (field.None? ==> r == Fail(PropertyNotFound(bd.beanType, property)) && bd.Points() == old(bd.Points()))
        && (field.Some? ==> r == Pass && bd.Points() == old(bd.Points()).(
              properties := Some(Extend(old(bd.properties), [PropertyInjectionPoint(field.value, refs)]))))
    {
      if beanName !in beans {
        return Fail(BeanNotFound(beanName));
      }
      var bd := beans[beanName];
      var refs := if reference.Some? then Some([reference.value]) else None;
      var field := FirstField(FieldsOf(world.info(bd.beanType), accessibleOnly, true), property);
      if field.None? {
        return Fail(PropertyNotFound(bd.beanType, property));
      }
      bd.AddPropertyInjectionPoint(PropertyInjectionPoint(field.value, refs));
      r := Pass;
    }

    /** Appends a set injection point for the field of that name. */
    method RegisterPetiteSetInjectionPoint(beanName: string, property: string)
      returns (r: Outcome<PetiteError>)
      modifies DefinitionOf(beanName)
      ensures beanName !in beans ==> r == Fail(BeanNotFound(beanName))
      ensures beanName in beans ==>
        var bd := beans[beanName];
        var field := FirstField(FieldsOf(world.info(bd.beanType), accessibleOnly, true), property);
        && (field.None? ==> r == Fail(PropertyNotFound(bd.beanType, property)) && bd.Points() == old(bd.Points()))
        && (field.Some? ==> r == Pass && bd.Points() == old(bd.Points()).(
              sets := Some(Extend(old(bd.sets), [SetInjectionPoint(field.value)]))))
    {
      if beanName !in beans {
        return Fail(BeanNotFound(beanName));
      }
      var bd := beans[beanName];
      var field := FirstField(FieldsOf(world.info(bd.beanType), accessibleOnly, true), property);
      if field.None? {
        return Fail(PropertyNotFound(bd.beanType, property));
      }
      bd.AddSetInjectionPoint(SetInjectionPoint(field.value));
      r := Pass;
    }

    /** Appends a method injection point for the method chosen by SelectMethod. */
    method RegisterPetiteMethodInjectionPoint(
      beanName: string, methodName: string, arguments: Option<seq<TypeId>>, references: Option<seq<string>>)
      returns (r: Outcome<PetiteError>)
      modifies DefinitionOf(beanName)
      ensures beanName !in beans ==> r == Fail(BeanNotFound(beanName))
      ensures beanName in beans ==>
        var bd := beans[beanName];
        var sel := SelectMethod(bd.beanType, methodName, Lookup(MethodsFor(bd.beanType), methodName), arguments);
        && (sel.Err? ==> r == Fail(sel.error) && bd.Points() == old(bd.Points()))
        && (sel.Ok? ==> r == Pass && bd.Points() == old(bd.Points()).(
              methods := Some(Extend(old(bd.methods),
                                     [MethodInjectionPoint(sel.value, collaborators.references(references))]))))
    {
      if beanName !in beans {
        return Fail(BeanNotFound(beanName));
      }
      var bd := beans[beanName];
      var refs := collaborators.references(references);
      var named := Lookup(MethodsFor(bd.beanType), methodName);
      var sel := SelectMethod(bd.beanType, methodName, named, arguments);
      if sel.Err? {
        return Fail(sel.error);
      }
      bd.AddMethodInjectionPoint(MethodInjectionPoint(sel.value, refs));
      r := Pass;
    }

    /** Builds one init-method point per name, ordinal = position; fails at the first missing method. */
    method CollectInitMethodPoints(beanType: TypeId, names: seq<string>, strategy: InitMethodInvocationStrategy)
      returns (r: Result<seq<InitMethodPoint>, PetiteError>)
      ensures r == InitMethodPoints(MethodsFor(beanType), beanType, names, strategy)
    {
      var methods := MethodsFor(beanType);
      var points := new InitMethodPoint[|names|];
      for i := 0 to |names|
        invariant InitMethodPoints(methods, beanType, names[..i], strategy) == Ok(points[..i])
      {
        InitMethodPointsStep(methods, beanType, names, i, strategy);
        var m := InitMethod(methods, names[i]);
        if m.None? {
          InitMethodPointsPrefixErr(methods, beanType, names, i + 1, strategy);
          return Err(InitMethodNotFound(beanType, names[i]));
        }
        ghost var before := points[..i];
        points[i] := InitMethodPoint(m.value, i, strategy);
        assert points[..i + 1] == before + [points[i]];
      }
      assert names[..|names|] == names;
      assert points[..] == points[..|names|];
      r := Ok(points[..]);
    }

    /** Attaches init-method points all-or-nothing: on a missing method nothing is added. */
    method RegisterPetiteInitMethods(
      beanName: string, strategy: InitMethodInvocationStrategy, initMethodNames: Option<seq<string>>)
      returns (r: Outcome<PetiteError>)
      modifies DefinitionOf(beanName)
      ensures beanName !in beans ==> r == Fail(BeanNotFound(beanName))
      ensures beanName in beans ==>
        var bd := beans[beanName];
        var names := if initMethodNames.Some? then initMethodNames.value else [];
        var points := InitMethodPoints(MethodsFor(bd.beanType), bd.beanType, names, strategy);
        && (points.Err? ==> r == Fail(points.error) && bd.Points() == old(bd.Points()))
        && (points.Ok? ==> r == Pass && bd.Points() == old(bd.Points()).(
              initMethods := Some(Extend(old(bd.initMethods), points.value))))
    {
      if beanName !in beans {
        return Fail(BeanNotFound(beanName));
      }
      var bd := beans[beanName];
      var names := if initMethodNames.Some? then initMethodNames.value else [];
      var points := CollectInitMethodPoints(bd.beanType, names, strategy);
      if points.Err? {
        return Fail(points.error);
      }
      bd.AddInitMethodPoints(points.value);
      r := Pass;
    }

    // -------------------------------------------------------------- providers

    /** Registers an instance-method provider on an existing bean, replacing any provider of that name. */
    method RegisterPetiteProvider(providerName: string, beanName: string, methodName: string, arguments: seq<TypeId>)
      returns (r: Outcome<PetiteError>)
      modifies this`providers
      ensures beanName !in beans ==> r == Fail(BeanNotFound(beanName)) && providers == old(providers)
      ensures beanName in beans ==>
        var m := MethodWithParams(Lookup(MethodsFor(beans[beanName].beanType), methodName), arguments);
        && (m.None? ==> r == Fail(ProviderMethodNotFound(methodName)) && providers == old(providers))
        && (m.Some? ==> r == Pass && providers == old(providers)[providerName := InstanceProvider(providerName, beanName, m.value)])
    {
      if beanName !in beans {
        return Fail(BeanNotFound(beanName));
      }
      var beanType := beans[beanName].beanType;
      var m := MethodWithParams(Lookup(MethodsFor(beanType), methodName), arguments);
      if m.None? {
        return Fail(ProviderMethodNotFound(methodName));
      }
      providers := providers[providerName := InstanceProvider(providerName, beanName, m.value)];
      r := Pass;
    }

    /** Registers a static-method provider on a type, replacing any provider of that name. */
    method RegisterPetiteStaticProvider(
      providerName: string, providerType: TypeId, staticMethodName: string, arguments: seq<TypeId>)
      returns (r: Outcome<PetiteError>)
      modifies this`providers
      ensures var m := MethodWithParams(Lookup(MethodsFor(providerType), staticMethodName), arguments);
        && (m.None? ==> r == Fail(ProviderMethodNotFound(staticMethodName)) && providers == old(providers))
        && (m.Some? ==> r == Pass && providers == old(providers)[providerName := StaticProvider(providerName, m.value)])
    {
      var m := MethodWithParams(Lookup(MethodsFor(providerType), staticMethodName), arguments);
      if m.None? {
        return Fail(ProviderMethodNotFound(staticMethodName));
      }
      providers := providers[providerName := StaticProvider(providerName, m.value)];
      r := Pass;
    }

    // -------------------------------------------------------------- statistics

    /**
     * The number of registered beans, one per distinct name. RemoveBeansOfType states how it
     * changes it; CountWithoutName and CountWithName give it for RemoveBean and RegisterPetiteBean.
     */
    function TotalBeans(): (r: nat)
      reads this
    {
      |beans|
    }
  }
}
