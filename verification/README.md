# Petite bean registry and class descriptor, in Dafny

This project models two cooperating in-memory components of the Jodd inversion-of-control
container and proves properties of them.

- **`PetiteBeans`** is the base layer of the Petite container. It keeps four tables:
  - bean definitions by name;
  - shared scope instances by scope class;
  - provider definitions by provider name;
  - a cache of bean-name arrays per type.

  It registers and removes beans, resolves scopes on demand, and memoizes the names of the
  beans assignable to a type. It also attaches constructor, property, set, method and
  init-method injection points to an existing definition.
- **`ClassDescriptor`** is the lazily filled description of one Java type. Its
  classification flags are fixed at construction. It has four caches: fields, methods,
  bean properties and constructors. Each cache is filled once behind a null guard, and each
  is split into a public partition and an all partition. The getters choose a partition
  with their `declared` flag.

Modules:

- `Wrappers` holds the Option, Result and Outcome types.
- `Reflection` is an abstract picture of Java reflection:
  - types are opaque ids;
  - each type has a record of its fields, methods and constructors;
  - `IsInterface` is a predicate and `IsSubclass` is a relation.
- `MemberIndex` defines the name-keyed member index a scan builds. It has a reference
  definition `Named` and lemmas that tie the two together.
- `Introspector` holds two things:
  - pure functions that say what each descriptor cache holds once filled;
  - the `ClassDescriptor` class, whose `Inspect*` methods fill those caches with loops and
    are proved to produce exactly those contents.
- `Petite` holds the `Scope`, `BeanDefinition` and `PetiteBeans` classes. Registry maps
  are `map` fields updated in place. Definitions are objects whose injection-point fields
  are assigned by the registration methods.

Java `null` in an argument or a result is `None`. A thrown `PetiteException` is an `Err` or
`Fail` value naming its cause. Collaborators whose code lies outside the modelled files are
uninterpreted functions in the `Collaborators` value given to the registry. These cover:

- annotation-based name, wiring and scope resolution;
- whether a scope class can be instantiated;
- provider resolution;
- constructor injection-point resolution;
- reference conversion.

## Model

| member | source | states |
|---|---|---|
| Introspector.Int32Inc | jodd-bean/src/main/java/jodd/introspector/ClassDescriptor.java:61-63 | Java `int` increment: the result is the input plus one modulo 2^32, and exactly the input plus one below the maximum |
| Introspector.ClassDescriptor.constructor | jodd-bean/src/main/java/jodd/introspector/ClassDescriptor.java:40-48 | the array, map, list, set and collection flags are computed once from the type (constants afterwards); usage count is 0; every cache is empty |
| Introspector.ClassDescriptor.IncreaseUsageCount | jodd-bean/src/main/java/jodd/introspector/ClassDescriptor.java:61-63 | the usage count goes up by one (wrapping as a Java int); nothing else changes |
| MemberIndex.Append | jodd-bean/src/main/java/jodd/introspector/ClassDescriptor.java:139-146 | adding a member under a name appends it to that name's list and leaves every other list as it was |
| MemberIndex.FilterByMembers | jodd-bean/src/main/java/jodd/introspector/ClassDescriptor.java:139-146 | a filtered list holds exactly the members of the original that pass the filter |
| MemberIndex.IndexLookup | jodd-bean/src/main/java/jodd/introspector/ClassDescriptor.java:139-146 | the list a scan stores under a name is exactly the kept members of that name in scan order, and the name is present iff that list is non-empty |
| MemberIndex.NamedMembers | jodd-bean/src/main/java/jodd/introspector/ClassDescriptor.java:139-146 | a member is listed under a name iff it was scanned, has that name and is kept by the partition |
| MemberIndex.NamedPublicIsFiltered | jodd-bean/src/main/java/jodd/introspector/ClassDescriptor.java:197-204 | the public list under a name is the all list under that name with the non-public members dropped |
| MemberIndex.PublicIndexWithinAll | jodd-bean/src/main/java/jodd/introspector/ClassDescriptor.java:139-146 | public partition within the all partition: every public name is an all name, and its public list is its all list restricted to public members |
| MemberIndex.ScanPartitions | jodd-bean/src/main/java/jodd/introspector/ClassDescriptor.java:197-204 | one pass over the scanned members fills the public partition and the all partition at once; each equals the index that appending the kept members one by one builds |
| MemberIndex.ScannedMembersIndexed | jodd-bean/src/main/java/jodd/introspector/ClassDescriptor.java:197-204 | every scanned member the partition keeps is listed under its own name |
| MemberIndex.IndexedMembersScanned | jodd-bean/src/main/java/jodd/introspector/ClassDescriptor.java:197-204 | every listed member was scanned, carries the name it is listed under and is kept |
| Introspector.ClassDescriptor.InspectFields | jodd-bean/src/main/java/jodd/introspector/ClassDescriptor.java:129-150 | idempotent once the all cache is set; otherwise both partitions are filled with what a scan yields; every scanned field is in the all partition; each public list is its all list restricted to public fields |
| Introspector.FieldLookupSpec | jodd-bean/src/main/java/jodd/introspector/ClassDescriptor.java:155-160 | a field lookup finds a field iff the selected partition (all when declared, public otherwise) scanned a field of that name, and what it finds is such a field |
| Introspector.ClassDescriptor.GetFieldDescriptor | jodd-bean/src/main/java/jodd/introspector/ClassDescriptor.java:155-160 | fills the fields cache, then returns the first field of that name in the partition `declared` selects; present iff such a field was scanned |
| Introspector.ClassDescriptor.InspectMethods | jodd-bean/src/main/java/jodd/introspector/ClassDescriptor.java:187-208 | idempotent once the all cache is set; every scanned method is in the all partition; each public list is its all list restricted to public methods |
| Introspector.WithParams | jodd-bean/src/main/java/jodd/introspector/ClassDescriptor.java:236-241 | a signature lookup (of methods and of constructors alike) returns a listed member with exactly those parameter types, or none when no listed member has them |
| Introspector.MethodsNamedSpec | jodd-bean/src/main/java/jodd/introspector/ClassDescriptor.java:256-261 | the methods listed under a name are exactly the scanned methods of that name in the selected partition, in scan order |
| Introspector.MethodLookupSpec | jodd-bean/src/main/java/jodd/introspector/ClassDescriptor.java:236-241 | a method lookup by name and signature succeeds iff the selected partition scanned such a method, and returns one |
| Introspector.ClassDescriptor.GetMethod | jodd-bean/src/main/java/jodd/introspector/ClassDescriptor.java:236-241 | fills the methods cache, then returns a method of that name and exact signature from the selected partition; present iff one was scanned |
| Introspector.ClassDescriptor.GetAllMethods | jodd-bean/src/main/java/jodd/introspector/ClassDescriptor.java:256-261 | fills the methods cache, then returns exactly the scanned methods of that name in the selected partition, in scan order |
| Introspector.PropertyKey | jodd-bean/src/main/java/jodd/introspector/ClassDescriptor.java:297-309 | a property method is keyed `-` plus the property name when it is a getter, `+` plus the name otherwise (getter test first) |
| Introspector.PropertiesMethodsIndex | jodd-bean/src/main/java/jodd/introspector/ClassDescriptor.java:289-325 | the method part of a properties partition is the member index of the non-static getter/setter methods keyed by their property key |
| Introspector.PropertyMethodsSound | jodd-bean/src/main/java/jodd/introspector/ClassDescriptor.java:289-325 | every method stored in a properties partition was scanned, is non-static, is a getter or setter kept by that partition, and is stored under its own key |
| Introspector.PropertyMethodsComplete | jodd-bean/src/main/java/jodd/introspector/ClassDescriptor.java:289-325 | every scanned non-static getter or setter kept by the partition is stored under its key |
| Introspector.PropertyExists | jodd-bean/src/main/java/jodd/introspector/ClassDescriptor.java:289-325 | a property exists in a partition iff some kept non-static getter or setter names it, and an existing property has at least one half |
| Introspector.PropertyGetterHalf | jodd-bean/src/main/java/jodd/introspector/ClassDescriptor.java:289-325 | a property's recorded getter is a kept method classified as that property's getter, and one is recorded iff such a method exists |
| Introspector.PropertySetterHalf | jodd-bean/src/main/java/jodd/introspector/ClassDescriptor.java:289-325 | a property's recorded setter is a kept method classified as that property's setter (never a getter, since the getter test wins), and one is recorded iff such a method exists |
| Introspector.PublicPropertiesWithinAll | jodd-bean/src/main/java/jodd/introspector/ClassDescriptor.java:289-325 | the public properties partition refines the all partition: public method lists are all lists restricted to public methods, and public property names are all property names |
| Introspector.ClassDescriptor.InspectProperties | jodd-bean/src/main/java/jodd/introspector/ClassDescriptor.java:281-330 | idempotent once the public cache is set; otherwise fills both partitions with what a scan yields and, as a side effect, the methods cache exactly when some property method exists (an empty methods cache stays empty otherwise); an already filled methods cache is kept |
| Introspector.ClassDescriptor.GetPropertySetter | jodd-bean/src/main/java/jodd/introspector/ClassDescriptor.java:339-348 | the setter recorded for the property in the selected partition; none iff no non-static setter of that property is kept by the partition |
| Introspector.ClassDescriptor.GetPropertyGetter | jodd-bean/src/main/java/jodd/introspector/ClassDescriptor.java:350-359 | the getter recorded for the property in the selected partition; none iff no non-static getter of that property is kept by the partition |
| Introspector.CtorsOf | jodd-bean/src/main/java/jodd/introspector/ClassDescriptor.java:456-475 | the constructors of a partition are exactly the declared constructors, restricted to the public ones for the public partition |
| Introspector.ClassDescriptor.InspectCtors | jodd-bean/src/main/java/jodd/introspector/ClassDescriptor.java:456-475 | runs once, guarded by the all cache; the all partition is the declared constructors and the public partition holds exactly the public ones |
| Introspector.ClassDescriptor.GetCtor | jodd-bean/src/main/java/jodd/introspector/ClassDescriptor.java:493-498 | fills the constructors cache, then returns a constructor with exactly those parameter types from the selected partition; present iff one exists |
| Introspector.ClassDescriptor.GetAllCtors | jodd-bean/src/main/java/jodd/introspector/ClassDescriptor.java:522-527 | fills the constructors cache, then returns the declared constructors, or only the public ones when `declared` is false |
| Petite.PetiteBeans.ResolveScope | jodd-petite/src/main/java/jodd/petite/PetiteBeans.java:102-116 | a registered scope is returned with no change; otherwise a failed instantiation is an error with no change, or one fresh instance is stored under the kind and returned, so every later call returns that same instance |
| Petite.PetiteBeans.RegisterScope | jodd-petite/src/main/java/jodd/petite/PetiteBeans.java:125-127 | the scope is stored under its kind, replacing any earlier one |
| Petite.PetiteBeans.LookupBeanDefinition | jodd-petite/src/main/java/jodd/petite/PetiteBeans.java:135-137 | a definition is found iff the name is registered, and it is the one registered under that name |
| Petite.PetiteBeans.LookupBeanDefinitions | jodd-petite/src/main/java/jodd/petite/PetiteBeans.java:142-150 | the definition of the first registered name in the list; none iff no name in the list is registered |
| Petite.PetiteBeans.LookupExistingBeanDefinition | jodd-petite/src/main/java/jodd/petite/PetiteBeans.java:155-161 | the definition registered under the name, or "bean not found" iff there is none |
| Petite.ResolvedName | jodd-petite/src/main/java/jodd/petite/PetiteBeans.java:195-197 | an explicit bean name is used as given |
| Petite.ResolvedWiringMode | jodd-petite/src/main/java/jodd/petite/PetiteBeans.java:198-203 | an explicit non-default wiring mode is kept; DEFAULT is replaced by the configured default |
| Petite.ResolvedScopeKind | jodd-petite/src/main/java/jodd/petite/PetiteBeans.java:204-209 | an explicit scope other than DefaultScope is kept; DefaultScope is replaced by the configured default scope |
| Petite.PetiteBeans.RegisterPetiteBean | jodd-petite/src/main/java/jodd/petite/PetiteBeans.java:189-256 | changes only the bean, scope and provider tables and the scope of the resolved name's old bean; any bean of the resolved name is removed and evicted from its scope first, even when registration then fails; a duplicate name under duplicate detection, an interface type, or a scope that cannot be created is an error that leaves providers unchanged; on success the new definition is stored under the name with the resolved wiring mode and scope, providers are updated, and `define` sets the empty markers |
| Petite.PetiteBeans.DefineBean | jodd-petite/src/main/java/jodd/petite/PetiteBeans.java:234-252 | the new definition is stored under its name, the type's providers are stored, and `define` sets the constructor point and empty property, method and init-method points |
| Petite.PutProvidersKeys | jodd-petite/src/main/java/jodd/petite/PetiteBeans.java:238-244 | after storing provider definitions, a name is present iff it was present before or some definition carries it |
| Petite.PutProvidersUntouched | jodd-petite/src/main/java/jodd/petite/PetiteBeans.java:238-244 | a provider name that no stored definition carries keeps its earlier provider |
| Petite.PutProvidersLastWins | jodd-petite/src/main/java/jodd/petite/PetiteBeans.java:238-244 | a name carried by stored definitions holds the last definition of that name, replacing earlier ones |
| Petite.PetiteBeans.PutProviderDefinitions | jodd-petite/src/main/java/jodd/petite/PetiteBeans.java:238-244 | each provider definition is stored under its name, in order |
| Petite.PetiteBeans.RemoveBean | jodd-petite/src/main/java/jodd/petite/PetiteBeans.java:284-291 | an absent name returns none and changes nothing; a present name removes exactly that key, tells the definition's scope to evict it exactly once and returns it |
| Petite.PetiteBeans.CollectNamesOfType | jodd-petite/src/main/java/jodd/petite/PetiteBeans.java:263-272 | the collected names are exactly those whose definition has exactly the given type |
| Petite.PetiteBeans.RemoveBeansOfType | jodd-petite/src/main/java/jodd/petite/PetiteBeans.java:263-277 | every definition of exactly that type is removed and evicted from its scope; every definition of another type stays, unchanged; each scope's log keeps its old entries and grows only by removed definitions of that type; the bean count drops by the number of definitions of that type |
| Petite.PetiteBeans.RemoveNamed | jodd-petite/src/main/java/jodd/petite/PetiteBeans.java:274-276 | the names among the given set are removed one by one through the single-bean removal; the other definitions stay unchanged, each removed one is in its scope's log, and the logs grow only by allowed definitions |
| Petite.PetiteBeans.CollectNamesAssignableTo | jodd-petite/src/main/java/jodd/petite/PetiteBeans.java:304-313 | the list holds exactly the names whose definition's type is a subclass of the given type, each once |
| Petite.PetiteBeans.ResolveBeanNamesForType | jodd-petite/src/main/java/jodd/petite/PetiteBeans.java:298-323 | a cached answer is returned unchanged, even if beans have changed since; otherwise the names of exactly the beans assignable to the type, without repetition, are computed and cached |
| Petite.SelectCtor | jodd-petite/src/main/java/jodd/petite/PetiteBeans.java:341-355 | without parameter types: success iff exactly one declared constructor, ambiguity iff more than one, "not found" iff none; with parameter types: success iff a constructor matches them exactly |
| Petite.PetiteBeans.RegisterPetiteCtorInjectionPoint | jodd-petite/src/main/java/jodd/petite/PetiteBeans.java:334-358 | unknown bean is "bean not found"; the constructor selection's error is returned with the definition unchanged; otherwise only the constructor point changes, to the selected constructor and the converted references |
| Petite.PetiteBeans.RegisterPetitePropertyInjectionPoint | jodd-petite/src/main/java/jodd/petite/PetiteBeans.java:367-381 | unknown bean is "bean not found"; a missing field in the all partition is "property not found" with the definition unchanged; otherwise exactly one property point is appended |
| Petite.PetiteBeans.RegisterPetiteSetInjectionPoint | jodd-petite/src/main/java/jodd/petite/PetiteBeans.java:389-401 | unknown bean is "bean not found"; a missing field is "property not found" with the definition unchanged; otherwise exactly one set point is appended |
| Petite.SelectMethod | jodd-petite/src/main/java/jodd/petite/PetiteBeans.java:417-430 | without argument types: success iff exactly one method of that name, ambiguity iff more than one, "not found" iff none; with argument types: success iff a method matches them exactly |
| Petite.PetiteBeans.RegisterPetiteMethodInjectionPoint | jodd-petite/src/main/java/jodd/petite/PetiteBeans.java:411-434 | unknown bean is "bean not found"; the method selection's error is returned with the definition unchanged; otherwise exactly one method point is appended |
| Petite.InitMethodPointsStep | jodd-petite/src/main/java/jodd/petite/PetiteBeans.java:455-461 | one more name either extends the points by that name's method at its position or fails naming it; an earlier failure persists |
| Petite.InitMethodPointsOk | jodd-petite/src/main/java/jodd/petite/PetiteBeans.java:451-463 | init points are built iff every name has a no-argument method |
| Petite.InitMethodPointsAt | jodd-petite/src/main/java/jodd/petite/PetiteBeans.java:451-463 | one point per name; the i-th point carries the i-th name's no-argument method and ordinal i |
| Petite.InitMethodPointsFirstMissing | jodd-petite/src/main/java/jodd/petite/PetiteBeans.java:451-463 | a failure names the first name without a no-argument method |
| Petite.InitMethodPointsPrefixErr | jodd-petite/src/main/java/jodd/petite/PetiteBeans.java:451-463 | once a prefix of the names fails, the whole list fails with that same error |
| Petite.PetiteBeans.CollectInitMethodPoints | jodd-petite/src/main/java/jodd/petite/PetiteBeans.java:451-461 | the array loop yields exactly the all-or-nothing init points of the names |
| Petite.PetiteBeans.RegisterPetiteInitMethods | jodd-petite/src/main/java/jodd/petite/PetiteBeans.java:443-464 | unknown bean is "bean not found"; a missing init method fails with the definition unchanged; otherwise only the init-method points change, extended by all points at once |
| Petite.PetiteBeans.RegisterPetiteProvider | jodd-petite/src/main/java/jodd/petite/PetiteBeans.java:476-495 | unknown bean is "bean not found" and a missing method is "provider method not found", both with providers unchanged; otherwise the provider is stored under its name, replacing any earlier one |
| Petite.PetiteBeans.RegisterPetiteStaticProvider | jodd-petite/src/main/java/jodd/petite/PetiteBeans.java:505-516 | a missing method is "provider method not found" with providers unchanged; otherwise the static provider is stored under its name, replacing any earlier one |
| Petite.CountWithoutName | jodd-petite/src/main/java/jodd/petite/PetiteBeans.java:284-291 | the bean count after RemoveBean: one less when the name was registered, unchanged otherwise |
| Petite.CountWithName | jodd-petite/src/main/java/jodd/petite/PetiteBeans.java:235 | the bean count after a successful registration: one more unless the name was already registered |
| Petite.CountWithout | jodd-petite/src/main/java/jodd/petite/PetiteBeans.java:263-277 | removing a set of registered names lowers the bean count by the number of those names |
| Petite.Extend | jodd-petite/src/main/java/jodd/petite/PetiteBeans.java:380 | appending to a possibly unset array keeps the old points first and adds the new ones after them |

## Left out

- Java reflection is replaced by an abstract record per type. This covers `ReflectUtil.forceAccess`, the collection of accessible and supported members, and the `isSubclass` test. Accessibility bypass has no logical content.
- Logging through SLF4J is left out.
- `PetiteUtil.newInstance` is a fresh allocation that fails when the collaborator `scopeInstantiable` says so.
- The following are uninterpreted functions. Their code is not part of this model:
  - `PetiteUtil` name, wiring and scope resolution;
  - `PetiteResolvers` provider and constructor resolution;
  - `PetiteUtil.convertRefToReferences`;
  - `InjectionPointFactory`.
- `BeanDefinition.java`, `Scope` implementations, and the `Fields`, `Methods`, `Properties` and `Ctors` containers are not part of this model:
  - a definition's `add*` methods append to a possibly null array;
  - `scopeRemove` is recorded as one entry in the scope's eviction log;
  - a container is a map from name to the members added under it, and a single-member lookup takes the first one.
- `ClassIntrospector.lookup` is not part of this model. The registry reads the all partition of a fully inspected descriptor through the pure views `FieldsOf`, `MethodsOf` and `CtorsOf`, and the `ClassDescriptor` getters are proved to return exactly those views.
- Introspector.ClassDescriptor.InspectProperties: a property half holds the getter or setter method itself, not the method descriptor re-looked-up by signature. When two methods have the same property key, the later one is kept, as a map put does.
- Petite.PetiteBeans.RegisterPetiteProvider: `arguments` is a sequence, never null. What `Methods.getMethod` does with null parameter types is not shown. The same holds for Petite.PetiteBeans.RegisterPetiteStaticProvider.
- Petite.PetiteBeans.RegisterPetiteBean: the type is never null, so the null guard on the interface check is not modelled.
- Petite.PetiteBeans.RegisterPetiteBean: provider resolution (`providerDefinitions`) and constructor injection-point resolution (`ctorInjectionPoint`) are total functions that never throw. The Java registration can fail after `beans.put`: the definition then stays registered, possibly with only some of its providers stored and without the empty injection-point markers. The model does not capture that partial outcome.
- Introspector.ClassDescriptor.GetFieldDescriptor: the class comment promises that a public member of a public class is preferred over others. The model does not state that preference. It returns the first field of that name in the partition `declared` selects, which is what the `Fields` container it reads does.
- Petite.PetiteBeans.TotalBeans: the size of the bean map. Its contract is given by the lemmas CountWithoutName, CountWithName and CountWithout and by RemoveBeansOfType. RemoveBean and RegisterPetiteBean do not restate the count in their own contracts. Their map-level postconditions together with those lemmas give it.
- `StringPool.EMPTY_ARRAY` for an empty name list is the empty sequence. Sharing one array instance has no logical content.
- Parameter handling is left out: `defineParameter`, `getParameter`, `resolveBeanParams` and both `defineParameters` overloads. These are thin wrappers over `ParamManager` and `Props`, which are not part of this model.
- `getTotalScopes`, `getBeanNames`, `isBeanNameRegistered` and `resolveBeanName` are one-line accessors outside the modelled set.
- The ClassDescriptor getters outside the modelled set are left out: `getAllFieldDescriptors`, `getMethodsCount`, `getMethod(name, declared)`, `getMethodDescriptor`, `getAllMethods(declared)`, `getPropertyDescriptor`, the `getBeanSetter`/`getBeanGetter` family and `getDefaultCtor`.
- Concurrency is left out. The lazy guards are unsynchronized; the model is single-threaded.

Where the documentation and the code differ, the model follows the code:

- Provider registration looks the method up by name and the given argument types, not by name alone.
- The per-type name cache is never invalidated, so it can go stale after beans are registered or removed.
