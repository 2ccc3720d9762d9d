/**
 * The lazy per-type descriptor: classification flags fixed at construction and four caches
 * (fields, methods, properties, constructors), each filled once behind a null guard and
 * split into a public partition and an all partition.
 *
 * The first half of the module defines, as pure functions, what each cache holds once it is
 * filled; the ClassDescriptor class fills the caches imperatively and is proved to agree.
 */
module Introspector {
  import opened Wrappers
  import opened Reflection
  import opened MemberIndex

  // ---------------------------------------------------------------- Java int

  newtype int32 = x: int | -0x8000_0000 <= x < 0x8000_0000

  /** Java's `++` on an int: two's-complement increment, wrapping at the top. */
  function Int32Inc(x: int32): (r: int32)
    ensures (r as int - x as int - 1) % 0x1_0000_0000 == 0
    ensures x as int < 0x7FFF_FFFF ==> r as int == x as int + 1
  {
    if x == 0x7FFF_FFFF then -0x8000_0000 else x + 1
  }

  // ---------------------------------------------------------------- member keys

  function FieldName(f: Field): string { f.name }
  predicate FieldIsPublic(f: Field) { f.isPublic }
  function MethodName(m: Method): string { m.name }
  function MethodParams(m: Method): seq<TypeId> { m.params }
  function CtorParams(c: Ctor): seq<TypeId> { c.params }
  predicate CtorIsPublic(c: Ctor) { c.isPublic }
  predicate MethodIsPublic(m: Method) { m.isPublic }

  /** The members a descriptor scans: the accessible ones, or all supported ones. */
  function ScannedFields(info: TypeInfo, accessibleOnly: bool): seq<Field> {
    if accessibleOnly then info.accessibleFields else info.supportedFields
  }

  function ScannedMethods(info: TypeInfo, accessibleOnly: bool): seq<Method> {
    if accessibleOnly then info.accessibleMethods else info.supportedMethods
  }

  // ---------------------------------------------------------------- properties

  /** How the bean naming convention classifies a method. */
  datatype Accessor = Getter(property: string) | Setter(property: string)

  /** The getter test is tried first; only a method that is not a getter may be a setter. */
  function Classify(m: Method): Option<Accessor> {
    if m.getterName.Some? then Some(Getter(m.getterName.value))
    else if m.setterName.Some? then Some(Setter(m.setterName.value))
    else None
  }

  /** Non-static methods classified as getter or setter contribute to properties. */
  predicate IsPropertyMethod(m: Method) {
    !m.isStatic && Classify(m).Some?
  }

  /** The key a property method is stored under: `-name` for a getter, `+name` for a setter. */
  function PropertyKey(m: Method): (k: string)
    ensures Classify(m).Some? ==>
      && |k| >= 1
      && (k[0] == '-' <==> m.getterName.Some?)
      && (k[0] == '+' <==> m.getterName.None?)
      && k[1..] == Classify(m).value.property
  {
    match Classify(m)
    case Some(Getter(p)) => "-" + p
    case Some(Setter(p)) => "+" + p
    case None => ""
  }

  /** A property: its read half and its write half, each possibly missing. */
  datatype PropertyDescriptor = PropertyDescriptor(getter: Option<Method>, setter: Option<Method>)

  /** One partition of the properties cache: methods by key, and the paired descriptors by name. */
  datatype Properties = Properties(methods: map<string, seq<Method>>, props: map<string, PropertyDescriptor>)

  const NoProperties := Properties(map[], map[])

  /** Records `m` as one half of the property `a` names. */
  function WithAccessor(props: map<string, PropertyDescriptor>, a: Accessor, m: Method)
    : map<string, PropertyDescriptor>
  {
    var pd := if a.property in props then props[a.property] else PropertyDescriptor(None, None);
    props[a.property := match a
      case Getter(_) => pd.(getter := Some(m))
      case Setter(_) => pd.(setter := Some(m))]
  }

  /** Whether the partition (public only, or all) records method `m` as a property half. */
  predicate Qualifies(m: Method, publicOnly: bool) {
    IsPropertyMethod(m) && Kept(m, MethodIsPublic, publicOnly)
  }

  /** The properties cache a scan of `ms` builds for one partition. */
  function PropertiesOf(ms: seq<Method>, publicOnly: bool): Properties
    decreases |ms|
  {
    if ms == [] then NoProperties
    else
      var p := PropertiesOf(ms[..|ms| - 1], publicOnly);
      var m := ms[|ms| - 1];
      if Qualifies(m, publicOnly) then
        Properties(Append(p.methods, PropertyKey(m), m), WithAccessor(p.props, Classify(m).value, m))
      else p
  }

  function GetterOf(p: Properties, n: string): Option<Method> {
    if n in p.props then p.props[n].getter else None
  }

  function SetterOf(p: Properties, n: string): Option<Method> {
    if n in p.props then p.props[n].setter else None
  }

  /** Scanning one more method extends a properties partition by that method, when the partition keeps it. */
  lemma PropertiesOfStep(ms: seq<Method>, i: nat, publicOnly: bool)
    requires i < |ms|
    ensures var p, m := PropertiesOf(ms[..i], publicOnly), ms[i];
      PropertiesOf(ms[..i + 1], publicOnly)
      == if Qualifies(m, publicOnly)
         then Properties(Append(p.methods, PropertyKey(m), m), WithAccessor(p.props, Classify(m).value, m))
         else p
  {
    assert ms[..i + 1][..i] == ms[..i];
  }

  /** The method part of a properties partition is the member index of the property methods, keyed by PropertyKey. */
  lemma {:induction false} PropertiesMethodsIndex(ms: seq<Method>, publicOnly: bool)
    ensures PropertiesOf(ms, publicOnly).methods
         == Index(FilterBy(ms, IsPropertyMethod), PropertyKey, MethodIsPublic, publicOnly)
    decreases |ms|
  {
    if ms != [] {
      var pre, last := ms[..|ms| - 1], ms[|ms| - 1];
      PropertiesMethodsIndex(pre, publicOnly);
      var f := FilterBy(pre, IsPropertyMethod);
      assert (f + [last])[..|f|] == f;
    }
  }

  /**
   * Soundness of the method part of a properties partition: every stored method is a
   * scanned, non-static, kept getter or setter, stored under its own key.
   */
  lemma {:induction false} PropertyMethodsSound(ms: seq<Method>, publicOnly: bool, k: string, m: Method)
    requires k in PropertiesOf(ms, publicOnly).methods && m in PropertiesOf(ms, publicOnly).methods[k]
    ensures m in ms && !m.isStatic && Qualifies(m, publicOnly) && PropertyKey(m) == k
  {
    var f := FilterBy(ms, IsPropertyMethod);
    PropertiesMethodsIndex(ms, publicOnly);
    IndexLookup(f, PropertyKey, MethodIsPublic, publicOnly, k);
    NamedMembers(f, PropertyKey, MethodIsPublic, publicOnly, k, m);
    FilterByMembers(ms, IsPropertyMethod, m);
  }

  /** Completeness of the method part of a properties partition: every kept property method is stored under its key. */
  lemma {:induction false} PropertyMethodsComplete(ms: seq<Method>, publicOnly: bool, m: Method)
    requires m in ms && Qualifies(m, publicOnly)
    ensures PropertyKey(m) in PropertiesOf(ms, publicOnly).methods
    ensures m in PropertiesOf(ms, publicOnly).methods[PropertyKey(m)]
  {
    var f := FilterBy(ms, IsPropertyMethod);
    PropertiesMethodsIndex(ms, publicOnly);
    FilterByMembers(ms, IsPropertyMethod, m);
    NamedMembers(f, PropertyKey, MethodIsPublic, publicOnly, PropertyKey(m), m);
    IndexLookup(f, PropertyKey, MethodIsPublic, publicOnly, PropertyKey(m));
  }

  /**
   * A property name is present in a partition exactly when some kept property method
   * carries it, and a present property has at least one half.
   */
  lemma {:induction false} PropertyExists(ms: seq<Method>, publicOnly: bool, n: string)
    ensures var p := PropertiesOf(ms, publicOnly);
      && (n in p.props <==> exists m :: m in ms && Qualifies(m, publicOnly) && Classify(m).value.property == n)
      && (n in p.props ==> p.props[n].getter.Some? || p.props[n].setter.Some?)
    decreases |ms|
  {
    if ms != [] {
      var pre, last := ms[..|ms| - 1], ms[|ms| - 1];
      PropertyExists(pre, publicOnly, n);
      assert forall m :: m in ms <==> m in pre || m == last by {
        assert ms == pre + [last];
      }
    }
  }

  /**
   * The recorded getter of a property is a kept method classified as that property's
   * getter, and a getter is recorded exactly when such a method exists.
   */
  lemma {:induction false} PropertyGetterHalf(ms: seq<Method>, publicOnly: bool, n: string)
    ensures var g := GetterOf(PropertiesOf(ms, publicOnly), n);
      && (g.Some? ==> g.value in ms && Qualifies(g.value, publicOnly) && Classify(g.value) == Some(Getter(n)))
      && (g.Some? <==> exists m :: m in ms && Qualifies(m, publicOnly) && Classify(m) == Some(Getter(n)))
    decreases |ms|
  {
    if ms != [] {
      var pre, last := ms[..|ms| - 1], ms[|ms| - 1];
      PropertyGetterHalf(pre, publicOnly, n);
      assert forall m :: m in ms <==> m in pre || m == last by {
        assert ms == pre + [last];
      }
    }
  }

  /**
   * The recorded setter of a property is a kept method classified as that property's
   * setter (so never a getter), and a setter is recorded exactly when such a method exists.
   */
  lemma {:induction false} PropertySetterHalf(ms: seq<Method>, publicOnly: bool, n: string)
    ensures var st := SetterOf(PropertiesOf(ms, publicOnly), n);
      && (st.Some? ==> st.value in ms && Qualifies(st.value, publicOnly) && Classify(st.value) == Some(Setter(n)))
      && (st.Some? <==> exists m :: m in ms && Qualifies(m, publicOnly) && Classify(m) == Some(Setter(n)))
    decreases |ms|
  {
    if ms != [] {
      var pre, last := ms[..|ms| - 1], ms[|ms| - 1];
      PropertySetterHalf(pre, publicOnly, n);
      assert forall m :: m in ms <==> m in pre || m == last by {
        assert ms == pre + [last];
      }
    }
  }

  /** The public properties partition refines the all partition. */
  lemma PublicPropertiesWithinAll(ms: seq<Method>)
    ensures var pub, all := PropertiesOf(ms, true), PropertiesOf(ms, false);
      && (forall k :: k in pub.methods ==>
            k in all.methods && pub.methods[k] == FilterBy(all.methods[k], MethodIsPublic))
      && pub.props.Keys <= all.props.Keys
  {
    var f := FilterBy(ms, IsPropertyMethod);
    PropertiesMethodsIndex(ms, true);
    PropertiesMethodsIndex(ms, false);
    PublicIndexWithinAll(f, PropertyKey, MethodIsPublic);
    forall n | n in PropertiesOf(ms, true).props
      ensures n in PropertiesOf(ms, false).props
    {
      PropertyExists(ms, true, n);
      PropertyExists(ms, false, n);
    }
  }

  // ---------------------------------------------------------------- cache contents

  /** The fields cache of a fully inspected descriptor, all partition when `declared`. */
  function FieldsOf(info: TypeInfo, accessibleOnly: bool, declared: bool): map<string, seq<Field>> {
    Index(ScannedFields(info, accessibleOnly), FieldName, FieldIsPublic, !declared)
  }

  /** The methods cache of a fully inspected descriptor, all partition when `declared`. */
  function MethodsOf(info: TypeInfo, accessibleOnly: bool, declared: bool): map<string, seq<Method>> {
    Index(ScannedMethods(info, accessibleOnly), MethodName, MethodIsPublic, !declared)
  }

  /** The properties cache of a fully inspected descriptor, all partition when `declared`. */
  function PropertiesView(info: TypeInfo, accessibleOnly: bool, declared: bool): Properties {
    PropertiesOf(ScannedMethods(info, accessibleOnly), !declared)
  }

  /**
   * The constructors cache: declared constructors, or only the public ones (getConstructors),
   * in declaration order.
   */
  function CtorsOf(info: TypeInfo, declared: bool): (r: seq<Ctor>)
    ensures forall c :: c in r <==> c in info.declaredCtors && (declared || c.isPublic)
  {
    if declared then info.declaredCtors
    else
      assert forall c :: c in FilterBy(info.declaredCtors, CtorIsPublic) <==> c in info.declaredCtors && c.isPublic by {
        forall c {
          FilterByMembers(info.declaredCtors, CtorIsPublic, c);
        }
      }
      FilterBy(info.declaredCtors, CtorIsPublic)
  }

  /** Fields.getFieldDescriptor: the first field listed under the name. */
  function FirstField(idx: map<string, seq<Field>>, n: string): Option<Field> {
    var fs := Lookup(idx, n);
    if fs == [] then None else Some(fs[0])
  }

  /**
   * The first member whose parameter types are exactly `params`: Methods.getMethod(name, params)
   * on the list under the name, and Ctors.getCtor(args) on a constructors partition.
   */
  function WithParams<M>(ms: seq<M>, paramsOf: M -> seq<TypeId>, params: seq<TypeId>): (r: Option<M>)
    ensures r.Some? ==> r.value in ms && paramsOf(r.value) == params
    ensures r.None? ==> forall m :: m in ms ==> paramsOf(m) != params
  {
    if ms == [] then None
    else if paramsOf(ms[0]) == params then Some(ms[0])
    else WithParams(ms[1..], paramsOf, params)
  }

  function MethodWithParams(ms: seq<Method>, params: seq<TypeId>): Option<Method> {
    WithParams(ms, MethodParams, params)
  }

  function CtorWithParams(cs: seq<Ctor>, params: seq<TypeId>): Option<Ctor> {
    WithParams(cs, CtorParams, params)
  }

  /** A field lookup finds a field of that name exactly when the selected partition scanned one. */
  lemma FieldLookupSpec(info: TypeInfo, accessibleOnly: bool, declared: bool, n: string)
    ensures var r := FirstField(FieldsOf(info, accessibleOnly, declared), n);
      && (r.Some? <==> exists f :: f in ScannedFields(info, accessibleOnly) && f.name == n && (declared || f.isPublic))
      && (r.Some? ==> r.value in ScannedFields(info, accessibleOnly) && r.value.name == n && (declared || r.value.isPublic))
  {
    var fs := ScannedFields(info, accessibleOnly);
    IndexLookup(fs, FieldName, FieldIsPublic, !declared, n);
    forall f | f in fs
      ensures f in Named(fs, FieldName, FieldIsPublic, !declared, n) <==> f.name == n && (declared || f.isPublic)
    {
      NamedMembers(fs, FieldName, FieldIsPublic, !declared, n, f);
    }
    var named := Named(fs, FieldName, FieldIsPublic, !declared, n);
    if named != [] {
      NamedMembers(fs, FieldName, FieldIsPublic, !declared, n, named[0]);
    }
  }

  /** The methods listed under a name are exactly the scanned methods of that name in the partition, in scan order. */
  lemma MethodsNamedSpec(info: TypeInfo, accessibleOnly: bool, declared: bool, n: string)
    ensures var ms := Lookup(MethodsOf(info, accessibleOnly, declared), n);
      && ms == Named(ScannedMethods(info, accessibleOnly), MethodName, MethodIsPublic, !declared, n)
      && (forall m :: m in ms <==>
            m in ScannedMethods(info, accessibleOnly) && m.name == n && (declared || m.isPublic))
  {
    var scanned := ScannedMethods(info, accessibleOnly);
    IndexLookup(scanned, MethodName, MethodIsPublic, !declared, n);
    forall m | true
      ensures m in Named(scanned, MethodName, MethodIsPublic, !declared, n)
          <==> m in scanned && m.name == n && (declared || m.isPublic)
    {
      NamedMembers(scanned, MethodName, MethodIsPublic, !declared, n, m);
    }
  }

  /** A method lookup by name and signature finds one exactly when the partition scanned such a method. */
  lemma MethodLookupSpec(info: TypeInfo, accessibleOnly: bool, declared: bool, n: string, params: seq<TypeId>)
    ensures var r := MethodWithParams(Lookup(MethodsOf(info, accessibleOnly, declared), n), params);
      && (r.Some? <==> exists m :: m in ScannedMethods(info, accessibleOnly)
                         && m.name == n && m.params == params && (declared || m.isPublic))
      && (r.Some? ==> r.value in ScannedMethods(info, accessibleOnly)
                      && r.value.name == n && r.value.params == params && (declared || r.value.isPublic))
  {
    MethodsNamedSpec(info, accessibleOnly, declared, n);
  }

  /** In a filled fields cache every scanned field is in the all partition, and public lists are filtered all lists. */
  lemma FieldsCachePartitions(info: TypeInfo, accessibleOnly: bool)
    ensures var all := FieldsOf(info, accessibleOnly, true);
      forall f :: f in ScannedFields(info, accessibleOnly) ==> f.name in all && f in all[f.name]
    ensures var pub, all := FieldsOf(info, accessibleOnly, false), FieldsOf(info, accessibleOnly, true);
      forall n :: n in pub ==> n in all && pub[n] == FilterBy(all[n], FieldIsPublic)
  {
    ScannedMembersIndexed(ScannedFields(info, accessibleOnly), FieldName, FieldIsPublic, false);
    PublicIndexWithinAll(ScannedFields(info, accessibleOnly), FieldName, FieldIsPublic);
  }

  /** In a filled methods cache every scanned method is in the all partition, and public lists are filtered all lists. */
  lemma MethodsCachePartitions(info: TypeInfo, accessibleOnly: bool)
    ensures var all := MethodsOf(info, accessibleOnly, true);
      forall m :: m in ScannedMethods(info, accessibleOnly) ==> m.name in all && m in all[m.name]
    ensures var pub, all := MethodsOf(info, accessibleOnly, false), MethodsOf(info, accessibleOnly, true);
      forall n :: n in pub ==> n in all && pub[n] == FilterBy(all[n], MethodIsPublic)
  {
    ScannedMembersIndexed(ScannedMethods(info, accessibleOnly), MethodName, MethodIsPublic, false);
    PublicIndexWithinAll(ScannedMethods(info, accessibleOnly), MethodName, MethodIsPublic);
  }

  // ---------------------------------------------------------------- the descriptor

  class ClassDescriptor {
    const typeId: TypeId
    /** What reflection reports about `type`. */
    const info: TypeInfo
    const accessibleOnly: bool
    var usageCount: int32

    const isArray: bool
    const isMap: bool
    const isList: bool
    const isSet: bool
    const isCollection: bool

    var publicFields: Option<map<string, seq<Field>>>
    var allFields: Option<map<string, seq<Field>>>
    var publicMethods: Option<map<string, seq<Method>>>
    var allMethods: Option<map<string, seq<Method>>>
    var publicProperties: Option<Properties>
    var allProperties: Option<Properties>
    var publicCtors: Option<seq<Ctor>>
    var allCtors: Option<seq<Ctor>>

    /** Each cache is empty in both partitions or filled in both with exactly what a scan yields. */
    ghost predicate Valid()
      reads this
    {
      && (publicFields.Some? <==> allFields.Some?)
      && (allFields.Some? ==>
            allFields.value == FieldsOf(info, accessibleOnly, true)
            && publicFields.value == FieldsOf(info, accessibleOnly, false))
      && (publicMethods.Some? <==> allMethods.Some?)
      && (allMethods.Some? ==>
            allMethods.value == MethodsOf(info, accessibleOnly, true)
            && publicMethods.value == MethodsOf(info, accessibleOnly, false))
      && (publicProperties.Some? <==> allProperties.Some?)
      && (publicProperties.Some? ==>
            allProperties.value == PropertiesView(info, accessibleOnly, true)
            && publicProperties.value == PropertiesView(info, accessibleOnly, false))
      && (publicCtors.Some? <==> allCtors.Some?)
      && (allCtors.Some? ==>
            allCtors.value == CtorsOf(info, true) && publicCtors.value == CtorsOf(info, false))
    }

    /** The classification flags are computed once here; they are constants afterwards. */
    constructor (world: World, typeId: TypeId, accessibleOnly: bool)
      ensures Valid()
      ensures this.typeId == typeId && info == world.info(typeId) && this.accessibleOnly == accessibleOnly
      ensures isArray == world.info(typeId).isArray
      ensures isMap == IsSubclass(world, typeId, MAP_TYPE)
      ensures isList == IsSubclass(world, typeId, LIST_TYPE)
      ensures isSet == IsSubclass(world, typeId, SET_TYPE)
      ensures isCollection == IsSubclass(world, typeId, COLLECTION_TYPE)
      ensures usageCount == 0
      ensures allFields.None? && allMethods.None? && publicProperties.None? && allCtors.None?
    {
      this.typeId := typeId;
      this.info := world.info(typeId);
      isArray := world.info(typeId).isArray;
      isMap := IsSubclass(world, typeId, MAP_TYPE);
      isList := IsSubclass(world, typeId, LIST_TYPE);
      isSet := IsSubclass(world, typeId, SET_TYPE);
      isCollection := IsSubclass(world, typeId, COLLECTION_TYPE);
      this.accessibleOnly := accessibleOnly;
      usageCount := 0;
      publicFields, allFields := None, None;
      publicMethods, allMethods := None, None;
      publicProperties, allProperties := None, None;
      publicCtors, allCtors := None, None;
    }

    method IncreaseUsageCount()
      modifies this`usageCount
      ensures usageCount == Int32Inc(old(usageCount))
    {
      usageCount := Int32Inc(usageCount);
    }

    // -------------------------------------------------------------- fields

    /**
     * Fills the fields cache unless it is already filled. Every scanned field goes into the
     * all partition, the public ones also into the public partition.
     */
    method InspectFields()
      requires Valid()
      modifies this`publicFields, this`allFields
      ensures Valid() && allFields.Some?
      ensures old(allFields).Some? ==> allFields == old(allFields) && publicFields == old(publicFields)
      ensures forall f :: f in ScannedFields(info, accessibleOnly) ==> f.name in allFields.value && f in allFields.value[f.name]
      ensures forall n :: n in publicFields.value ==>
        n in allFields.value && publicFields.value[n] == FilterBy(allFields.value[n], FieldIsPublic)
    {
      if allFields.None? {
        var pub, all := ScanPartitions(ScannedFields(info, accessibleOnly), FieldName, FieldIsPublic);
        publicFields := Some(pub);
        allFields := Some(all);
      }
      FieldsCachePartitions(info, accessibleOnly);
    }

    /** getFieldDescriptor: the field of that name in the selected partition, if any. */
    method GetFieldDescriptor(name: string, declared: bool) returns (r: Option<Field>)
      requires Valid()
      modifies this`publicFields, this`allFields
      ensures Valid() && allFields.Some?
      ensures r == FirstField(FieldsOf(info, accessibleOnly, declared), name)
      ensures r.Some? <==>
        exists f :: f in ScannedFields(info, accessibleOnly) && f.name == name && (declared || f.isPublic)
      ensures r.Some? ==>
        r.value in ScannedFields(info, accessibleOnly) && r.value.name == name && (declared || r.value.isPublic)
    {
      InspectFields();
      var fields := if declared then allFields.value else publicFields.value;
      r := FirstField(fields, name);
      FieldLookupSpec(info, accessibleOnly, declared, name);
    }

    // -------------------------------------------------------------- methods

    /**
     * Fills the methods cache unless it is already filled. Every scanned method goes into the
     * all partition, the public ones also into the public partition.
     */
    method InspectMethods()
      requires Valid()
      modifies this`publicMethods, this`allMethods
      ensures Valid() && allMethods.Some?
      ensures old(allMethods).Some? ==> allMethods == old(allMethods) && publicMethods == old(publicMethods)
      ensures forall m :: m in ScannedMethods(info, accessibleOnly) ==> m.name in allMethods.value && m in allMethods.value[m.name]
      ensures forall n :: n in publicMethods.value ==>
        n in allMethods.value && publicMethods.value[n] == FilterBy(allMethods.value[n], MethodIsPublic)
    {
      if allMethods.None? {
        var pub, all := ScanPartitions(ScannedMethods(info, accessibleOnly), MethodName, MethodIsPublic);
        allMethods := Some(all);
        publicMethods := Some(pub);
      }
      MethodsCachePartitions(info, accessibleOnly);
    }

    /** getMethod(name, params, declared): the method with that name and exact parameter types, if any. */
    method GetMethod(name: string, params: seq<TypeId>, declared: bool) returns (r: Option<Method>)
      requires Valid()
      modifies this`publicMethods, this`allMethods
      ensures Valid() && allMethods.Some?
      ensures r == MethodWithParams(Lookup(MethodsOf(info, accessibleOnly, declared), name), params)
      ensures r.Some? <==> exists m :: m in ScannedMethods(info, accessibleOnly)
                             && m.name == name && m.params == params && (declared || m.isPublic)
      ensures r.Some? ==> r.value in ScannedMethods(info, accessibleOnly)
                          && r.value.name == name && r.value.params == params && (declared || r.value.isPublic)
    {
      InspectMethods();
      var methods := if declared then allMethods.value else publicMethods.value;
      r := MethodWithParams(Lookup(methods, name), params);
      MethodLookupSpec(info, accessibleOnly, declared, name, params);
    }

    /** getAllMethods(name, declared): every method of that name in the selected partition, in scan order. */
    method GetAllMethods(name: string, declared: bool) returns (r: seq<Method>)
      requires Valid()
      modifies this`publicMethods, this`allMethods
      ensures Valid() && allMethods.Some?
      ensures r == Named(ScannedMethods(info, accessibleOnly), MethodName, MethodIsPublic, !declared, name)
      ensures forall m :: m in r <==>
        m in ScannedMethods(info, accessibleOnly) && m.name == name && (declared || m.isPublic)
    {
      InspectMethods();
      var methods := if declared then allMethods.value else publicMethods.value;
      r := Lookup(methods, name);
      MethodsNamedSpec(info, accessibleOnly, declared, name);
    }

    // -------------------------------------------------------------- properties

    /**
     * Fills the properties cache unless it is already filled. Static methods are skipped; a
     * getter is keyed `-name`, otherwise a setter `+name`; public methods go into both
     * partitions, the others only into the all partition. Looking up the method descriptor
     * of each property method fills the methods cache as a side effect.
     */
    method InspectProperties()
      requires Valid()
      modifies this`publicProperties, this`allProperties, this`publicMethods, this`allMethods
      ensures Valid() && publicProperties.Some?
      ensures old(publicProperties).Some? ==>
        && publicProperties == old(publicProperties) && allProperties == old(allProperties)
        && allMethods == old(allMethods) && publicMethods == old(publicMethods)
      ensures old(allMethods).Some? ==> allMethods == old(allMethods) && publicMethods == old(publicMethods)
      ensures old(publicProperties).None? && (exists m :: m in ScannedMethods(info, accessibleOnly) && IsPropertyMethod(m))
        ==> allMethods.Some?
      ensures old(allMethods).None? && !(exists m :: m in ScannedMethods(info, accessibleOnly) && IsPropertyMethod(m))
        ==> allMethods.None?
    {
      if publicProperties.Some? {
        return;
      }
      var pub := NoProperties;
      var all := NoProperties;
      var methods := ScannedMethods(info, accessibleOnly);
      for i := 0 to |methods|
        invariant Valid() && publicProperties.None?
        invariant pub == PropertiesOf(methods[..i], true)
        invariant all == PropertiesOf(methods[..i], false)
        invariant old(allMethods).Some? ==> allMethods == old(allMethods) && publicMethods == old(publicMethods)
        invariant allMethods.Some? || forall j :: 0 <= j < i ==> !IsPropertyMethod(methods[j])
        invariant allMethods.Some? ==> old(allMethods).Some? || exists j :: 0 <= j < i && IsPropertyMethod(methods[j])
      {
        var m := methods[i];
        PropertiesOfStep(methods, i, true);
        PropertiesOfStep(methods, i, false);
        if m.isStatic {
          continue;
        }
        match Classify(m)
        case None =>
        case Some(a) =>
          var key := PropertyKey(m);
          if m.isPublic {
            InspectMethods();
            pub := Properties(Append(pub.methods, key, m), WithAccessor(pub.props, a, m));
          }
          InspectMethods();
          all := Properties(Append(all.methods, key, m), WithAccessor(all.props, a, m));
      }
      assert methods[..|methods|] == methods;
      allProperties := Some(all);
      publicProperties := Some(pub);
    }

    /** getPropertySetter: the write half of the named property in the selected partition, or none. */
    method GetPropertySetter(name: string, declared: bool) returns (r: Option<Method>)
      requires Valid()
      modifies this`publicProperties, this`allProperties, this`publicMethods, this`allMethods
      ensures Valid() && publicProperties.Some?
      ensures r == SetterOf(PropertiesView(info, accessibleOnly, declared), name)
      ensures r.Some? ==> r.value in ScannedMethods(info, accessibleOnly) && !r.value.isStatic
                          && Classify(r.value) == Some(Setter(name)) && (declared || r.value.isPublic)
      ensures r.None? <==> !exists m :: m in ScannedMethods(info, accessibleOnly) && !m.isStatic
                             && Classify(m) == Some(Setter(name)) && (declared || m.isPublic)
    {
      InspectProperties();
      var properties := if declared then allProperties.value else publicProperties.value;
      r := SetterOf(properties, name);
      PropertySetterHalf(ScannedMethods(info, accessibleOnly), !declared, name);
    }

    /** getPropertyGetter: the read half of the named property in the selected partition, or none. */
    method GetPropertyGetter(name: string, declared: bool) returns (r: Option<Method>)
      requires Valid()
      modifies this`publicProperties, this`allProperties, this`publicMethods, this`allMethods
      ensures Valid() && publicProperties.Some?
      ensures r == GetterOf(PropertiesView(info, accessibleOnly, declared), name)
      ensures r.Some? ==> r.value in ScannedMethods(info, accessibleOnly) && !r.value.isStatic
                          && Classify(r.value) == Some(Getter(name)) && (declared || r.value.isPublic)
      ensures r.None? <==> !exists m :: m in ScannedMethods(info, accessibleOnly) && !m.isStatic
                             && Classify(m) == Some(Getter(name)) && (declared || m.isPublic)
    {
      InspectProperties();
      var properties := if declared then allProperties.value else publicProperties.value;
      r := GetterOf(properties, name);
      PropertyGetterHalf(ScannedMethods(info, accessibleOnly), !declared, name);
    }

    // -------------------------------------------------------------- ctors

    /** Fills the constructors cache unless it is already filled: public constructors, and all declared ones. */
    method InspectCtors()
      requires Valid()
      modifies this`publicCtors, this`allCtors
      ensures Valid() && allCtors.Some?
      ensures old(allCtors).Some? ==> allCtors == old(allCtors) && publicCtors == old(publicCtors)
      ensures allCtors.value == info.declaredCtors
      ensures forall c :: c in publicCtors.value <==> c in allCtors.value && c.isPublic
    {
      if allCtors.None? {
        publicCtors := Some(FilterBy(info.declaredCtors, CtorIsPublic));
        allCtors := Some(info.declaredCtors);
      }
      assert publicCtors.value == CtorsOf(info, false);
    }

    /** getCtor(args, declared): the constructor with exactly these parameter types in the selected partition. */
    method GetCtor(args: seq<TypeId>, declared: bool) returns (r: Option<Ctor>)
      requires Valid()
      modifies this`publicCtors, this`allCtors
      ensures Valid() && allCtors.Some?
      ensures r == CtorWithParams(CtorsOf(info, declared), args)
      ensures r.Some? <==> exists c :: c in info.declaredCtors && c.params == args && (declared || c.isPublic)
      ensures r.Some? ==> r.value in info.declaredCtors && r.value.params == args && (declared || r.value.isPublic)
    {
      InspectCtors();
      var ctors := if declared then allCtors.value else publicCtors.value;
      r := CtorWithParams(ctors, args);
    }

    /** getAllCtors(declared): every declared constructor, or only the public ones. */
    method GetAllCtors(declared: bool) returns (r: seq<Ctor>)
      requires Valid()
      modifies this`publicCtors, this`allCtors
      ensures Valid() && allCtors.Some?
      ensures r == CtorsOf(info, declared)
      ensures forall c :: c in r <==> c in info.declaredCtors && (declared || c.isPublic)
    {
      InspectCtors();
      r := if declared then allCtors.value else publicCtors.value;
    }
  }
}
