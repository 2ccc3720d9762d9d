/**
 * An abstract, per-type description of Java classes, standing in for java.lang.reflect.
 * A type is identified by its fully qualified name; everything reflection would report
 * about it (interface or not, ancestors, fields, methods, constructors) is a plain value.
 */
module Reflection {
  import opened Wrappers

  type TypeId = string

  const MAP_TYPE: TypeId := "java.util.Map"
  const LIST_TYPE: TypeId := "java.util.List"
  const SET_TYPE: TypeId := "java.util.Set"
  const COLLECTION_TYPE: TypeId := "java.util.Collection"

  /** A field: its name, declared type and whether ReflectUtil.isPublic holds of it. */
  datatype Field = Field(name: string, fieldType: TypeId, isPublic: bool)

  /**
   * A method. `getterName` and `setterName` are what ReflectUtil's bean-property naming
   * convention reports for it (getX/isX with no argument, setX with one argument).
   */
  datatype Method = Method(
    name: string,
    params: seq<TypeId>,
    isPublic: bool,
    isStatic: bool,
    getterName: Option<string>,
    setterName: Option<string>)

  /** A constructor, identified by its parameter types. */
  datatype Ctor = Ctor(params: seq<TypeId>, isPublic: bool)

  /**
   * What reflection reports about one type. `supertypes` holds every proper ancestor
   * (superclasses and implemented interfaces). The accessible and supported member lists
   * are the two scans ReflectUtil offers; `declaredCtors` is getDeclaredConstructors().
   */
  datatype TypeInfo = TypeInfo(
    isInterface: bool,
    isArray: bool,
    supertypes: set<TypeId>,
    accessibleFields: seq<Field>,
    supportedFields: seq<Field>,
    accessibleMethods: seq<Method>,
    supportedMethods: seq<Method>,
    declaredCtors: seq<Ctor>)

  /** The universe of loaded types. */
  datatype World = World(info: TypeId -> TypeInfo)

  predicate IsInterface(w: World, t: TypeId) {
    w.info(t).isInterface
  }

  /** ReflectUtil.isSubclass: `t` is `target` itself or one of its descendants. */
  predicate IsSubclass(w: World, t: TypeId, target: TypeId) {
    t == target || target in w.info(t).supertypes
  }
}
