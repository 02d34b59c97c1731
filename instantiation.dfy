/** The pluggable instantiation strategy (org.neo4j.ogm.session.EntityInstantiator). */
module Instantiation {
  import opened Wrappers
  import opened Values

  /** Answers, for one class, whether a property name is bound by the constructor. */
  type ConstructorArgumentPredicate = string -> bool

  /** Maps a runtime class (by simple name) to its constructor-argument predicate, if the strategy knows one. */
  type PredicateSupplier = string -> Option<ConstructorArgumentPredicate>

  /**
   * What creating an instance yields: the simple name of the object's
   * runtime class (a factory may return a subtype or proxy) and the field
   * values its constructor set.
   */
  datatype Construction = Construction(runtimeClass: string, fields: map<string, Value>)

  /** `newObject(type, propertyValues)` / `createInstance(type, propertyValues)`; foreign construction logic. */
  type CreateInstance = (string, map<string, Value>) -> Construction

  datatype EntityInstantiator = EntityInstantiator(
    createInstance: CreateInstance,
    constructorArgumentPredicateSupplier: PredicateSupplier)

  /** The interface's default supplier: no predicate for any class. */
  function DefaultConstructorArgumentPredicateSupplier(): (supplier: PredicateSupplier)
    ensures forall cls :: supplier(cls) == None
  {
    cls => None
  }
}
