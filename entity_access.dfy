/**
 * The collection merge routine of org.neo4j.ogm.metadata.reflect.EntityAccessManager.
 * Its source is not part of this model; it is an uninterpreted function value.
 */
module EntityAccess {
  import opened Values
  import opened Metadata

  /** The empty collection `merge` starts from: `new Object[] {}` or `Collections.EMPTY_LIST`. */
  datatype Seed = EmptyArraySeed | EmptyListSeed

  /** `merge(targetType, value, seed, elementType)`. */
  type MergeFunction = (JavaType, Value, Seed, string) -> Value
}
