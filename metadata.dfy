/**
 * Structural metadata of mapped classes, as the mapper consults it.
 * org.neo4j.ogm.metadata.ClassInfo, FieldInfo and MetaData are not part of
 * this model: only the lookups the mapper performs are represented.
 */
module Metadata {
  import opened Wrappers

  /** The declared type of a field: an array type, a type assignable to `Iterable`, or anything else. */
  datatype JavaType =
    | ArrayType(componentType: string)
    | IterableType(name: string)
    | PlainType(name: string)

  /**
   * A field descriptor: the Java field it writes (`name`), its declared type,
   * and the class `ClassUtils.getType` derives from its type descriptor.
   */
  datatype FieldInfo = FieldInfo(name: string, fieldType: JavaType, elementType: string)

  /**
   * A class descriptor. `fieldInfos` answers `getFieldInfo(property)`,
   * `propertyFields` answers `propertyField(property)`, `relationshipFields`
   * answers `relationshipFieldByName(property)`; `identityField` is the
   * graph-id field, if the class has one.
   */
  datatype ClassInfo = ClassInfo(
    name: string,
    underlyingClass: string,
    fieldInfos: map<string, FieldInfo>,
    propertyFields: map<string, FieldInfo>,
    relationshipFields: map<string, FieldInfo>,
    identityField: Option<FieldInfo>)

  /** The metadata registry, keyed by simple class name. */
  type MetaData = map<string, ClassInfo>
}
