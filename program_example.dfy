/**
 * A worked example on the satellites test domain: the class `Program`, whose
 * field `name` is stored as the property "program", which has a list of
 * `Satellite` relationships, and whose identity field `id` it inherits from
 * `DomainObject` (DomainObject.java is not part of this model).
 */
module ProgramExample {
  import opened Wrappers
  import opened Values
  import opened Metadata
  import opened EntityAccess
  import opened Entities
  import opened Instantiation
  import opened SingleUseEntityMapping

  const ProgramClass := "org.neo4j.ogm.domain.satellites.Program"
  const NameField := FieldInfo("name", PlainType("java.lang.String"), "java.lang.String")
  const SatellitesField := FieldInfo("satellites", IterableType("java.util.List"), "org.neo4j.ogm.domain.satellites.Satellite")
  const IdField := FieldInfo("id", PlainType("java.lang.Long"), "java.lang.Long")

  const ProgramInfo := ClassInfo(
    ProgramClass, ProgramClass,
    map["program" := NameField],
    map["program" := NameField],
    map["satellites" := SatellitesField],
    Some(IdField))

  const ApolloRow := map["program" := Str("Apollo"), "id" := Int(11)]

  /** The columns `program`, `id` with the values "Apollo", 11 give the property map of the row. */
  lemma ApolloRowProperties()
    ensures Zip(["program", "id"], [Str("Apollo"), Int(11)]) == ApolloRow
  {
    assert [Str("Apollo"), Int(11)][..1] == [Str("Apollo")];
  }

  /** The constructor-argument predicate of the compatibility mapper: always false. */
  function NoArguments(): (isConstructorArgument: ConstructorArgumentPredicate)
  {
    ConstructorArgumentPredicateFor(DefaultConstructorArgumentPredicateSupplier(), ProgramClass)
  }

  /** The fields of a `Program` after its row has been mapped in the visiting order `order`. */
  function ApolloFields(merge: MergeFunction, order: seq<string>): (fields: map<string, Value>)
    requires IsEnumeration(order, ApolloRow.Keys)
  {
    ApplyWrites(map[], Writes(merge, ProgramInfo, ApolloRow, NonConstructorProperties(NoArguments(), order)))
  }

  /** "program" resolves to the scalar field `name`, "id" to the identity field, both unchanged. */
  lemma ApolloWrites(merge: MergeFunction)
    ensures PropertyWrite(merge, ProgramInfo, "program", ApolloRow["program"]) == Some(FieldWrite(NameField, Str("Apollo")))
    ensures PropertyWrite(merge, ProgramInfo, "id", ApolloRow["id"]) == Some(FieldWrite(IdField, Int(11)))
    ensures ApolloRow.Keys == {"program", "id"}
  {
  }

  /** Mapping the row sets `name` to "Apollo". */
  lemma ApolloName(merge: MergeFunction, order: seq<string>)
    requires IsEnumeration(order, ApolloRow.Keys)
    ensures "name" in ApolloFields(merge, order) && ApolloFields(merge, order)["name"] == Str("Apollo")
  {
    ApolloWrites(merge);
    MappedFieldValue(merge, ProgramInfo, ApolloRow, NoArguments(), order, map[], "program");
  }

  /** Mapping the row sets the identity field to 11. */
  lemma ApolloId(merge: MergeFunction, order: seq<string>)
    requires IsEnumeration(order, ApolloRow.Keys)
    ensures "id" in ApolloFields(merge, order) && ApolloFields(merge, order)["id"] == Int(11)
  {
    ApolloWrites(merge);
    MappedFieldValue(merge, ProgramInfo, ApolloRow, NoArguments(), order, map[], "id");
  }

  /**
   * A native array of satellites becomes a list and goes through `merge`
   * with an empty-list seed; as "satellites" is a relationship and not a
   * property field, the element type passed is `Program` itself.
   */
  lemma SatellitesArrayMerged(merge: MergeFunction, satellites: seq<Value>)
    ensures PropertyWrite(merge, ProgramInfo, "satellites", ObjectArray(satellites))
      == Some(FieldWrite(SatellitesField,
           merge(IterableType("java.util.List"), ListOf(satellites), EmptyListSeed, ProgramClass)))
  {
  }

  /** A property that names no field of `Program` and is not "id" is skipped. */
  lemma UnknownPropertySkipped(merge: MergeFunction, name: string, v: Value)
    requires name !in {"program", "satellites", "id"}
    ensures PropertyWrite(merge, ProgramInfo, name, v) == None
  {
  }
}
