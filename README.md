# Single-use entity mapping (neo4j-ogm), modelled in Dafny

This project models the single-use row-to-entity mapper of Neo4j-OGM,
`SingleUseEntityMapper`. It maps one query result row onto a freshly created
domain object without any mapping context:

1. it zips the row's column names with its values into a property map, a later
   duplicate column overwriting an earlier one;
2. it creates the instance (through the entity factory or a pluggable
   `EntityInstantiator`) and looks up the metadata of the created object's
   runtime class by simple name, raising a `MappingException` when none is
   registered;
3. it drops every property the instantiation strategy reports as a constructor
   argument (none, when the strategy supplies no predicate, which is the
   default of `EntityInstantiator` and what the compatibility constructor
   installs);
4. it writes every remaining property onto a field, found in a fixed order:
   the field with that property name, then the relationship field with that
   name, then the identity field for the name `"id"` only; a property with no
   field is skipped. A native array value becomes a list first, and array- or
   iterable-typed fields receive the value through `EntityAccessManager.merge`,
   with an empty-array or empty-list seed and an element type (the property
   field's type when there is one, else the class's underlying class).

Files:

- `wrappers.dfy` (`Wrappers`): `Option` for nullable references, `Result` for
  thrown exceptions.
- `values.dfy` (`Values`): the dynamically typed row and field values.
- `metadata.dfy` (`Metadata`): `ClassInfo`, `FieldInfo`, declared Java types,
  and the registry keyed by simple class name.
- `entity_access.dfy` (`EntityAccess`): the seeds and the signature of
  `merge`, which stays uninterpreted.
- `entities.dfy` (`Entities`): the `Entity` class whose `fields` map the
  mapper updates in place, with a ghost history of every field write, and the
  function `ApplyWrites` that gives the field values a write sequence leaves.
- `instantiation.dfy` (`Instantiation`): the instantiation strategy and its
  default constructor-argument predicate supplier.
- `single_use_entity_mapper.dfy` (`SingleUseEntityMapping`): the mapper class,
  the pure lookups and coercions, the specification functions `Zip`,
  `NonConstructorProperties` and `Writes`, and the lemmas about them.
- `program_example.dfy` (`ProgramExample`): the satellites domain class
  `Program` as example metadata, and the row `program = "Apollo", id = 11`
  mapped onto it.

The map iteration order of `HashMap.entrySet()` is unspecified, so
`EntryOrder` picks keys one by one with no promise beyond visiting each key
exactly once. The mapping methods return that order as a ghost result and
state their effect in terms of it; the lemmas hold for every order.

The mapper's callers are expected to pass as many column names as values.
The code reads only the first `values.length` column names and ignores any
extra ones, so `MapRow` and `BuildPropertyMap` require only
`|values| <= |columnNames|`.

## Model

| member | source | states |
|---|---|---|
| `SingleUseEntityMapping.BuildPropertyMap` | core/src/main/java/org/neo4j/ogm/context/SingleUseEntityMapper.java:92-95 | the loop builds the zipped property map, whose keys are exactly the column names that have a value |
| `SingleUseEntityMapping.ZipKeys` | core/src/main/java/org/neo4j/ogm/context/SingleUseEntityMapper.java:92-95 | the property map's key set is `{columnNames[i] : i < |values|}` |
| `SingleUseEntityMapping.ZipLastWins` | core/src/main/java/org/neo4j/ogm/context/SingleUseEntityMapper.java:92-95 | column `i` maps to value `i` unless a later column has the same name (the later value wins) |
| `SingleUseEntityMapping.SingleUseEntityMapper.MapRow` | core/src/main/java/org/neo4j/ogm/context/SingleUseEntityMapper.java:91-100 | mapping a row is mapping its zipped property map |
| `SingleUseEntityMapping.SingleUseEntityMapper.Map` | core/src/main/java/org/neo4j/ogm/context/SingleUseEntityMapper.java:102-106 | a fresh instance of the factory's runtime class, with one write per non-constructor property that resolves, or `MappingException` exactly when that runtime class is unregistered |
| `SingleUseEntityMapping.SingleUseEntityMapper.SetPropertiesOnEntity` | core/src/main/java/org/neo4j/ogm/context/SingleUseEntityMapper.java:108-117 | an unknown runtime class fails and leaves the instance untouched; otherwise the instance's write history grows by the writes of the filtered properties, in one visit of every key |
| `SingleUseEntityMapping.SingleUseEntityMapper.WriteNonConstructorProperties` | core/src/main/java/org/neo4j/ogm/context/SingleUseEntityMapper.java:114-116 | every key is visited once; the writes performed are those of the properties that pass the constructor-argument filter, in visiting order |
| `SingleUseEntityMapping.EntryOrder` | core/src/main/java/org/neo4j/ogm/context/SingleUseEntityMapper.java:114 | the entry stream visits every key of the property map exactly once |
| `SingleUseEntityMapping.EnumerationLength` | core/src/main/java/org/neo4j/ogm/context/SingleUseEntityMapper.java:114 | a visit of every key once has exactly as many steps as the map has keys |
| `SingleUseEntityMapping.NonConstructorPropertiesEnumerate` | core/src/main/java/org/neo4j/ogm/context/SingleUseEntityMapper.java:114-116 | every property that is not a constructor argument gets exactly one write attempt, and no constructor argument gets one |
| `SingleUseEntityMapping.WritesExactlyResolved` | core/src/main/java/org/neo4j/ogm/context/SingleUseEntityMapper.java:116 | a field write occurs exactly for the attempted properties that resolve to a field; an unresolvable one writes nothing and the rest still proceed |
| `SingleUseEntityMapping.WritesExcludeConstructorArguments` | core/src/main/java/org/neo4j/ogm/context/SingleUseEntityMapper.java:111-116 | the writes of one mapping are exactly the writes of the properties that are not constructor arguments and resolve; none comes from a constructor argument |
| `SingleUseEntityMapping.MappedFieldValue` | core/src/main/java/org/neo4j/ogm/context/SingleUseEntityMapper.java:114-116 | a mapped property whose target field no other mapped property shares ends with that field holding its coerced value, whatever the visiting order |
| `SingleUseEntityMapping.ConstructorArgumentPredicateFor` | core/src/main/java/org/neo4j/ogm/context/SingleUseEntityMapper.java:111-112 | the strategy's predicate for the runtime class when it supplies one, else a predicate false for every name |
| `SingleUseEntityMapping.NoPredicateAttemptsAll` | core/src/main/java/org/neo4j/ogm/context/SingleUseEntityMapper.java:67 | with the default supplier the filter drops nothing: every property is attempted, in visiting order |
| `SingleUseEntityMapping.SingleUseEntityMapper.FromEntityFactory` | core/src/main/java/org/neo4j/ogm/context/SingleUseEntityMapper.java:64-68 | the compatibility constructor's supplier yields no predicate for any class |
| `SingleUseEntityMapping.SingleUseEntityMapper.FromInstantiator` | core/src/main/java/org/neo4j/ogm/context/SingleUseEntityMapper.java:76-80 | instances are created by the instantiator and its supplier decides the constructor arguments |
| `Instantiation.DefaultConstructorArgumentPredicateSupplier` | core/src/main/java/org/neo4j/ogm/session/EntityInstantiator.java:50-52 | the interface's default supplier yields no predicate for any class |
| `SingleUseEntityMapping.ResolveClassInfoFor` | core/src/main/java/org/neo4j/ogm/context/SingleUseEntityMapper.java:119-125 | the registered metadata when the simple name is known, and a `MappingException` exactly when it is not |
| `SingleUseEntityMapping.ResolveTargetField` | core/src/main/java/org/neo4j/ogm/context/SingleUseEntityMapper.java:130-139 | a target exists iff the name is a field, a relationship, or `"id"` with an identity field; the field wins over the relationship, and the identity field is chosen only for `"id"` when both fail |
| `SingleUseEntityMapping.UnderlyingElementType` | core/src/main/java/org/neo4j/ogm/context/SingleUseEntityMapper.java:158-164 | the property field's element type when there is a property field of that name, else the class's underlying class |
| `SingleUseEntityMapping.AsList` | core/src/main/java/org/neo4j/ogm/context/SingleUseEntityMapper.java:145-147 | a native array becomes a list of the same elements in the same order; any other value, null included, is kept |
| `SingleUseEntityMapping.CoerceValue` | core/src/main/java/org/neo4j/ogm/context/SingleUseEntityMapper.java:144-153 | array targets get `merge` with an empty-array seed, iterable targets with an empty-list seed, both on the list-converted value and the element type; other targets get the list-converted value unchanged |
| `SingleUseEntityMapping.PropertyWrite` | core/src/main/java/org/neo4j/ogm/context/SingleUseEntityMapper.java:127-156 | a property yields a write iff its target field resolves, and the write puts the coerced value into that field |
| `SingleUseEntityMapping.SingleUseEntityMapper.WriteProperty` | core/src/main/java/org/neo4j/ogm/context/SingleUseEntityMapper.java:127-156 | the step-by-step lookup and coercion perform exactly the write `PropertyWrite` describes, and change nothing for an unresolvable property |
| `Entities.Entity.Write` | core/src/main/java/org/neo4j/ogm/context/SingleUseEntityMapper.java:154 | a field write sets that one field, leaves the others, and is recorded in the write history |
| `Entities.Entity.constructor` | core/src/main/java/org/neo4j/ogm/context/SingleUseEntityMapper.java:103 | a created instance holds the fields its constructor set and has seen no field write |
| `Entities.ApplyWrites` | core/src/main/java/org/neo4j/ogm/context/SingleUseEntityMapper.java:154 | after a sequence of writes the object has its old fields plus every targeted field |
| `Entities.ApplyWritesUntouched` | core/src/main/java/org/neo4j/ogm/context/SingleUseEntityMapper.java:154 | a field that no write targets keeps its value (or stays absent) |
| `Entities.ApplyWritesLastWins` | core/src/main/java/org/neo4j/ogm/context/SingleUseEntityMapper.java:154 | a field holds the value of the last write that targets it |
| `Entities.ApplyWritesAgreeing` | core/src/main/java/org/neo4j/ogm/context/SingleUseEntityMapper.java:154 | a targeted field whose writes all carry the same value ends with that value |
| `ProgramExample.ApolloRowProperties` | test/src/test/java/org/neo4j/ogm/domain/satellites/Program.java:27-28 | the columns `program`, `id` with "Apollo", 11 give the property map `program ↦ "Apollo", id ↦ 11` |
| `ProgramExample.ApolloWrites` | test/src/test/java/org/neo4j/ogm/domain/satellites/Program.java:27-28 | "program" is written unchanged to the field `name`, "id" unchanged to the identity field |
| `ProgramExample.ApolloName` | test/src/test/java/org/neo4j/ogm/domain/satellites/Program.java:27-28 | mapping the row sets `name` to "Apollo", in any visiting order |
| `ProgramExample.ApolloId` | test/src/test/java/org/neo4j/ogm/domain/satellites/Program.java:27-28 | mapping the row sets the identity field to 11, in any visiting order |
| `ProgramExample.SatellitesArrayMerged` | test/src/test/java/org/neo4j/ogm/domain/satellites/Program.java:29 | an array of satellites becomes a list merged with an empty-list seed, with `Program` as element type since `satellites` is not a property field |
| `ProgramExample.UnknownPropertySkipped` | test/src/test/java/org/neo4j/ogm/domain/satellites/Program.java:25-29 | every property name other than "program", "satellites" and "id" (which names no field, relationship or identity of `Program`) produces no write |

## Left out

- Reflection: `FieldInfo.write`, `getClass()`, `getSimpleName()` and `ClassUtils.getType` are abstract descriptors and a map update. A write the reflection layer would reject (type mismatch, inaccessible field) is not modelled: `Entity.Write` always succeeds.
- Primitive arrays (`int[]`, `long[]`): the `(Object[])` cast at SingleUseEntityMapper.java:146 throws `ClassCastException` for them; `Value` has no primitive-array kind, so that failure is not modelled.
- `EntityFactory.newObject` and `EntityInstantiator.createInstance` are foreign construction logic: an opaque function gives the created object's runtime class and the fields its constructor set.
- SingleUseEntityMapper.FromEntityFactory: takes the instance-creation function as a parameter; the source ignores its `entityFactory` argument and builds `new EntityFactory(metadata)` itself, and this model does not distinguish the two.
- `EntityAccessManager.merge` is not part of this model: it is an uninterpreted function value given to the mapper at construction, and nothing is assumed about its result.
- `RowModel` is not part of this model: `MapRow` takes the row's values directly.
- slf4j logging of an unresolvable property is diagnostic only and left out.
- Null column names (Java `HashMap` allows a null key) are not modelled: names are strings.
- `SimpleTransaction` (src/main/java/org/neo4j/ogm/session/transaction/SimpleTransaction.java) is a thin transaction wrapper outside the mapper and is not modelled.
- `DomainObject`, the superclass of `Program`, is not part of this model; the example takes its identity field to be a `Long` named `id`.
- NonConstructorProperties: its own contract states only that every attempted name comes from the visiting order; the converse and the exclusion of constructor arguments are proved in `NonConstructorPropertiesEnumerate`.
