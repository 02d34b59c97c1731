/**
 * The single-use row-to-entity mapper (org.neo4j.ogm.context.SingleUseEntityMapper):
 * builds a property map from a result row, creates an instance, and writes
 * every property that is not a constructor argument onto the field the
 * class metadata resolves for it.
 */
module SingleUseEntityMapping {
  import opened Wrappers
  import opened Values
  import opened Metadata
  import opened EntityAccess
  import opened Entities
  import opened Instantiation

  /** The `MappingException` raised for a runtime class the metadata does not know. */
  datatype MappingError = ClassNotKnown(simpleName: string)

  // ---------------------------------------------------------------------------
  // Building the property map from a row
  // ---------------------------------------------------------------------------

  /** The property map of a row: column `i` names value `i`, a later duplicate column overwriting an earlier one. */
  function Zip(columnNames: seq<string>, values: seq<Value>): (properties: map<string, Value>)
    requires |values| <= |columnNames|
  {
    if values == [] then map[]
    else Zip(columnNames, values[..|values| - 1])[columnNames[|values| - 1] := values[|values| - 1]]
  }

  /** The keys of the property map are exactly the names of the columns that have a value. */
  lemma {:induction false} ZipKeys(columnNames: seq<string>, values: seq<Value>)
    requires |values| <= |columnNames|
    ensures Zip(columnNames, values).Keys == set i | 0 <= i < |values| :: columnNames[i]
  {
    if values != [] {
      var n := |values| - 1;
      ZipKeys(columnNames, values[..n]);
      assert (set i | 0 <= i < |values| :: columnNames[i])
          == (set i | 0 <= i < n :: columnNames[i]) + {columnNames[n]};
    }
  }

  /** A column's value is in the map unless a later column has the same name. */
  lemma {:induction false} ZipLastWins(columnNames: seq<string>, values: seq<Value>, i: nat)
    requires |values| <= |columnNames| && i < |values|
    requires forall j :: i < j < |values| ==> columnNames[j] != columnNames[i]
    ensures columnNames[i] in Zip(columnNames, values)
    ensures Zip(columnNames, values)[columnNames[i]] == values[i]
  {
    var n := |values| - 1;
    if i < n {
      ZipLastWins(columnNames, values[..n], i);
    }
  }

  /** The index loop of `map(type, columnNames, rowModel)` filling a fresh map. */
  method BuildPropertyMap(columnNames: seq<string>, values: seq<Value>) returns (properties: map<string, Value>)
    requires |values| <= |columnNames|
    ensures properties == Zip(columnNames, values)
    ensures properties.Keys == set i | 0 <= i < |values| :: columnNames[i]
  {
    properties := map[];
    for i := 0 to |values|
      invariant properties == Zip(columnNames, values[..i])
    {
      assert values[..i + 1][..i] == values[..i];
      properties := properties[columnNames[i] := values[i]];
    }
    assert values[..|values|] == values;
    ZipKeys(columnNames, values);
  }

  // ---------------------------------------------------------------------------
  // Metadata lookups
  // ---------------------------------------------------------------------------

  /** `resolveClassInfoFor`: the class's metadata, or a `MappingException` when none is registered. */
  function ResolveClassInfoFor(metadata: MetaData, simpleName: string): (r: Result<ClassInfo, MappingError>)
    ensures r.Success? <==> simpleName in metadata
    ensures r.Success? ==> r.value == metadata[simpleName]
    ensures r.Failure? ==> r.error == ClassNotKnown(simpleName)
  {
    if simpleName in metadata then Success(metadata[simpleName]) else Failure(ClassNotKnown(simpleName))
  }

  /** The strategy's predicate for a class, or the always-false predicate when it supplies none. */
  function ConstructorArgumentPredicateFor(supplier: PredicateSupplier, cls: string): (isConstructorArgument: ConstructorArgumentPredicate)
    ensures supplier(cls).Some? ==> isConstructorArgument == supplier(cls).value
    ensures supplier(cls).None? ==> forall name :: !isConstructorArgument(name)
  {
    match supplier(cls)
    case Some(p) => p
    case None => name => false
  }

  /**
   * The field a property is written to: the field with that property name,
   * else the relationship field with that name, else (for the name "id"
   * only) the identity field; None when all three fail.
   */
  function ResolveTargetField(ci: ClassInfo, name: string): (r: Option<FieldInfo>)
    ensures r.Some? <==> name in ci.fieldInfos || name in ci.relationshipFields || (name == "id" && ci.identityField.Some?)
    ensures name in ci.fieldInfos ==> r == Some(ci.fieldInfos[name])
    ensures name !in ci.fieldInfos && name in ci.relationshipFields ==> r == Some(ci.relationshipFields[name])
    ensures name !in ci.fieldInfos && name !in ci.relationshipFields && name == "id" ==> r == ci.identityField
  {
    if name in ci.fieldInfos then Some(ci.fieldInfos[name])
    else if name in ci.relationshipFields then Some(ci.relationshipFields[name])
    else if name == "id" then ci.identityField
    else None
  }

  /** `underlyingElementType`: the element class passed to `merge`. */
  function UnderlyingElementType(ci: ClassInfo, name: string): (r: string)
    ensures name in ci.propertyFields ==> r == ci.propertyFields[name].elementType
    ensures name !in ci.propertyFields ==> r == ci.underlyingClass
  {
    if name in ci.propertyFields then ci.propertyFields[name].elementType else ci.underlyingClass
  }

  // ---------------------------------------------------------------------------
  // Value coercion
  // ---------------------------------------------------------------------------

  /** A native array becomes a list of the same elements in the same order; anything else is kept. */
  function AsList(v: Value): (r: Value)
    ensures v.ObjectArray? ==> r.ListOf? && r.elems == v.elems
    ensures !v.ObjectArray? ==> r == v
    ensures !r.ObjectArray?
  {
    if v.ObjectArray? then ListOf(v.elems) else v
  }

  /** The value written to `target` for property `name` with raw value `v`. */
  function CoerceValue(merge: MergeFunction, ci: ClassInfo, name: string, target: FieldInfo, v: Value): (r: Value)
    ensures target.fieldType.ArrayType? ==>
      r == merge(target.fieldType, AsList(v), EmptyArraySeed, UnderlyingElementType(ci, name))
    ensures target.fieldType.IterableType? ==>
      r == merge(target.fieldType, AsList(v), EmptyListSeed, UnderlyingElementType(ci, name))
    ensures target.fieldType.PlainType? && v.ObjectArray? ==> r == ListOf(v.elems)
    ensures target.fieldType.PlainType? && !v.ObjectArray? ==> r == v
  {
    var listed := AsList(v);
    match target.fieldType
    case ArrayType(_) => merge(target.fieldType, listed, EmptyArraySeed, UnderlyingElementType(ci, name))
    case IterableType(_) => merge(target.fieldType, listed, EmptyListSeed, UnderlyingElementType(ci, name))
    case PlainType(_) => listed
  }

  /** The one field write `writeProperty` performs for a property, or None when it skips it. */
  function PropertyWrite(merge: MergeFunction, ci: ClassInfo, name: string, v: Value): (r: Option<FieldWrite>)
    ensures r.Some? <==> ResolveTargetField(ci, name).Some?
    ensures r.Some? ==> r.value.field == ResolveTargetField(ci, name).value
    ensures r.Some? ==> r.value.value == CoerceValue(merge, ci, name, r.value.field, v)
  {
    match ResolveTargetField(ci, name)
    case Some(f) => Some(FieldWrite(f, CoerceValue(merge, ci, name, f, v)))
    case None => None
  }

  // ---------------------------------------------------------------------------
  // Filtering and writing a whole property map
  // ---------------------------------------------------------------------------

  /** `order` visits every key of `keys` exactly once. */
  ghost predicate IsEnumeration(order: seq<string>, keys: set<string>)
  {
    && (forall i, j :: 0 <= i < j < |order| ==> order[i] != order[j])
    && (forall n :: n in order <==> n in keys)
  }

  /** The property names, in visiting order, that survive the constructor-argument filter. */
  function NonConstructorProperties(isConstructorArgument: ConstructorArgumentPredicate, order: seq<string>): (attempted: seq<string>)
    ensures forall n :: n in attempted ==> n in order
  {
    if order == [] then []
    else
      var last := order[|order| - 1];
      NonConstructorProperties(isConstructorArgument, order[..|order| - 1])
        + (if isConstructorArgument(last) then [] else [last])
  }

  /** The field writes performed, in order, for the property names `names`. */
  function Writes(merge: MergeFunction, ci: ClassInfo, properties: map<string, Value>, names: seq<string>): (ws: seq<FieldWrite>)
    requires forall n :: n in names ==> n in properties
    ensures |ws| <= |names|
  {
    if names == [] then []
    else
      var last := names[|names| - 1];
      Writes(merge, ci, properties, names[..|names| - 1]) + WriteOf(merge, ci, last, properties[last])
  }

  /** The writes `writeProperty` performs for one property: one, or none when it is skipped. */
  function WriteOf(merge: MergeFunction, ci: ClassInfo, name: string, v: Value): (ws: seq<FieldWrite>)
  {
    match PropertyWrite(merge, ci, name, v)
    case Some(w) => [w]
    case None => []
  }

  /**
   * Regrouping an append; stated once here because proving it inline in the
   * loop of `WriteNonConstructorProperties` makes that proof several times dearer.
   */
  lemma AppendAssociative<T>(a: seq<T>, b: seq<T>, c: seq<T>)
    ensures a + b + c == a + (b + c)
  {
  }

  /** The prefix of an enumeration enumerates the keys without the last one. */
  lemma EnumerationPrefix(order: seq<string>, keys: set<string>)
    requires IsEnumeration(order, keys) && order != []
    ensures IsEnumeration(order[..|order| - 1], keys - {order[|order| - 1]})
  {
    var prefix := order[..|order| - 1];
    forall n ensures n in prefix <==> n in keys - {order[|order| - 1]} {
      if n in prefix {
        var i :| 0 <= i < |prefix| && prefix[i] == n;
        assert order[i] == n;
      }
      if n in keys - {order[|order| - 1]} {
        assert n in order;
        var i :| 0 <= i < |order| && order[i] == n;
        assert i < |prefix|;
        assert prefix[i] == n;
      }
    }
  }

  /** Visiting one more, not yet visited, key extends an enumeration. */
  lemma EnumerationExtend(order: seq<string>, keys: set<string>, name: string)
    requires IsEnumeration(order, keys) && name !in keys
    ensures IsEnumeration(order + [name], keys + {name})
  {
    var extended := order + [name];
    forall i, j | 0 <= i < j < |extended| ensures extended[i] != extended[j] {
      if j == |order| {
        assert extended[i] == order[i] && order[i] in keys;
      }
    }
  }

  /** Visiting `order[i]` after `order[..i]` adds the write for it, if it is attempted and resolves. */
  lemma WritesStep(merge: MergeFunction, ci: ClassInfo, properties: map<string, Value>,
                   isConstructorArgument: ConstructorArgumentPredicate, order: seq<string>, i: nat)
    requires forall n :: n in order ==> n in properties
    requires i < |order|
    ensures isConstructorArgument(order[i]) ==>
      Writes(merge, ci, properties, NonConstructorProperties(isConstructorArgument, order[..i + 1]))
      == Writes(merge, ci, properties, NonConstructorProperties(isConstructorArgument, order[..i]))
    ensures !isConstructorArgument(order[i]) ==>
      Writes(merge, ci, properties, NonConstructorProperties(isConstructorArgument, order[..i + 1]))
      == Writes(merge, ci, properties, NonConstructorProperties(isConstructorArgument, order[..i]))
         + WriteOf(merge, ci, order[i], properties[order[i]])
  {
    var name := order[i];
    var extended := order[..i + 1];
    assert extended[..|extended| - 1] == order[..i];
    var attempted := NonConstructorProperties(isConstructorArgument, order[..i]);
    assert NonConstructorProperties(isConstructorArgument, extended)
        == attempted + (if isConstructorArgument(name) then [] else [name]);
    if !isConstructorArgument(name) {
      var more := attempted + [name];
      assert more[..|more| - 1] == attempted;
      assert NonConstructorProperties(isConstructorArgument, extended) == more;
      assert Writes(merge, ci, properties, more)
          == Writes(merge, ci, properties, attempted) + WriteOf(merge, ci, name, properties[name]);
    } else {
      assert NonConstructorProperties(isConstructorArgument, extended) == attempted;
    }
  }

  /** The iteration order of a property map's entry set: each key once, in an order the map chooses. */
  method EntryOrder(properties: map<string, Value>) returns (order: seq<string>)
    ensures IsEnumeration(order, properties.Keys)
  {
    order := [];
    var remaining := properties.Keys;
    while remaining != {}
      invariant remaining <= properties.Keys
      invariant IsEnumeration(order, properties.Keys - remaining)
      decreases remaining
    {
      var name :| name in remaining;
      EnumerationExtend(order, properties.Keys - remaining, name);
      assert properties.Keys - (remaining - {name}) == (properties.Keys - remaining) + {name};
      order := order + [name];
      remaining := remaining - {name};
    }
  }

  /** An enumeration is as long as the set it enumerates: every key is visited exactly once. */
  lemma {:induction false} EnumerationLength(order: seq<string>, keys: set<string>)
    requires IsEnumeration(order, keys)
    ensures |order| == |keys|
  {
    if order == [] {
      assert keys == {} by {
        forall n ensures n !in keys { assert n !in order; }
      }
    } else {
      EnumerationPrefix(order, keys);
      EnumerationLength(order[..|order| - 1], keys - {order[|order| - 1]});
    }
  }

  /**
   * Filtering visits every property that is not a constructor argument
   * exactly once, and no constructor argument.
   */
  lemma {:induction false} NonConstructorPropertiesEnumerate(isConstructorArgument: ConstructorArgumentPredicate, order: seq<string>, keys: set<string>)
    requires IsEnumeration(order, keys)
    ensures IsEnumeration(NonConstructorProperties(isConstructorArgument, order), set n | n in keys && !isConstructorArgument(n))
  {
    if order != [] {
      var last := order[|order| - 1];
      var prefix := order[..|order| - 1];
      EnumerationPrefix(order, keys);
      NonConstructorPropertiesEnumerate(isConstructorArgument, prefix, keys - {last});
      var before := NonConstructorProperties(isConstructorArgument, prefix);
      assert last !in before;
      var after := NonConstructorProperties(isConstructorArgument, order);
      assert after == before + (if isConstructorArgument(last) then [] else [last]);
      forall n ensures n in after <==> n in keys && !isConstructorArgument(n) {
        assert n in after <==> n in before || (n == last && !isConstructorArgument(last));
      }
    }
  }

  /** With the always-false predicate (no strategy predicate), every property is attempted, in visiting order. */
  lemma {:induction false} NoPredicateAttemptsAll(order: seq<string>, cls: string)
    ensures NonConstructorProperties(ConstructorArgumentPredicateFor(DefaultConstructorArgumentPredicateSupplier(), cls), order) == order
  {
    if order != [] {
      NoPredicateAttemptsAll(order[..|order| - 1], cls);
      assert order[..|order| - 1] + [order[|order| - 1]] == order;
    }
  }

  /**
   * A write happens exactly for the attempted properties whose target field
   * resolves; an unresolvable property writes nothing.
   */
  lemma {:induction false} WritesExactlyResolved(merge: MergeFunction, ci: ClassInfo, properties: map<string, Value>, names: seq<string>)
    requires forall n :: n in names ==> n in properties
    ensures forall w :: w in Writes(merge, ci, properties, names) <==>
      exists n :: n in names && PropertyWrite(merge, ci, n, properties[n]) == Some(w)
  {
    if names != [] {
      var last := names[|names| - 1];
      var prefix := names[..|names| - 1];
      WritesExactlyResolved(merge, ci, properties, prefix);
      forall w ensures w in Writes(merge, ci, properties, names) <==>
        exists n :: n in names && PropertyWrite(merge, ci, n, properties[n]) == Some(w)
      {
        if exists n :: n in names && PropertyWrite(merge, ci, n, properties[n]) == Some(w) {
          var n :| n in names && PropertyWrite(merge, ci, n, properties[n]) == Some(w);
          if n != last {
            assert n in prefix;
          }
        }
      }
    }
  }

  /**
   * Constructor-argument exclusion: over one visit of the property map, a
   * field write happens exactly for the properties that are not constructor
   * arguments and resolve to a field, and for no constructor argument.
   */
  lemma WritesExcludeConstructorArguments(merge: MergeFunction, ci: ClassInfo, properties: map<string, Value>,
                                          isConstructorArgument: ConstructorArgumentPredicate, order: seq<string>)
    requires IsEnumeration(order, properties.Keys)
    ensures forall w :: w in Writes(merge, ci, properties, NonConstructorProperties(isConstructorArgument, order)) <==>
      exists n :: n in properties && !isConstructorArgument(n) && PropertyWrite(merge, ci, n, properties[n]) == Some(w)
  {
    var attempted := NonConstructorProperties(isConstructorArgument, order);
    NonConstructorPropertiesEnumerate(isConstructorArgument, order, properties.Keys);
    assert forall n :: n in attempted <==> n in properties && !isConstructorArgument(n);
    WritesExactlyResolved(merge, ci, properties, attempted);
  }

  /** Two properties that both resolve, to fields of the same name. */
  ghost predicate SameTargetField(merge: MergeFunction, ci: ClassInfo, properties: map<string, Value>, a: string, b: string)
    requires a in properties && b in properties
  {
    && PropertyWrite(merge, ci, a, properties[a]).Some?
    && PropertyWrite(merge, ci, b, properties[b]).Some?
    && PropertyWrite(merge, ci, a, properties[a]).value.field.name == PropertyWrite(merge, ci, b, properties[b]).value.field.name
  }

  /**
   * A property that is not a constructor argument and whose target field no
   * other such property shares leaves that field holding its coerced value.
   */
  lemma MappedFieldValue(merge: MergeFunction, ci: ClassInfo, properties: map<string, Value>,
                         isConstructorArgument: ConstructorArgumentPredicate, order: seq<string>,
                         initial: map<string, Value>, name: string)
    requires IsEnumeration(order, properties.Keys)
    requires name in properties && !isConstructorArgument(name)
    requires PropertyWrite(merge, ci, name, properties[name]).Some?
    requires forall other :: other in properties && other != name && !isConstructorArgument(other) ==>
      !SameTargetField(merge, ci, properties, other, name)
    ensures var w := PropertyWrite(merge, ci, name, properties[name]).value;
      var fields := ApplyWrites(initial, Writes(merge, ci, properties, NonConstructorProperties(isConstructorArgument, order)));
      w.field.name in fields && fields[w.field.name] == w.value
  {
    var w := PropertyWrite(merge, ci, name, properties[name]).value;
    var writes := Writes(merge, ci, properties, NonConstructorProperties(isConstructorArgument, order));
    WritesExcludeConstructorArguments(merge, ci, properties, isConstructorArgument, order);
    assert w in writes;
    var k :| 0 <= k < |writes| && writes[k] == w;
    assert w.field.name in TargetedFields(writes);
    forall j | 0 <= j < |writes| && writes[j].field.name == w.field.name
      ensures writes[j].value == w.value
    {
      assert writes[j] in writes;
      var other :| other in properties && !isConstructorArgument(other)
        && PropertyWrite(merge, ci, other, properties[other]) == Some(writes[j]);
      if other != name {
        assert SameTargetField(merge, ci, properties, other, name);
      }
    }
    ApplyWritesAgreeing(initial, writes, w.field.name, w.value);
  }

  // ---------------------------------------------------------------------------
  // The mapper
  // ---------------------------------------------------------------------------

  class SingleUseEntityMapper {
    const metadata: MetaData
    const createInstance: CreateInstance
    const constructorArgumentPredicateSupplier: PredicateSupplier
    /** Stands for the static `EntityAccessManager.merge`. */
    const merge: MergeFunction

    /** The compatibility constructor: the strategy never reports constructor arguments. */
    constructor FromEntityFactory(metadata: MetaData, createInstance: CreateInstance, merge: MergeFunction)
      ensures this.metadata == metadata && this.createInstance == createInstance && this.merge == merge
      ensures forall cls :: constructorArgumentPredicateSupplier(cls) == None
    {
      this.metadata := metadata;
      this.createInstance := createInstance;
      this.constructorArgumentPredicateSupplier := DefaultConstructorArgumentPredicateSupplier();
      this.merge := merge;
    }

    /** Creates instances through `instantiator` and takes its constructor-argument predicates. */
    constructor FromInstantiator(metadata: MetaData, instantiator: EntityInstantiator, merge: MergeFunction)
      ensures this.metadata == metadata && this.merge == merge
      ensures createInstance == instantiator.createInstance
      ensures constructorArgumentPredicateSupplier == instantiator.constructorArgumentPredicateSupplier
    {
      this.metadata := metadata;
      this.createInstance := instantiator.createInstance;
      this.constructorArgumentPredicateSupplier := instantiator.constructorArgumentPredicateSupplier;
      this.merge := merge;
    }

    /**
     * What mapping `row` onto a new `type` instance yields, given the order
     * in which the property map was visited: a `MappingException` when the
     * created object's runtime class is unknown, otherwise the created object
     * after one write per non-constructor property that resolves to a field.
     */
    ghost predicate MapsTo(requested: string, row: map<string, Value>, r: Result<Entity, MappingError>, order: seq<string>)
      reads if r.Success? then {r.value} else {}
    {
      var created := createInstance(requested, row);
      match r
      case Failure(e) =>
        created.runtimeClass !in metadata && e == ClassNotKnown(created.runtimeClass)
      case Success(entity) =>
        && created.runtimeClass in metadata
        && entity.Valid()
        && entity.runtimeClass == created.runtimeClass
        && entity.initial == created.fields
        && IsEnumeration(order, row.Keys)
        && entity.history == Writes(merge, metadata[created.runtimeClass], row,
             NonConstructorProperties(ConstructorArgumentPredicateFor(constructorArgumentPredicateSupplier, created.runtimeClass), order))
    }

    /** `map(type, columnNames, rowModel)`; only the first `|values|` column names are read. */
    method MapRow(requested: string, columnNames: seq<string>, values: seq<Value>) returns (r: Result<Entity, MappingError>, ghost order: seq<string>)
      requires |values| <= |columnNames|
      ensures r.Success? ==> fresh(r.value)
      ensures MapsTo(requested, Zip(columnNames, values), r, order)
    {
      var properties := BuildPropertyMap(columnNames, values);
      r, order := Map(requested, properties);
    }

    /** `map(type, row)`. */
    method Map(requested: string, row: map<string, Value>) returns (r: Result<Entity, MappingError>, ghost order: seq<string>)
      ensures r.Success? ==> fresh(r.value)
      ensures MapsTo(requested, row, r, order)
    {
      var created := createInstance(requested, row);
      var entity := new Entity(created.runtimeClass, created.fields);
      var outcome;
      outcome, order := SetPropertiesOnEntity(entity, row);
      if outcome.Failure? {
        r := Failure(outcome.error);
      } else {
        r := Success(entity);
      }
    }

    /**
     * `setPropertiesOnEntity`: writes every property that is not a
     * constructor argument, visiting the property map in an unspecified
     * order, which is returned as `order`.
     */
    method SetPropertiesOnEntity(entity: Entity, properties: map<string, Value>) returns (r: Result<(), MappingError>, ghost order: seq<string>)
      requires entity.Valid()
      modifies entity
      ensures entity.Valid()
      ensures r.Failure? <==> entity.runtimeClass !in metadata
      ensures r.Failure? ==> r.error == ClassNotKnown(entity.runtimeClass) && unchanged(entity)
      ensures r.Success? ==> IsEnumeration(order, properties.Keys)
      ensures r.Success? ==> entity.history == old(entity.history) + Writes(merge, metadata[entity.runtimeClass], properties,
        NonConstructorProperties(ConstructorArgumentPredicateFor(constructorArgumentPredicateSupplier, entity.runtimeClass), order))
    {
      order := [];
      var resolved := ResolveClassInfoFor(metadata, entity.runtimeClass);
      if resolved.Failure? {
        return Failure(resolved.error), order;
      }
      var ci := resolved.value;
      var isConstructorArgument := ConstructorArgumentPredicateFor(constructorArgumentPredicateSupplier, entity.runtimeClass);
      order := WriteNonConstructorProperties(ci, isConstructorArgument, entity, properties);
      r := Success(());
    }

    /**
     * The stream over the property map's entries: drops the constructor
     * arguments and writes each remaining property, in the map's iteration
     * order, which is returned as `order`.
     */
    method WriteNonConstructorProperties(ci: ClassInfo, isConstructorArgument: ConstructorArgumentPredicate,
                                         entity: Entity, properties: map<string, Value>) returns (order: seq<string>)
      requires entity.Valid()
      modifies entity
      ensures entity.Valid()
      ensures IsEnumeration(order, properties.Keys)
      ensures entity.history == old(entity.history)
        + Writes(merge, ci, properties, NonConstructorProperties(isConstructorArgument, order))
    {
      order := EntryOrder(properties);
      for i := 0 to |order|
        invariant entity.Valid()
        invariant entity.history == old(entity.history)
          + Writes(merge, ci, properties, NonConstructorProperties(isConstructorArgument, order[..i]))
      {
        var name := order[i];
        WritesStep(merge, ci, properties, isConstructorArgument, order, i);
        ghost var done := Writes(merge, ci, properties, NonConstructorProperties(isConstructorArgument, order[..i]));
        if !isConstructorArgument(name) {
          WriteProperty(ci, entity, name, properties[name]);
          ghost var step := WriteOf(merge, ci, name, properties[name]);
          AppendAssociative(old(entity.history), done, step);
        }
      }
      assert order[..|order|] == order;
    }

    /**
     * `writeProperty`: resolves the target field step by step, normalises
     * the value, and writes it; a property with no target field is skipped.
     */
    method WriteProperty(ci: ClassInfo, instance: Entity, name: string, value: Value)
      requires instance.Valid()
      modifies instance
      ensures instance.Valid()
      ensures PropertyWrite(merge, ci, name, value).None? ==> unchanged(instance)
      ensures instance.history == old(instance.history) + WriteOf(merge, ci, name, value)
    {
      var targetFieldInfo: Option<FieldInfo> := if name in ci.fieldInfos then Some(ci.fieldInfos[name]) else None;
      if targetFieldInfo.None? {
        targetFieldInfo := if name in ci.relationshipFields then Some(ci.relationshipFields[name]) else None;
      }
      if targetFieldInfo.None? && name == "id" {
        targetFieldInfo := ci.identityField;
      }
      if targetFieldInfo.Some? {
        var target := targetFieldInfo.value;
        var v := value;
        if v.ObjectArray? {
          v := ListOf(v.elems);
        }
        if target.fieldType.ArrayType? || target.fieldType.IterableType? {
          var elementType := UnderlyingElementType(ci, name);
          v := if target.fieldType.ArrayType?
            then merge(target.fieldType, v, EmptyArraySeed, elementType)
            else merge(target.fieldType, v, EmptyListSeed, elementType);
        }
        instance.Write(target, v);
      }
    }
  }
}
