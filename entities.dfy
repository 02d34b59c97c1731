/** Entity instances and the field writes the mapper performs on them. */
module Entities {
  import opened Values
  import opened Metadata

  /** One call of `FieldInfo.write(instance, value)`. */
  datatype FieldWrite = FieldWrite(field: FieldInfo, value: Value)

  /** The Java field names a sequence of writes targets. */
  function TargetedFields(writes: seq<FieldWrite>): (names: set<string>)
  {
    set k | 0 <= k < |writes| :: writes[k].field.name
  }

  /** The field values left after performing `writes`, in order, on an object whose fields were `fields`. */
  function ApplyWrites(fields: map<string, Value>, writes: seq<FieldWrite>): (r: map<string, Value>)
    ensures r.Keys == fields.Keys + TargetedFields(writes)
  {
    if writes == [] then fields
    else
      var prefix := writes[..|writes| - 1];
      var w := writes[|writes| - 1];
      assert TargetedFields(writes) == TargetedFields(prefix) + {w.field.name} by {
        assert forall k :: 0 <= k < |prefix| ==> prefix[k] == writes[k];
      }
      ApplyWrites(fields, prefix)[w.field.name := w.value]
  }

  /** A field no write targets keeps its value. */
  lemma {:induction false} ApplyWritesUntouched(fields: map<string, Value>, writes: seq<FieldWrite>, f: string)
    requires forall k :: 0 <= k < |writes| ==> writes[k].field.name != f
    ensures f in ApplyWrites(fields, writes) <==> f in fields
    ensures f in fields ==> ApplyWrites(fields, writes)[f] == fields[f]
  {
    if writes != [] {
      ApplyWritesUntouched(fields, writes[..|writes| - 1], f);
    }
  }

  /** A field ends up holding the value of the last write that targets it. */
  lemma {:induction false} ApplyWritesLastWins(fields: map<string, Value>, writes: seq<FieldWrite>, k: nat)
    requires k < |writes|
    requires forall j :: k < j < |writes| ==> writes[j].field.name != writes[k].field.name
    ensures ApplyWrites(fields, writes)[writes[k].field.name] == writes[k].value
  {
    if k < |writes| - 1 {
      ApplyWritesLastWins(fields, writes[..|writes| - 1], k);
    }
  }

  /** A field that some write targets ends up holding the value all writes to it agree on. */
  lemma {:induction false} ApplyWritesAgreeing(fields: map<string, Value>, writes: seq<FieldWrite>, f: string, v: Value)
    requires f in TargetedFields(writes)
    requires forall k :: 0 <= k < |writes| && writes[k].field.name == f ==> writes[k].value == v
    ensures ApplyWrites(fields, writes)[f] == v
  {
    var prefix := writes[..|writes| - 1];
    var last := writes[|writes| - 1];
    if last.field.name != f {
      var k :| 0 <= k < |writes| && writes[k].field.name == f;
      assert k < |prefix| && prefix[k] == writes[k];
      ApplyWritesAgreeing(fields, prefix, f, v);
    }
  }

  /**
   * A mapped object. `runtimeClass` is the simple name of its runtime class;
   * `fields` maps Java field names to their values. The ghost `history`
   * records every field write performed on it since it was constructed with
   * the field values `initial`.
   */
  class Entity {
    const runtimeClass: string
    ghost const initial: map<string, Value>
    var fields: map<string, Value>
    ghost var history: seq<FieldWrite>

    ghost predicate Valid()
      reads this
    {
      fields == ApplyWrites(initial, history)
    }

    constructor (runtimeClass: string, fields: map<string, Value>)
      ensures Valid()
      ensures this.runtimeClass == runtimeClass && this.initial == fields
      ensures this.fields == fields && history == []
    {
      this.runtimeClass := runtimeClass;
      this.initial := fields;
      this.fields := fields;
      history := [];
    }

    /** `field.write(this, value)`: sets one field and nothing else. */
    method Write(field: FieldInfo, value: Value)
      requires Valid()
      modifies this
      ensures Valid()
      ensures fields == old(fields)[field.name := value]
      ensures history == old(history) + [FieldWrite(field, value)]
    {
      fields := fields[field.name := value];
      history := history + [FieldWrite(field, value)];
      assert history[..|history| - 1] == old(history);
    }
  }
}
