/**
 * Index entry updates (org.neo4j.storageengine.api.IndexEntryUpdate): one
 * entity's change against one index schema, as an addition, a removal or a
 * change of the indexed property values. Single-value and composite updates
 * share one representation: a sequence of values, one per schema property.
 */
module IndexEntryUpdates {
  import opened Wrappers

  /** A property value (org.neo4j.values.storable.Value). */
  datatype Value = TextValue(text: string) | IntegralValue(number: int) | BooleanValue(truth: bool)

  /** A schema on a label and one or more property keys (SchemaDescriptorFactory.forLabel). */
  datatype SchemaDescriptor = LabelSchema(labelId: int, propertyIds: seq<int>)

  function ForLabel(labelId: int, propertyIds: seq<int>): (s: SchemaDescriptor)
    ensures s.labelId == labelId && s.propertyIds == propertyIds
  {
    LabelSchema(labelId, propertyIds)
  }

  datatype UpdateMode = ADDED | REMOVED | CHANGED

  /** The error beforeValues() raises for an addition or a removal. */
  datatype UnsupportedOperation = UnsupportedOperation(mode: UpdateMode)

  datatype IndexEntryUpdate =
    | Added(entityId: int, schema: SchemaDescriptor, after: seq<Value>)
    | Removed(entityId: int, schema: SchemaDescriptor, after: seq<Value>)
    | Changed(entityId: int, schema: SchemaDescriptor, before: seq<Value>, after: seq<Value>)
  {
    /** updateMode(). */
    function Mode(): UpdateMode {
      match this
      case Added(_, _, _) => ADDED
      case Removed(_, _, _) => REMOVED
      case Changed(_, _, _, _) => CHANGED
    }

    /** values(): the values after the update (for a removal, the removed values). */
    function Values(): (r: seq<Value>)
      ensures WellFormed() ==> |r| == |schema.propertyIds|
    {
      after
    }

    /** beforeValues(): only a change has values before the update. */
    function BeforeValues(): (r: Result<seq<Value>, UnsupportedOperation>)
      ensures r.Success? <==> Mode() == CHANGED
      ensures r.Failure? ==> r.error == UnsupportedOperation(Mode())
    {
      match this
      case Changed(_, _, before, _) => Success(before)
      case _ => Failure(UnsupportedOperation(Mode()))
    }

    /** One value per schema property, before and after. */
    predicate WellFormed() {
      && |after| == |schema.propertyIds|
      && (Changed? ==> |before| == |schema.propertyIds|)
    }

    /**
     * equals(): same mode, entity, schema and values, before and after; that
     * is exactly equality of the update values.
     */
    predicate Equals(other: IndexEntryUpdate): (r: bool)
      ensures r <==> this == other
    {
      && Mode() == other.Mode()
      && entityId == other.entityId
      && schema == other.schema
      && Values() == other.Values()
      && BeforeValues() == other.BeforeValues()
    }

    /**
     * hashCode(): a combination of the fields that equals() compares. The
     * formula is this model's own; only its agreement with equals() is meant.
     */
    function HashCode(): int {
      var h := 31 * ModeHash(Mode()) + entityId;
      var h' := 31 * h + SchemaHash(schema);
      var h'' := 31 * h' + ValuesHash(Values());
      match BeforeValues()
      case Success(before) => 31 * h'' + ValuesHash(before)
      case Failure(_) => h''
    }
  }

  function ModeHash(mode: UpdateMode): int {
    match mode
    case ADDED => 1
    case REMOVED => 2
    case CHANGED => 3
  }

  function IntsHash(xs: seq<int>): int {
    if xs == [] then 1 else 31 * IntsHash(xs[..|xs| - 1]) + xs[|xs| - 1]
  }

  function SchemaHash(s: SchemaDescriptor): int {
    31 * s.labelId + IntsHash(s.propertyIds)
  }

  function ValueHash(v: Value): int {
    match v
    case TextValue(text) => IntsHash(seq(|text|, i requires 0 <= i < |text| => text[i] as int))
    case IntegralValue(n) => n
    case BooleanValue(b) => if b then 1231 else 1237
  }

  function ValuesHash(vs: seq<Value>): int {
    if vs == [] then 1 else 31 * ValuesHash(vs[..|vs| - 1]) + ValueHash(vs[|vs| - 1])
  }

  /** IndexEntryUpdate.add(entityId, schema, values...). */
  function Add(entityId: int, schema: SchemaDescriptor, values: seq<Value>): (u: IndexEntryUpdate)
    ensures u.Mode() == ADDED && u.entityId == entityId && u.schema == schema
    ensures u.Values() == values
    ensures u.BeforeValues() == Failure(UnsupportedOperation(ADDED))
    ensures u.WellFormed() <==> |values| == |schema.propertyIds|
  {
    Added(entityId, schema, values)
  }

  /** IndexEntryUpdate.remove(entityId, schema, values...). */
  function Remove(entityId: int, schema: SchemaDescriptor, values: seq<Value>): (u: IndexEntryUpdate)
    ensures u.Mode() == REMOVED && u.entityId == entityId && u.schema == schema
    ensures u.Values() == values
    ensures u.BeforeValues() == Failure(UnsupportedOperation(REMOVED))
    ensures u.WellFormed() <==> |values| == |schema.propertyIds|
  {
    Removed(entityId, schema, values)
  }

  /** IndexEntryUpdate.change(entityId, schema, before[], after[]). */
  function Change(entityId: int, schema: SchemaDescriptor, before: seq<Value>, after: seq<Value>)
    : (u: IndexEntryUpdate)
    ensures u.Mode() == CHANGED && u.entityId == entityId && u.schema == schema
    ensures u.BeforeValues() == Success(before)
    ensures u.Values() == after
    ensures u.WellFormed() <==> |before| == |schema.propertyIds| && |after| == |schema.propertyIds|
  {
    Changed(entityId, schema, before, after)
  }

  /** IndexEntryUpdate.change(entityId, schema, before, after) for single values. */
  function ChangeSingle(entityId: int, schema: SchemaDescriptor, before: Value, after: Value)
    : (u: IndexEntryUpdate)
    ensures u.BeforeValues() == Success([before]) && u.Values() == [after]
  {
    Change(entityId, schema, [before], [after])
  }

  /**
   * Equal updates have equal hash codes. This holds by construction: equals()
   * is equality of the update values, and hashCode() is a function of them.
   */
  lemma EqualUpdatesHaveEqualHashCodes(a: IndexEntryUpdate, b: IndexEntryUpdate)
    requires a.Equals(b)
    ensures a.HashCode() == b.HashCode()
  {
  }

  /**
   * Two additions built from the same entity, schema and value are equal and
   * hash alike (by construction, as the additions are one value).
   */
  lemma SameAdditionsAreEqual(entityId: int, schema: SchemaDescriptor, value: Value)
    ensures Add(entityId, schema, [value]).Equals(Add(entityId, schema, [value]))
    ensures Add(entityId, schema, [value]).HashCode() == Add(entityId, schema, [value]).HashCode()
  {
  }

  /**
   * A single-value update on a one-property schema differs from a two-value
   * update on a composite schema, for additions and removals alike.
   */
  lemma SingleDiffersFromComposite(entityId: int, labelId: int, p: int, q: int, v: Value, w: Value, x: Value)
    ensures !Add(entityId, ForLabel(labelId, [p]), [v]).Equals(Add(entityId, ForLabel(labelId, [p, q]), [w, x]))
    ensures !Remove(entityId, ForLabel(labelId, [p]), [v]).Equals(Remove(entityId, ForLabel(labelId, [p, q]), [w, x]))
  {
  }

  /**
   * The single-value change equals the change built from one-element arrays.
   * This holds by the definition of ChangeSingle, which wraps each value in a
   * one-element sequence. (add and remove take their values as varargs, so a
   * single value already is the one-element array.)
   */
  lemma SingleValueChangeEqualsSingletonArrays(entityId: int, schema: SchemaDescriptor, before: Value, after: Value)
    ensures ChangeSingle(entityId, schema, before, after).Equals(Change(entityId, schema, [before], [after]))
  {
  }
}
