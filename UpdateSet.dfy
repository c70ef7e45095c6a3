/**
 * UpdateSet.cs: which documents to update (by id or by filter) and the
 * field assignments to apply, turned into one combined update definition.
 */
module UpdateSet {
  import opened Wrappers
  import MyConvert
  import Filter

  /** A field and the value to assign to it. */
  datatype FieldValue = FieldValue(field: string, value: MyConvert.Object)

  /** `new FieldValue(field, value)`: stores exactly what it is given. */
  function NewFieldValue(field: string, value: MyConvert.Object): (fv: FieldValue)
    ensures fv.field == field && fv.value == value
  {
    FieldValue(field, value)
  }

  /** One `Builders.Update.Set(field, value)`. */
  datatype SetOperation = Set(field: string, value: MyConvert.Object)

  /** `Builders.Update.Combine(updates)`, the operations in the order given. */
  datatype UpdateDefinition = Combine(updates: seq<SetOperation>)

  /** The assignment a field value stands for. */
  function SetOf(fv: FieldValue): (op: SetOperation)
    ensures op.field == fv.field && op.value == fv.value
  {
    Set(fv.field, fv.value)
  }

  /** The fields an update touches. */
  function Touched(updates: seq<SetOperation>): set<string> {
    set k | 0 <= k < |updates| :: updates[k].field
  }

  /** The fields a list of field values names. */
  function Named(fieldValues: seq<FieldValue>): set<string> {
    set k | 0 <= k < |fieldValues| :: fieldValues[k].field
  }

  /** A one-per-entry, in-order translation touches exactly the fields named, no others. */
  lemma TouchedIsNamed(fieldValues: seq<FieldValue>, updates: seq<SetOperation>)
    requires |updates| == |fieldValues|
    requires forall k :: 0 <= k < |fieldValues| ==> updates[k] == SetOf(fieldValues[k])
    ensures Touched(updates) == Named(fieldValues)
  {
    forall f | f in Named(fieldValues)
      ensures f in Touched(updates)
    {
      var k :| 0 <= k < |fieldValues| && fieldValues[k].field == f;
      assert updates[k].field == f;
    }
  }

  /**
   * The update request. Exactly one of `filterId` and `filter` is set by the
   * non-default constructors; the default constructor sets neither.
   */
  class UpdateSet {
    var filterId: Option<string>
    var filter: Option<Filter.Filter>
    var fieldValues: seq<FieldValue>

    /** `new UpdateSet()`: no target and no field values. */
    constructor ()
      ensures filterId == None && filter == None && fieldValues == []
    {
      filterId := None;
      filter := None;
      fieldValues := [];
    }

    /** `new UpdateSet(filterId, fieldValue)`: the id and a one-element list. */
    constructor ById(filterId: string, fieldValue: FieldValue)
      ensures this.filterId == Some(filterId) && filter == None
      ensures fieldValues == [fieldValue]
    {
      this.filterId := Some(filterId);
      filter := None;
      fieldValues := [];
      new;
      fieldValues := fieldValues + [fieldValue];
    }

    /** `new UpdateSet(filterId, fieldValues)`: the id and the list as given. */
    constructor ByIdList(filterId: string, fieldValues: seq<FieldValue>)
      ensures this.filterId == Some(filterId) && filter == None
      ensures this.fieldValues == fieldValues
    {
      this.filterId := Some(filterId);
      filter := None;
      this.fieldValues := fieldValues;
    }

    /** `new UpdateSet(filter, fieldValue)`: the filter and a one-element list. */
    constructor ByFilter(filter: Filter.Filter, fieldValue: FieldValue)
      ensures filterId == None && this.filter == Some(filter)
      ensures fieldValues == [fieldValue]
    {
      filterId := None;
      this.filter := Some(filter);
      fieldValues := [];
      new;
      fieldValues := fieldValues + [fieldValue];
    }

    /** `new UpdateSet(filter, fieldValues)`: the filter and the list as given. */
    constructor ByFilterList(filter: Filter.Filter, fieldValues: seq<FieldValue>)
      ensures filterId == None && this.filter == Some(filter)
      ensures this.fieldValues == fieldValues
    {
      filterId := None;
      this.filter := Some(filter);
      this.fieldValues := fieldValues;
    }

    /**
     * `GetUpdateDefinition`: one Set per field value, in list order, carrying
     * that entry's field and value, so the update touches exactly the named
     * fields.
     */
    method GetUpdateDefinition() returns (d: UpdateDefinition)
      ensures |d.updates| == |fieldValues|
      ensures forall k :: 0 <= k < |fieldValues| ==> d.updates[k] == SetOf(fieldValues[k])
      ensures Touched(d.updates) == Named(fieldValues)
    {
      var updates: seq<SetOperation> := [];
      for i := 0 to |fieldValues|
        invariant |updates| == i
        invariant forall k :: 0 <= k < i ==> updates[k] == SetOf(fieldValues[k])
      {
        updates := updates + [Set(fieldValues[i].field, fieldValues[i].value)];
      }
      TouchedIsNamed(fieldValues, updates);
      d := Combine(updates);
    }
  }
}
