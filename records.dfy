/** The record container the normalisers produce: dynamic fields plus a
    private record identifier. */
module Records {
  import opened Common

  /** Name of the private property holding the record identifier. */
  const RecordIdProperty := "recordId"

  class FileMakerRecord {
    /** The dynamic properties the normalisers set, by name. */
    var fields: map<string, Value>
    /** The private `$recordId`; PHP's null until `setRecordId` is called. */
    var recordId: Value

    constructor ()
      ensures fields == map[] && recordId == Null
    {
      fields := map[];
      recordId := Null;
    }

    /** `getField`: the property's value when it is set and not null, and null
        otherwise. Inside the class the name 'recordId' reaches the private
        identifier, so asking for that field yields the record identifier. */
    function GetField(field: string): (v: Value)
      reads this
      ensures field != RecordIdProperty ==> v == if field in fields then fields[field] else Null
      ensures field == RecordIdProperty ==> v == recordId
    {
      if field == RecordIdProperty then recordId
      else if field in fields && IsSet(fields[field]) then fields[field]
      else Null
    }

    /** `setRecordId`: replaces the identifier and touches no field. */
    method SetRecordId(id: Value)
      modifies this`recordId
      ensures recordId == id
      ensures fields == old(fields)
    {
      recordId := id;
    }

    /** `getRecordId($record)`: the identifier last set; the argument is ignored. */
    function GetRecordId(record: Value): (id: Value)
      reads this
      ensures id == recordId
      ensures id == GetField(RecordIdProperty)
    {
      recordId
    }
  }

  /** The collection's `pluck(field)` over normalised records: each record's
      value for the field, in order, and null where the record lacks it or
      holds null. */
  method PluckValues(records: seq<FileMakerRecord>, field: string) returns (values: seq<Value>)
    ensures |values| == |records|
    ensures forall k :: 0 <= k < |records| ==>
              values[k] == if field in records[k].fields && IsSet(records[k].fields[field])
                           then records[k].fields[field] else Null
  {
    values := [];
    for i := 0 to |records|
      invariant |values| == i
      invariant forall k :: 0 <= k < i ==>
                  values[k] == if field in records[k].fields && IsSet(records[k].fields[field])
                               then records[k].fields[field] else Null
    {
      var record := records[i];
      values := values + [if field in record.fields && IsSet(record.fields[field]) then record.fields[field] else Null];
    }
  }
}
