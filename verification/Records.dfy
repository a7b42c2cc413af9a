/** Schemas and records, their validity rules and their form as structured values. */
module Records {
  import opened Basics
  import opened Bytes
  import opened Values

  datatype FieldType = Int64Type | DoubleType | BoolType | StringType | BytesType

  datatype Field = Field(name: seq<byte>, kind: FieldType, nullable: bool)

  datatype Schema = Schema(dataset: seq<byte>, fields: seq<Field>)

  datatype Record = Record(
    protocol: seq<byte>, dataset: seq<byte>, device: seq<byte>,
    receivedAtUs: i64, deviceTimeUs: Option<i64>, schemaVersion: u64, values: seq<Value>)

  /** The number of a field type is the tag of the values it admits. */
  function KindNumber(kind: FieldType): (n: byte)
    ensures 1 <= n <= 5
  {
    match kind
    case Int64Type => 1
    case DoubleType => 2
    case BoolType => 3
    case StringType => 4
    case BytesType => 5
  }

  function KindOf(n: byte): FieldType
    requires 1 <= n <= 5
  {
    if n == 1 then Int64Type else if n == 2 then DoubleType else if n == 3 then BoolType
    else if n == 4 then StringType else BytesType
  }

  predicate ValidName(name: seq<byte>) {
    1 <= |name| <= 128 && 0 !in name
  }

  predicate ValidSchema(schema: Schema) {
    && ValidName(schema.dataset)
    && 1 <= |schema.fields| <= 1024
    && (forall i :: 0 <= i < |schema.fields| ==> ValidName(schema.fields[i].name))
    && (forall i, j :: 0 <= i < j < |schema.fields| ==> schema.fields[i].name != schema.fields[j].name)
  }

  predicate Fits(field: Field, value: Value) {
    if value.Null? then field.nullable else TagOf(value) == KindNumber(field.kind) && Finite(value)
  }

  predicate ValidRecord(schema: Schema, record: Record) {
    && ValidSchema(schema)
    && 1 <= |record.protocol| <= 4096 && |record.device| <= 4096
    && record.dataset == schema.dataset
    && |record.values| == |schema.fields|
    && forall i :: 0 <= i < |record.values| ==> Fits(schema.fields[i], record.values[i])
  }

  // ----- schemas as values -----

  function FieldValue(field: Field): Value {
    Array([Text(field.name), Int(KindNumber(field.kind) as int), Bool(field.nullable)])
  }

  function FieldValues(fields: seq<Field>): (r: seq<Value>)
    ensures |r| == |fields|
  {
    if fields == [] then [] else [FieldValue(fields[0])] + FieldValues(fields[1..])
  }

  function SchemaTree(schema: Schema): Value {
    Array([Text(schema.dataset), Array(FieldValues(schema.fields))])
  }

  function SchemaValue(schema: Schema): Option<Value> {
    if ValidSchema(schema) then Some(SchemaTree(schema)) else None
  }

  function FieldFromValue(value: Value): Option<Field> {
    if value.Array? && |value.items| == 3
       && value.items[1].Int? && 1 <= value.items[1].number <= 5 && value.items[0].Text? && value.items[2].Bool?
    then Some(Field(value.items[0].text, KindOf(value.items[1].number as byte), value.items[2].truth))
    else None
  }

  function FieldsFromValues(values: seq<Value>): Option<seq<Field>> {
    if values == [] then Some([]) else
    match FieldFromValue(values[0])
    case None => None
    case Some(field) =>
      match FieldsFromValues(values[1..])
      case None => None
      case Some(rest) => Some([field] + rest)
  }

  function SchemaFromValue(value: Value): Option<Schema> {
    if !(value.Array? && |value.items| == 2 && value.items[0].Text? && value.items[1].Array?) then None else
    match FieldsFromValues(value.items[1].items)
    case None => None
    case Some(fields) =>
      var schema := Schema(value.items[0].text, fields);
      if ValidSchema(schema) then Some(schema) else None
  }

  lemma {:induction false} FieldsBack(fields: seq<Field>)
    ensures FieldsFromValues(FieldValues(fields)) == Some(fields)
  {
    if fields != [] {
      FieldsBack(fields[1..]);
      assert fields == [fields[0]] + fields[1..];
    }
  }

  lemma {:induction false} FieldsForth(values: seq<Value>)
    requires FieldsFromValues(values).Some?
    ensures FieldValues(FieldsFromValues(values).value) == values
  {
    if values != [] {
      FieldsForth(values[1..]);
      var head, tail := FieldFromValue(values[0]).value, FieldsFromValues(values[1..]).value;
      assert values[0].items == FieldValue(head).items;
      assert ([head] + tail)[1..] == tail;
      assert values == [values[0]] + values[1..];
    }
  }

  /** A schema survives the trip through its value, and only valid schemas come out of a value. */
  lemma SchemaTrip(schema: Schema, value: Value)
    ensures SchemaValue(schema) == Some(value) <==> SchemaFromValue(value) == Some(schema)
  {
    if SchemaValue(schema) == Some(value) {
      FieldsBack(schema.fields);
    }
    if SchemaFromValue(value) == Some(schema) {
      FieldsForth(value.items[1].items);
      assert value.items == SchemaTree(schema).items;
    }
  }

  // ----- records as values -----

  function RecordValue(record: Record): Option<Value> {
    if record.schemaVersion >= TWO_63 then None
    else Some(Array([
      Text(record.protocol), Text(record.dataset), Text(record.device), Int(record.receivedAtUs),
      if record.deviceTimeUs.Some? then Int(record.deviceTimeUs.value) else Null,
      Int(record.schemaVersion), Array(record.values)]))
  }

  function RecordFromValue(value: Value): Option<Record> {
    if !(value.Array? && |value.items| == 7) then None else
    var parts := value.items;
    if parts[5].Int? && parts[5].number >= 0 && parts[0].Text? && parts[1].Text? && parts[2].Text?
       && parts[3].Int? && parts[6].Array? && (parts[4].Null? || parts[4].Int?)
    then Some(Record(parts[0].text, parts[1].text, parts[2].text, parts[3].number,
                     if parts[4].Null? then None else Some(parts[4].number),
                     parts[5].number, parts[6].items))
    else None
  }

  lemma RecordTrip(record: Record, value: Value)
    ensures RecordValue(record) == Some(value) <==> RecordFromValue(value) == Some(record)
  {
    if RecordFromValue(value) == Some(record) {
      assert value.items == RecordValue(record).value.items;
    }
  }

  /** A validated record holds scalars only, so its value is in key order and decodes to itself. */
  lemma RecordValueAscending(schema: Schema, record: Record)
    requires ValidRecord(schema, record) && RecordValue(record).Some?
    ensures Ascending(RecordValue(record).value)
  {
    forall i | 0 <= i < |record.values|
      ensures IsScalar(record.values[i])
    {
      assert Fits(schema.fields[i], record.values[i]);
    }
    ScalarsAscending(record.values);
    var items := RecordValue(record).value.items;
    AllAscending(items);
  }

  lemma {:induction false} ScalarsAscending(values: seq<Value>)
    requires forall i :: 0 <= i < |values| ==> IsScalar(values[i])
    ensures AscendingItems(values)
  {
    if values != [] {
      ScalarsAscending(values[1..]);
    }
  }

  lemma {:induction false} AllAscending(values: seq<Value>)
    requires forall i :: 0 <= i < |values| ==> Ascending(values[i])
    ensures AscendingItems(values)
  {
    if values != [] {
      AllAscending(values[1..]);
    }
  }

  lemma SchemaTreeAscending(schema: Schema)
    ensures Ascending(SchemaTree(schema))
  {
    FieldValuesAscending(schema.fields);
    AllAscending(SchemaTree(schema).items);
  }

  lemma {:induction false} FieldValuesAscending(fields: seq<Field>)
    ensures AscendingItems(FieldValues(fields))
  {
    if fields != [] {
      FieldValuesAscending(fields[1..]);
      ScalarsAscending(FieldValue(fields[0]).items);
    }
  }
}
