/** The writer and the reader of record files, as objects over a byte stream. */
module RecordCsvStreams {
  import opened Basics
  import opened Bytes
  import opened Values
  import opened Records
  import opened CsvRows
  import opened RecordCsv
  import Psrec = PsrecFormat

  method SchemaCells(v: Psrec.Versioned) returns (row: Cells)
    ensures row == SchemaRow(v)
  {
    row := [SCHEMA, Decimal(v.version), v.schema.dataset];
    var fields := v.schema.fields;
    for i := 0 to |fields|
      invariant row + FieldCells(fields[i..]) == SchemaRow(v)
    {
      assert fields[i..][1..] == fields[i + 1..];
      row := row + [fields[i].name, TypeName(fields[i].kind), Truth(fields[i].nullable)];
    }
  }

  method RecordCells(record: Record, doubles: DoubleText) returns (ok: bool, row: Cells)
    ensures ok <==> ScalarTexts(record.values, doubles).Some?
    ensures ok ==> row == RecordRow(record, doubles)
  {
    hide ScalarText;
    row := RecordHead(record);
    var values := record.values;
    for i := 0 to |values|
      invariant ScalarTexts(values, doubles).Some? <==> ScalarTexts(values[i..], doubles).Some?
      invariant ScalarTexts(values, doubles).Some? ==>
        row + ScalarTexts(values[i..], doubles).value == RecordRow(record, doubles)
    {
      assert values[i..][1..] == values[i + 1..];
      var text := ScalarText(values[i], doubles);
      if text.None? {
        return false, row;
      }
      row := row + [text.value];
    }
    ok := true;
  }

  /** Everything the writer has put out for the schemas and the records so far. */
  function Written(list: seq<Psrec.Versioned>, records: seq<Record>, doubles: DoubleText): Text {
    Forms([HEADER] + SchemaRows(list) + RecordRows(records, doubles))
  }

  lemma {:induction false} FormsSnoc(rows: seq<Cells>, row: Cells)
    ensures Forms(rows + [row]) == Forms(rows) + RowForm(row)
  {
    hide RowForm;
    if rows == [] {
      assert [row][1..] == [] && rows + [row] == [row];
      assert RowForm(row) + [] == RowForm(row);
    } else {
      assert (rows + [row])[1..] == rows[1..] + [row];
      FormsSnoc(rows[1..], row);
      Assoc(RowForm(rows[0]), Forms(rows[1..]), RowForm(row));
    }
  }

  lemma {:induction false} SchemaRowsSnoc(list: seq<Psrec.Versioned>, v: Psrec.Versioned)
    ensures SchemaRows(list + [v]) == SchemaRows(list) + [SchemaRow(v)]
  {
    hide SchemaRow;
    if list == [] {
      assert [v][1..] == [] && list + [v] == [v];
    } else {
      assert (list + [v])[1..] == list[1..] + [v];
      SchemaRowsSnoc(list[1..], v);
    }
  }

  lemma {:induction false} RecordRowsSnoc(records: seq<Record>, r: Record, doubles: DoubleText)
    ensures RecordRows(records + [r], doubles) == RecordRows(records, doubles) + [RecordRow(r, doubles)]
  {
    hide RecordRow;
    if records == [] {
      assert [r][1..] == [] && records + [r] == [r];
    } else {
      assert (records + [r])[1..] == records[1..] + [r];
      RecordRowsSnoc(records[1..], r, doubles);
    }
  }

  lemma WrittenSchema(list: seq<Psrec.Versioned>, v: Psrec.Versioned, doubles: DoubleText)
    ensures Written(list + [v], [], doubles) == Written(list, [], doubles) + RowForm(SchemaRow(v))
  {
    hide SchemaRow, RowForm, Forms;
    SchemaRowsSnoc(list, v);
    var rows := [HEADER] + SchemaRows(list);
    NoRecords(doubles);
    assert rows + [] == rows && rows + [SchemaRow(v)] + [] == rows + [SchemaRow(v)];
    assert [HEADER] + (SchemaRows(list) + [SchemaRow(v)]) == rows + [SchemaRow(v)];
    FormsSnoc(rows, SchemaRow(v));
  }

  lemma NoRecords(doubles: DoubleText)
    ensures RecordRows([], doubles) == [] && SchemaRows([]) == []
  {
  }

  lemma WrittenHeader(doubles: DoubleText)
    ensures Written([], [], doubles) == RowForm(HEADER)
  {
    NoRecords(doubles);
    assert [HEADER] + [] + [] == [HEADER] && [HEADER][1..] == [];
    assert Forms([]) == [];
    assert RowForm(HEADER) + [] == RowForm(HEADER);
  }

  lemma WrittenRecord(list: seq<Psrec.Versioned>, records: seq<Record>, r: Record, doubles: DoubleText)
    ensures Written(list, records + [r], doubles) == Written(list, records, doubles) + RowForm(RecordRow(r, doubles))
  {
    hide RecordRow, RowForm, Forms;
    RecordRowsSnoc(records, r, doubles);
    var front := [HEADER] + SchemaRows(list);
    Assoc(front, RecordRows(records, doubles), [RecordRow(r, doubles)]);
    FormsSnoc(front + RecordRows(records, doubles), RecordRow(r, doubles));
  }

  lemma WrittenEnd(list: seq<Psrec.Versioned>, records: seq<Record>, doubles: DoubleText)
    ensures FileText(list, records, doubles) == Written(list, records, doubles) + RowForm(EndCells(|records|))
  {
    hide RowForm, Forms;
    FileRowsParts(list, records, doubles);
    var front := [HEADER] + SchemaRows(list);
    Assoc(front, RecordRows(records, doubles), [EndCells(|records|)]);
    FormsSnoc(front + RecordRows(records, doubles), EndCells(|records|));
  }

  class RecordCsvWriter {
    var stream: Text
    const schemas: seq<Psrec.Versioned>
    const sizeofValue: nat
    const doubles: DoubleText
    var count: nat
    var closed: bool
    ghost var records: seq<Record>
    ghost var finished: bool

    ghost predicate Valid()
      reads this
    {
      && WritableSchemas(schemas) && Psrec.AscendingVersions(schemas)
      && count == |records| < TWO_64
      && (forall i :: 0 <= i < |records| ==> Recordable(Psrec.SchemaMap(schemas), records[i], sizeofValue, doubles))
      && (!closed ==> stream == Written(schemas, records, doubles))
      && (finished ==> closed && stream == FileText(schemas, records, doubles))
    }

    /** The object after the constructor body has run; `Create` below does the part that may throw. */
    constructor (head: Text, schemas: seq<Psrec.Versioned>, sizeofValue: nat, doubles: DoubleText)
      requires WritableSchemas(schemas) && Psrec.AscendingVersions(schemas) && head == Written(schemas, [], doubles)
      ensures Valid() && records == [] && !closed && !finished
      ensures this.schemas == schemas && this.sizeofValue == sizeofValue && this.doubles == doubles
    {
      hide Written, FileText, WritableSchemas, Psrec.AscendingVersions, Recordable;
      stream, this.schemas, this.sizeofValue, this.doubles := head, schemas, sizeofValue, doubles;
      count, closed, records, finished := 0, false, [], false;
    }

    /** Checks the schemas and writes the header and their rows. */
    static method Create(schemas: seq<Psrec.Versioned>, sizeofValue: nat, doubles: DoubleText)
      returns (writer: RecordCsvWriter?)
      requires Psrec.AscendingVersions(schemas)
      ensures writer != null <==> WritableSchemas(schemas)
      ensures writer != null ==>
        && fresh(writer) && writer.Valid() && writer.schemas == schemas && writer.sizeofValue == sizeofValue
        && writer.doubles == doubles && writer.records == [] && !writer.closed && !writer.finished
    {
      hide Writable, Decimal, ValidSchema, RowForm, SchemaRow, Written;
      writer := null;
      if |schemas| > 1024 {
        return;
      }
      var fields := 0;
      for i := 0 to |schemas|
        invariant forall k :: 0 <= k < i ==> Psrec.ValidVersioned(schemas[k])
        invariant fields + Psrec.FieldTotal(schemas[i..]) == Psrec.FieldTotal(schemas)
        invariant fields <= 16384
      {
        assert schemas[i..][1..] == schemas[i + 1..];
        if schemas[i].version == 0 || schemas[i].version >= TWO_63 || !ValidSchema(schemas[i].schema) {
          return;
        }
        fields := fields + |schemas[i].schema.fields|;
        if fields > 16384 {
          return;
        }
      }
      EndFits(0);
      WrittenHeader(doubles);
      var ok, stream := WriteCsvRow([], HEADER);
      assert [] + RowForm(HEADER) == RowForm(HEADER) && schemas[..0] == [];
      for i := 0 to |schemas|
        invariant stream == Written(schemas[..i], [], doubles)
      {
        var row := SchemaCells(schemas[i]);
        SchemaRowFits(schemas[i]);
        ok, stream := WriteCsvRow(stream, row);
        WrittenSchema(schemas[..i], schemas[i], doubles);
        assert schemas[..i] + [schemas[i]] == schemas[..i + 1];
      }
      assert schemas[..|schemas|] == schemas;
      writer := new RecordCsvWriter(stream, schemas, sizeofValue, doubles);
    }

    /** Accepts exactly the recordable records; a refusal closes the writer for good. */
    method Append(record: Record) returns (ok: bool)
      requires Valid()
      modifies this
      ensures Valid() && finished == old(finished)
      ensures ok <==>
        && !old(closed) && old(count) != TWO_64 - 1
        && Recordable(Psrec.SchemaMap(schemas), record, sizeofValue, doubles)
      ensures ok ==> records == old(records) + [record] && !closed
      ensures !ok ==> records == old(records) && closed
    {
      hide Writable, ValidRecord, ScalarTexts, RecordRow, Written, WritableSchemas, RowForm, Psrec.AscendingVersions;
      ok := false;
      if closed {
        return;
      }
      closed := true;
      var schema := Find(record.schemaVersion);
      if schema.None? || !ValidRecord(schema.value, record) {
        return;
      }
      var budget: int := ROW_BYTES;
      var values := record.values;
      for i := 0 to |values|
        invariant 0 <= budget && budget + Psrec.MemoryCost(values, sizeofValue)
               == ROW_BYTES + Psrec.MemoryCost(values[i..], sizeofValue)
        invariant closed && count == old(count) && records == old(records) && stream == old(stream)
      {
        assert values[i..][1..] == values[i + 1..];
        var size := match values[i] case Text(text) => |text| case Blob(bytes) => |bytes| case _ => sizeofValue;
        if size > budget {
          return;
        }
        budget := budget - size;
      }
      var texts, row := RecordCells(record, doubles);
      if !texts || count == TWO_64 - 1 {
        return;
      }
      var written, longer := WriteCsvRow(stream, row);
      stream := longer;
      if !written {
        return;
      }
      count := count + 1;
      WrittenRecord(schemas, records, record, doubles);
      records := records + [record];
      ok, closed := true, false;
    }

    /** The lookup of a version in the key-ordered map. */
    method Find(version: u64) returns (schema: Option<Schema>)
      ensures schema == if version in Psrec.SchemaMap(schemas) then Some(Psrec.SchemaMap(schemas)[version]) else None
    {
      schema := None;
      for i := 0 to |schemas|
        invariant schema == if version in Psrec.SchemaMap(schemas[..i])
                            then Some(Psrec.SchemaMap(schemas[..i])[version]) else None
      {
        assert schemas[..i + 1][..i] == schemas[..i];
        if schemas[i].version == version {
          schema := Some(schemas[i].schema);
        }
      }
      assert schemas[..|schemas|] == schemas;
    }

    /** Writes the end row; the stream is then a finished file. */
    method Finish() returns (ok: bool)
      requires Valid()
      modifies this
      ensures Valid() && records == old(records)
      ensures ok <==> !old(closed)
      ensures ok ==> finished && stream == FileText(schemas, records, doubles)
      ensures !ok ==> unchanged(this)
    {
      hide Writable, Written, WritableSchemas, RowForm, Psrec.AscendingVersions, Recordable;
      if closed {
        return false;
      }
      closed := true;
      EndFits(count);
      WrittenEnd(schemas, records, doubles);
      ok, stream := WriteCsvRow(stream, EndCells(count));
      finished := true;
    }

    /** Whatever calls led there, a finished file reads back as the schemas and exactly the records accepted. */
    lemma FinishedReadsBack()
      requires Valid() && finished && Faithful(doubles)
      ensures ReadTable(AllRows(Open(stream), DEFAULTS), doubles)
           == Some((Psrec.SchemaMap(schemas), Psrec.Import(true, records)))
    {
      hide WritableSchemas, Psrec.AscendingVersions, Recordable, Written, FileText, ReadTable, AllRows, Open, Faithful;
      RecordFileRoundTrip(schemas, records, sizeofValue, doubles);
    }
  }

  /** The rows a row reader still has to give. */
  ghost function Ahead(rows: CsvRowReader): Table
    requires rows.Valid()
    reads rows
  {
    if rows.failed then Table([], false) else AllRows(rows.Left(), rows.limits)
  }

  datatype Pulled = Pulled(row: Option<Cells>, error: bool)

  /** Takes the next row, if there is one and reading it does not fail. */
  method Pull(rows: CsvRowReader) returns (p: Pulled)
    requires rows.Valid()
    modifies rows
    ensures rows.Valid()
    ensures p.row.Some? ==>
      && !p.error && old(Ahead(rows)).rows == [p.row.value] + Ahead(rows).rows
      && Ahead(rows).complete == old(Ahead(rows)).complete
    ensures p.row.None? ==> old(Ahead(rows)) == Table([], !p.error)
  {
    hide Scan;
    var r := rows.NextRow();
    match r
    case NoMore => p := Pulled(None, false);
    case Refused => p := Pulled(None, true);
    case Got(fields, rest) => p := Pulled(Some(fields), false);
  }

  class RecordCsvReader {
    const rows: CsvRowReader
    const doubles: DoubleText
    var schemas: Schemas
    var pending: Option<Cells>
    var count: nat
    var finished: bool
    var failed: bool

    ghost predicate Valid()
      reads this, rows
    {
      rows.Valid()
    }

    /** All rows to come, the one read ahead included. */
    ghost function Rows(): Table
      requires Valid()
      reads this, rows
    {
      var later := Ahead(rows);
      if pending.Some? then Table([pending.value] + later.rows, later.complete) else later
    }

    constructor (rows: CsvRowReader, schemas: Schemas, pending: Cells, doubles: DoubleText)
      requires rows.Valid()
      ensures Valid() && this.rows == rows && this.schemas == schemas && this.doubles == doubles
      ensures Rows() == Table([pending] + Ahead(rows).rows, Ahead(rows).complete)
      ensures count == 0 && !finished && !failed
    {
      this.rows, this.schemas, this.pending, this.doubles := rows, schemas, Some(pending), doubles;
      count, finished, failed := 0, false, false;
    }

    /** Reads the header and the schema rows up to the first row of another kind, which is kept. */
    static method Create(input: Text, doubles: DoubleText) returns (reader: RecordCsvReader?)
      ensures reader != null <==> OpenTable(AllRows(Open(input), DEFAULTS)).Some?
      ensures reader != null ==>
        && fresh(reader) && fresh(reader.rows) && reader.Valid() && reader.doubles == doubles
        && !reader.failed && !reader.finished && reader.count == 0
        && var table := AllRows(Open(input), DEFAULTS);
           OpenTable(table) == Some((reader.schemas, reader.Rows().rows)) && reader.Rows().complete == table.complete
    {
      hide AllRows, ParseSchemaRow;
      reader := null;
      var rows := new CsvRowReader(input, DEFAULTS);
      ghost var table := Ahead(rows);
      var p := Pull(rows);
      if p.row.None? || StripMark(p.row.value) != HEADER {
        return;
      }
      var schemas: Schemas, fields: nat := map[], 0;
      while true
        invariant rows.Valid() && fresh(rows) && Ahead(rows).complete == table.complete
        invariant OpenTable(table) == ReadSchemas(Ahead(rows).rows, schemas, fields)
        invariant fields <= 16384
        decreases |Ahead(rows).rows|
      {
        p := Pull(rows);
        if p.row.None? {
          return;
        }
        var row := p.row.value;
        if row == [] || row[0] != SCHEMA {
          reader := new RecordCsvReader(rows, schemas, row, doubles);
          return;
        }
        var v := ParseSchemaRow(row);
        if v.None? {
          return;
        }
        fields := fields + |v.value.schema.fields|;
        if |schemas| >= 1024 || fields > 16384 || v.value.version in schemas {
          return;
        }
        schemas := schemas[v.value.version := v.value.schema];
      }
    }

    /** Delivers one record, or the confirmed end; after a failure nothing more. */
    method Next() returns (step: Step)
      requires Valid()
      modifies this, rows
      ensures Valid() && schemas == old(schemas)
      ensures old(failed) ==> step == Fail && failed
      ensures !old(failed) && old(finished) ==> step == Finished && finished && !failed
      ensures !old(failed) && !old(finished) ==>
        && step == NextRecord(schemas, old(Rows()).rows, old(Rows()).complete, old(count), doubles)
        && failed == step.Fail? && finished == step.Finished?
      ensures !old(failed) && !old(finished) && step.Read? ==>
        && count == old(count) + 1
        && Rows() == Table(old(Rows()).rows[1..], old(Rows()).complete)
    {
      hide AllRows, ParseRecordRow, ParseUnsigned;
      if failed {
        return Fail;
      }
      if finished {
        return Finished;
      }
      failed := true;
      var row := pending;
      if pending.None? {
        var p := Pull(rows);
        row := p.row;
      }
      pending := None;
      if row.None? || row.value == [] {
        return Fail;
      }
      if row.value[0] == END {
        if |row.value| != 2 || ParseUnsigned(row.value[1]) != Some(count) {
          return Fail;
        }
        var p := Pull(rows);
        if p.row.Some? || p.error {
          return Fail;
        }
        finished, failed := true, false;
        return Finished;
      }
      var record := ParseRecordRow(schemas, row.value, doubles);
      if record.None? || count == TWO_64 - 1 {
        return Fail;
      }
      count, failed := count + 1, false;
      return Read(record.value);
    }
  }

  /** Reads a whole file through the reader object. */
  method ImportAll(input: Text, doubles: DoubleText) returns (result: Option<(Schemas, Psrec.Import)>)
    ensures result == ReadTable(AllRows(Open(input), DEFAULTS), doubles)
  {
    hide AllRows, NextRecord, OpenTable, ReadRecords;
    var reader := RecordCsvReader.Create(input, doubles);
    if reader == null {
      return None;
    }
    var records: seq<Record> := [];
    ghost var all := ReadRecords(reader.schemas, reader.Rows().rows, reader.Rows().complete, 0, doubles);
    var schemas := reader.schemas;
    while true
      invariant reader.Valid() && fresh(reader) && fresh(reader.rows) && reader.doubles == doubles
      invariant !reader.failed && !reader.finished && reader.schemas == schemas
      invariant var later := ReadRecords(schemas, reader.Rows().rows, reader.Rows().complete, reader.count, doubles);
        all == Psrec.Import(later.complete, records + later.records)
      decreases |reader.Rows().rows|
    {
      ReadOne(schemas, reader.Rows().rows, reader.Rows().complete, reader.count, doubles, records);
      var step := reader.Next();
      match step
      case Fail => return Some((schemas, Psrec.Import(false, records)));
      case Finished => return Some((schemas, Psrec.Import(true, records)));
      case Read(record) => records := records + [record];
    }
  }

  /** One call of the reader, and what it adds to the records collected so far. */
  lemma ReadOne(schemas: Schemas, rows: seq<Cells>, complete: bool, count: nat, doubles: DoubleText,
                records: seq<Record>)
    ensures var all := ReadRecords(schemas, rows, complete, count, doubles);
      match NextRecord(schemas, rows, complete, count, doubles)
      case Fail => !all.complete && records + all.records == records
      case Finished => all.complete && records + all.records == records
      case Read(record) =>
        rows != []
        && var later := ReadRecords(schemas, rows[1..], complete, count + 1, doubles);
           all.complete == later.complete && records + all.records == records + [record] + later.records
  {
    hide ParseRecordRow, ParseUnsigned;
  }
}
