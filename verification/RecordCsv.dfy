/** Typed records as rows of comma-separated fields: a header, one row for each schema, one for each record,
  * and a counted end row. */
module RecordCsv {
  import opened Basics
  import opened Bytes
  import opened Values
  import opened Records
  import opened CsvRows
  import Psrec = PsrecFormat

  // ---------------------------------------------------------------- numbers

  predicate IsDigit(b: byte) {
    48 <= b <= 57
  }

  predicate AllDigits(text: Text) {
    forall i :: 0 <= i < |text| ==> IsDigit(text[i])
  }

  function Decimal(n: nat): Text {
    if n < 10 then [48 + n as byte] else Decimal(n / 10) + [48 + (n % 10) as byte]
  }

  function DigitsValue(text: Text): nat
    requires AllDigits(text)
  {
    if text == [] then 0
    else 10 * DigitsValue(text[..|text| - 1]) + (text[|text| - 1] - 48) as nat
  }

  const MINUS: byte := 45

  function Signed(i: int): Text {
    if i < 0 then [MINUS] + Decimal(-i) else Decimal(i)
  }

  function ParseUnsigned(text: Text): Option<nat> {
    if text == [] || !AllDigits(text) || DigitsValue(text) >= TWO_64 then None else Some(DigitsValue(text))
  }

  function ParseSigned(text: Text): Option<i64> {
    var negative := text != [] && text[0] == MINUS;
    var digits := if negative then text[1..] else text;
    if digits == [] || !AllDigits(digits) then None
    else
      var size: int := DigitsValue(digits);
      var value := if negative then -size else size;
      if -TWO_63 <= value < TWO_63 then Some(value) else None
  }

  lemma {:induction false} DecimalBack(n: nat)
    ensures Decimal(n) != [] && AllDigits(Decimal(n)) && DigitsValue(Decimal(n)) == n
  {
    if n < 10 {
      assert Decimal(n)[..0] == [];
    } else {
      DecimalBack(n / 10);
      assert Decimal(n)[..|Decimal(n)| - 1] == Decimal(n / 10);
    }
  }

  lemma SignedBack(i: i64)
    ensures ParseSigned(Signed(i)) == Some(i)
  {
    var n: int := i;
    if n < 0 {
      DecimalBack(-n);
      assert Signed(i)[1..] == Decimal(-n);
    } else {
      DecimalBack(n);
      assert IsDigit(Decimal(n)[0]);
    }
  }

  /** No proper beginning of a printed number reads as that number. */
  lemma {:induction false} DecimalCut(n: nat, k: nat)
    requires k < |Decimal(n)|
    ensures ParseUnsigned(Decimal(n)[..k]) != Some(n)
    ensures AllDigits(Decimal(n)[..k]) && (k > 0 ==> DigitsValue(Decimal(n)[..k]) < n)
  {
    DecimalBack(n);
    if n >= 10 {
      var front := Decimal(n / 10);
      assert Decimal(n)[..|front|] == front;
      DecimalBack(n / 10);
      if k < |front| {
        DecimalCut(n / 10, k);
        assert Decimal(n)[..k] == front[..k];
      }
    }
  }

  // ---------------------------------------------------------------- scalars

  /** The floating-point printer and parser of the platform. */
  datatype DoubleText = DoubleText(show: u64 -> Text, parse: Text -> Option<u64>)

  /** Printing with enough digits loses nothing, and only finite numbers are read. */
  ghost predicate Faithful(doubles: DoubleText) {
    && (forall bits: u64 :: FiniteBits(bits) ==> doubles.parse(doubles.show(bits)) == Some(bits))
    && (forall text: Text :: doubles.parse(text).Some? ==> FiniteBits(doubles.parse(text).value))
  }

  const MAX_BLOB: nat := 16 * 1024 * 1024

  const COLON: byte := 58
  const NULL_TEXT: Text := [110, 58]                          // "n:"
  const TRUE_TEXT: Text := [116, 114, 117, 101]               // "true"
  const FALSE_TEXT: Text := [102, 97, 108, 115, 101]          // "false"

  function Truth(b: bool): Text {
    if b then TRUE_TEXT else FALSE_TEXT
  }

  /** The letter that marks values of a type. */
  function TagLetter(kind: FieldType): byte {
    match kind
    case Int64Type => 105
    case DoubleType => 100
    case BoolType => 98
    case StringType => 115
    case BytesType => 120
  }

  function HexDigit(n: nat): byte
    requires n < 16
  {
    if n < 10 then 48 + n as byte else 55 + n as byte
  }

  function Nibble(b: byte): Option<nat> {
    if 48 <= b <= 57 then Some((b - 48) as nat)
    else if 97 <= b <= 102 then Some((b - 87) as nat)
    else if 65 <= b <= 70 then Some((b - 55) as nat)
    else None
  }

  function Hex(bytes: seq<byte>): Text {
    if bytes == [] then []
    else [HexDigit(bytes[0] as nat / 16), HexDigit(bytes[0] as nat % 16)] + Hex(bytes[1..])
  }

  function ParseHex(text: Text): Option<seq<byte>> {
    if text == [] then Some([])
    else if |text| < 2 || Nibble(text[0]).None? || Nibble(text[1]).None? then None
    else
      match ParseHex(text[2..])
      case None => None
      case Some(rest) => Some([(Nibble(text[0]).value * 16 + Nibble(text[1]).value) as byte] + rest)
  }

  lemma NibbleBack(n: nat)
    requires n < 16
    ensures Nibble(HexDigit(n)) == Some(n)
  {
  }

  lemma {:induction false} HexBack(bytes: seq<byte>)
    ensures ParseHex(Hex(bytes)) == Some(bytes)
  {
    hide HexDigit, Nibble;
    if bytes != [] {
      HexBack(bytes[1..]);
      var b := bytes[0] as nat;
      assert Hex(bytes)[2..] == Hex(bytes[1..]);
      NibbleBack(b / 16);
      NibbleBack(b % 16);
      assert b / 16 * 16 + b % 16 == b;
      assert bytes == [bytes[0]] + bytes[1..];
    }
  }

  function ScalarText(v: Value, doubles: DoubleText): Option<Text> {
    match v
    case Null => Some(NULL_TEXT)
    case Int(i) => Some([TagLetter(Int64Type), COLON] + Signed(i))
    case Double(bits) => Some([TagLetter(DoubleType), COLON] + doubles.show(bits))
    case Bool(b) => Some([TagLetter(BoolType), COLON] + Truth(b))
    case Text(text) => Some([TagLetter(StringType), COLON] + text)
    case Blob(bytes) => if |bytes| > MAX_BLOB then None else Some([TagLetter(BytesType), COLON] + Hex(bytes))
    case _ => None
  }

  function ParseScalarText(kind: FieldType, text: Text, doubles: DoubleText): Option<Value> {
    match kind
    case Int64Type => (match ParseSigned(text) case None => None case Some(i) => Some(Int(i)))
    case DoubleType => (match doubles.parse(text) case None => None case Some(bits) => Some(Double(bits)))
    case BoolType => if text == TRUE_TEXT then Some(Bool(true)) else if text == FALSE_TEXT then Some(Bool(false)) else None
    case StringType => Some(Value.Text(text))
    case BytesType => (match ParseHex(text) case None => None case Some(bytes) => Some(Blob(bytes)))
  }

  function TypedScalar(kind: FieldType, text: Text, doubles: DoubleText): Option<Value> {
    if text == NULL_TEXT then Some(Null)
    else if |text| < 2 || text[1] != COLON || text[0] != TagLetter(kind) then None
    else ParseScalarText(kind, text[2..], doubles)
  }

  lemma TaggedBack(kind: FieldType, body: Text, doubles: DoubleText)
    ensures TypedScalar(kind, [TagLetter(kind), COLON] + body, doubles) == ParseScalarText(kind, body, doubles)
  {
    var text := [TagLetter(kind), COLON] + body;
    assert text[0] != NULL_TEXT[0];
    assert text[2..] == body;
  }

  /** A field's value survives its text. */
  lemma ScalarBack(field: Field, v: Value, doubles: DoubleText)
    requires Faithful(doubles) && Fits(field, v) && ScalarText(v, doubles).Some?
    ensures TypedScalar(field.kind, ScalarText(v, doubles).value, doubles) == Some(v)
  {
    hide TypedScalar, TagLetter, ParseHex, Hex, ParseSigned, Signed;
    match v
    case Null => NullBack(field.kind, doubles);
    case Int(i) =>
      SignedBack(i);
      TaggedBack(field.kind, Signed(i), doubles);
    case Double(bits) => TaggedBack(field.kind, doubles.show(bits), doubles);
    case Bool(b) =>
      TruthsDiffer();
      TaggedBack(field.kind, Truth(b), doubles);
    case Text(t) => TaggedBack(field.kind, t, doubles);
    case Blob(bytes) =>
      HexBack(bytes);
      TaggedBack(field.kind, Hex(bytes), doubles);
    case _ =>
  }

  lemma NullBack(kind: FieldType, doubles: DoubleText)
    ensures TypedScalar(kind, NULL_TEXT, doubles) == Some(Null)
  {
  }

  lemma TruthsDiffer()
    ensures TRUE_TEXT != FALSE_TEXT
  {
  }

  // ---------------------------------------------------------------- rows

  const TITLE: Text := [112, 114, 111, 116, 111, 115, 99, 111, 112, 101, 95, 99, 115, 118]  // "protoscope_csv"
  const SCHEMA: Text := [115, 99, 104, 101, 109, 97]                                        // "schema"
  const RECORD: Text := [114, 101, 99, 111, 114, 100]                                       // "record"
  const END: Text := [101, 110, 100]                                                        // "end"

  type Cells = seq<Text>

  const HEADER: Cells := [TITLE, [49]]

  function TypeName(kind: FieldType): Text {
    match kind
    case Int64Type => [105, 110, 116, 54, 52]             // "int64"
    case DoubleType => [100, 111, 117, 98, 108, 101]      // "double"
    case BoolType => [98, 111, 111, 108]                  // "bool"
    case StringType => [115, 116, 114, 105, 110, 103]     // "string"
    case BytesType => [98, 121, 116, 101, 115]            // "bytes"
  }

  function NamedType(name: Text): Option<FieldType> {
    if name == TypeName(Int64Type) then Some(Int64Type)
    else if name == TypeName(DoubleType) then Some(DoubleType)
    else if name == TypeName(BoolType) then Some(BoolType)
    else if name == TypeName(StringType) then Some(StringType)
    else if name == TypeName(BytesType) then Some(BytesType)
    else None
  }

  function FieldCells(fields: seq<Field>): Cells {
    if fields == [] then []
    else [fields[0].name, TypeName(fields[0].kind), Truth(fields[0].nullable)] + FieldCells(fields[1..])
  }

  function SchemaRow(v: Psrec.Versioned): Cells {
    [SCHEMA, Decimal(v.version), v.schema.dataset] + FieldCells(v.schema.fields)
  }

  function SchemaRows(list: seq<Psrec.Versioned>): seq<Cells> {
    if list == [] then [] else [SchemaRow(list[0])] + SchemaRows(list[1..])
  }

  function ScalarTexts(values: seq<Value>, doubles: DoubleText): Option<Cells> {
    if values == [] then Some([]) else
    match ScalarText(values[0], doubles)
    case None => None
    case Some(text) =>
      match ScalarTexts(values[1..], doubles)
      case None => None
      case Some(rest) => Some([text] + rest)
  }

  function RecordHead(record: Record): Cells {
    [RECORD, record.protocol, record.dataset, record.device, Signed(record.receivedAtUs),
     if record.deviceTimeUs.Some? then Signed(record.deviceTimeUs.value) else [], Decimal(record.schemaVersion)]
  }

  /** The row of a record; one whose values have no text is never written. */
  function RecordRow(record: Record, doubles: DoubleText): Cells {
    RecordHead(record) + match ScalarTexts(record.values, doubles) case None => [] case Some(texts) => texts
  }

  function RecordRows(records: seq<Record>, doubles: DoubleText): seq<Cells> {
    if records == [] then [] else [RecordRow(records[0], doubles)] + RecordRows(records[1..], doubles)
  }

  function EndCells(count: nat): Cells {
    [END, Decimal(count)]
  }

  // ---------------------------------------------------------------- reading rows

  /** A byte order mark that came through a quoted first field. */
  function StripMark(row: Cells): Cells {
    if row != [] && MARK <= row[0] then row[0 := row[0][3..]] else row
  }

  function Version(text: Text): Option<u64> {
    match ParseSigned(text)
    case None => None
    case Some(i) => if i <= 0 then None else Some(i)
  }

  function ParseFields(cells: Cells): Option<seq<Field>> {
    if cells == [] then Some([])
    else if |cells| < 3 || (cells[2] != TRUE_TEXT && cells[2] != FALSE_TEXT) then None
    else
      match NamedType(cells[1])
      case None => None
      case Some(kind) =>
        match ParseFields(cells[3..])
        case None => None
        case Some(rest) => Some([Field(cells[0], kind, cells[2] == TRUE_TEXT)] + rest)
  }

  function ParseSchemaRow(row: Cells): Option<Psrec.Versioned> {
    if |row| < 6 || (|row| - 3) % 3 != 0 then None else
    match ParseFields(row[3..])
    case None => None
    case Some(fields) =>
      if !ValidSchema(Schema(row[2], fields)) then None else
      match Version(row[1])
      case None => None
      case Some(version) => Some(Psrec.Versioned(version, Schema(row[2], fields)))
  }

  type Schemas = map<u64, Schema>

  /** Reads schema rows up to the first row of another kind. */
  function ReadSchemas(rows: seq<Cells>, found: Schemas, fields: nat): Option<(Schemas, seq<Cells>)> {
    if rows == [] then None
    else if rows[0] == [] || rows[0][0] != SCHEMA then Some((found, rows))
    else
      match ParseSchemaRow(rows[0])
      case None => None
      case Some(v) =>
        var total := fields + |v.schema.fields|;
        if |found| >= 1024 || total > 16384 || v.version in found then None
        else ReadSchemas(rows[1..], found[v.version := v.schema], total)
  }

  function TypedScalars(fields: seq<Field>, cells: Cells, doubles: DoubleText): Option<seq<Value>>
    requires |fields| == |cells|
  {
    if fields == [] then Some([]) else
    match TypedScalar(fields[0].kind, cells[0], doubles)
    case None => None
    case Some(v) =>
      match TypedScalars(fields[1..], cells[1..], doubles)
      case None => None
      case Some(rest) => Some([v] + rest)
  }

  function ParseRecordRow(schemas: Schemas, row: Cells, doubles: DoubleText): Option<Record> {
    if |row| < 7 || row[0] != RECORD then None else
    match Version(row[6])
    case None => None
    case Some(id) =>
      if id !in schemas || |row| != 7 + |schemas[id].fields| then None else
      var at := ParseSigned(row[4]);
      var device := ParseSigned(row[5]);
      var values := TypedScalars(schemas[id].fields, row[7..], doubles);
      if at.None? || (row[5] != [] && device.None?) || values.None? then None
      else
        var record := Record(row[1], row[2], row[3], at.value, if row[5] == [] then None else device, id, values.value);
        if ValidRecord(schemas[id], record) then Some(record) else None
  }

  datatype Step = Fail | Finished | Read(record: Record)

  /** One call of the record reader: `rows` are the rows still to come and `complete` says whether they end
    * without an error. */
  function NextRecord(schemas: Schemas, rows: seq<Cells>, complete: bool, count: nat, doubles: DoubleText): Step {
    if rows == [] || rows[0] == [] then Fail
    else if rows[0][0] == END then
      if |rows[0]| == 2 && ParseUnsigned(rows[0][1]) == Some(count) && |rows| == 1 && complete then Finished else Fail
    else
      match ParseRecordRow(schemas, rows[0], doubles)
      case None => Fail
      case Some(record) => if count == TWO_64 - 1 then Fail else Read(record)
  }

  function ReadRecords(schemas: Schemas, rows: seq<Cells>, complete: bool, count: nat, doubles: DoubleText): Psrec.Import {
    match NextRecord(schemas, rows, complete, count, doubles)
    case Fail => Psrec.Import(false, [])
    case Finished => Psrec.Import(true, [])
    case Read(record) =>
      var later := ReadRecords(schemas, rows[1..], complete, count + 1, doubles);
      Psrec.Import(later.complete, [record] + later.records)
  }

  /** Opening a file: the header and the schema rows. */
  function OpenTable(table: Table): Option<(Schemas, seq<Cells>)> {
    if table.rows == [] || StripMark(table.rows[0]) != HEADER then None else ReadSchemas(table.rows[1..], map[], 0)
  }

  /** All that a client gets from a file: its schemas, the records, and whether the end was confirmed. */
  function ReadTable(table: Table, doubles: DoubleText): Option<(Schemas, Psrec.Import)> {
    match OpenTable(table)
    case None => None
    case Some((schemas, rows)) => Some((schemas, ReadRecords(schemas, rows, table.complete, 0, doubles)))
  }

  predicate Confirmed(table: Table, doubles: DoubleText) {
    ReadTable(table, doubles).Some? && ReadTable(table, doubles).value.1.complete
  }

  // ---------------------------------------------------------------- the round trip of rows

  lemma {:induction false} FieldCellsBack(fields: seq<Field>)
    ensures |FieldCells(fields)| == 3 * |fields|
    ensures ParseFields(FieldCells(fields)) == Some(fields)
  {
    if fields != [] {
      FieldCellsBack(fields[1..]);
      assert FieldCells(fields)[3..] == FieldCells(fields[1..]);
      assert fields == [fields[0]] + fields[1..];
      assert NamedType(TypeName(fields[0].kind)) == Some(fields[0].kind);
    }
  }

  lemma VersionBack(version: u64)
    requires 0 < version < TWO_63
    ensures Version(Decimal(version)) == Some(version)
  {
    SignedBack(version);
  }

  lemma SchemaRowBack(v: Psrec.Versioned)
    requires Psrec.ValidVersioned(v)
    ensures ParseSchemaRow(SchemaRow(v)) == Some(v)
    ensures SchemaRow(v) != [] && SchemaRow(v)[0] == SCHEMA
  {
    hide ParseFields, FieldCells, ValidSchema;
    var row := SchemaRow(v);
    FieldCellsBack(v.schema.fields);
    VersionBack(v.version);
    assert row[3..] == FieldCells(v.schema.fields);
    ValidHasFields(v.schema);
  }

  lemma ValidHasFields(schema: Schema)
    requires ValidSchema(schema)
    ensures |schema.fields| >= 1
  {
  }

  lemma {:induction false} SchemaMapSize(list: seq<Psrec.Versioned>)
    ensures |Psrec.SchemaMap(list)| <= |list|
  {
    if list != [] {
      SchemaMapSize(list[..|list| - 1]);
      var before, last := Psrec.SchemaMap(list[..|list| - 1]), list[|list| - 1];
      assert before[last.version := last.schema].Keys == before.Keys + {last.version};
    }
  }

  lemma {:induction false} SchemaRowsBack(done: seq<Psrec.Versioned>, list: seq<Psrec.Versioned>, fields: nat,
                                          rest: seq<Cells>)
    requires Psrec.AscendingVersions(done + list) && |done + list| <= 1024
    requires forall i :: 0 <= i < |list| ==> Psrec.ValidVersioned(list[i])
    requires fields + Psrec.FieldTotal(list) <= 16384
    requires rest != [] && rest[0] != [] && rest[0][0] != SCHEMA
    ensures ReadSchemas(SchemaRows(list) + rest, Psrec.SchemaMap(done), fields)
         == Some((Psrec.SchemaMap(done + list), rest))
    decreases |list|
  {
    hide ParseSchemaRow, SchemaRow, Psrec.AscendingVersions, Psrec.ValidVersioned;
    if list == [] {
      assert done + list == done && SchemaRows(list) + rest == rest;
    } else {
      var v := list[0];
      SchemaRowBack(v);
      Psrec.NewVersion(done, list);
      SchemaMapSize(done);
      assert (done + [v])[..|done|] == done;
      assert done + list == done + [v] + list[1..];
      SchemaRowsBack(done + [v], list[1..], fields + |v.schema.fields|, rest);
      var rows := SchemaRows(list) + rest;
      assert rows[0] == SchemaRow(v) && rows[1..] == SchemaRows(list[1..]) + rest;
    }
  }

  lemma {:induction false} ScalarsBack(fields: seq<Field>, values: seq<Value>, doubles: DoubleText)
    requires Faithful(doubles) && |fields| == |values|
    requires forall i :: 0 <= i < |fields| ==> Fits(fields[i], values[i])
    requires ScalarTexts(values, doubles).Some?
    ensures |ScalarTexts(values, doubles).value| == |fields|
    ensures TypedScalars(fields, ScalarTexts(values, doubles).value, doubles) == Some(values)
  {
    hide ScalarText, TypedScalar, Faithful, Fits;
    if fields != [] {
      var texts := ScalarTexts(values, doubles).value;
      ScalarBack(fields[0], values[0], doubles);
      ScalarsBack(fields[1..], values[1..], doubles);
      assert texts[1..] == ScalarTexts(values[1..], doubles).value;
      assert values == [values[0]] + values[1..];
    }
  }

  /** When the writer accepts a record. */
  predicate Recordable(schemas: Schemas, record: Record, sizeofValue: nat, doubles: DoubleText) {
    && record.schemaVersion in schemas
    && ValidRecord(schemas[record.schemaVersion], record)
    && Psrec.MemoryCost(record.values, sizeofValue) <= ROW_BYTES
    && ScalarTexts(record.values, doubles).Some?
    && Writable(RecordRow(record, doubles))
  }

  lemma RecordRowBack(schemas: Schemas, record: Record, doubles: DoubleText)
    requires Faithful(doubles)
    requires record.schemaVersion in schemas && 0 < record.schemaVersion < TWO_63
    requires ValidRecord(schemas[record.schemaVersion], record)
    requires ScalarTexts(record.values, doubles).Some?
    ensures ParseRecordRow(schemas, RecordRow(record, doubles), doubles) == Some(record)
    ensures RecordRow(record, doubles) != [] && RecordRow(record, doubles)[0] == RECORD
  {
    hide ScalarTexts, TypedScalars, ParseSigned, Signed, Decimal, Faithful;
    var schema := schemas[record.schemaVersion];
    ScalarsBack(schema.fields, record.values, doubles);
    var row := RecordRow(record, doubles);
    assert row[7..] == ScalarTexts(record.values, doubles).value;
    VersionBack(record.schemaVersion);
    SignedBack(record.receivedAtUs);
    if record.deviceTimeUs.Some? {
      SignedBack(record.deviceTimeUs.value);
      SignedSome(record.deviceTimeUs.value);
    }
  }

  lemma SignedSome(i: i64)
    ensures Signed(i) != []
  {
    var n: int := i;
    DecimalBack(if n < 0 then -n else n);
  }

  // ---------------------------------------------------------------- whole files

  function FileRows(list: seq<Psrec.Versioned>, records: seq<Record>, doubles: DoubleText): seq<Cells> {
    [HEADER] + SchemaRows(list) + (RecordRows(records, doubles) + [EndCells(|records|)])
  }

  /** The finished file. */
  function FileText(list: seq<Psrec.Versioned>, records: seq<Record>, doubles: DoubleText): Text {
    Forms(FileRows(list, records, doubles))
  }

  /** The schemas the writer accepts. */
  predicate WritableSchemas(list: seq<Psrec.Versioned>) {
    && |list| <= 1024
    && (forall i :: 0 <= i < |list| ==> Psrec.ValidVersioned(list[i]))
    && Psrec.FieldTotal(list) <= 16384
  }

  ghost predicate WritableFile(list: seq<Psrec.Versioned>, records: seq<Record>, sizeofValue: nat, doubles: DoubleText) {
    && WritableSchemas(list) && Psrec.AscendingVersions(list)
    && (forall i :: 0 <= i < |records| ==> Recordable(Psrec.SchemaMap(list), records[i], sizeofValue, doubles))
    && |records| < TWO_64
  }

  lemma {:induction false} DecimalLength(n: nat, digits: nat, bound: nat)
    requires digits >= 1 && n < bound * 10
    requires bound == Power10(digits - 1)
    ensures |Decimal(n)| <= digits
  {
    if n >= 10 && digits > 1 {
      assert Power10(digits - 1) == 10 * Power10(digits - 2);
      DecimalLength(n / 10, digits - 1, Power10(digits - 2));
    }
  }

  function Power10(n: nat): nat {
    if n == 0 then 1 else 10 * Power10(n - 1)
  }

  /** A 64-bit number has at most twenty digits. */
  lemma DecimalShort(n: nat)
    requires n < TWO_64
    ensures |Decimal(n)| <= 20
  {
    assert Power10(4) == 10000;
    assert Power10(8) == 100000000;
    assert Power10(12) == 1000000000000;
    assert Power10(16) == 10000000000000000;
    assert Power10(19) == 10000000000000000000;
    DecimalLength(n, 20, Power10(19));
  }

  lemma {:induction false} FieldCellsSize(fields: seq<Field>)
    requires forall i :: 0 <= i < |fields| ==> ValidName(fields[i].name)
    ensures TotalSize(FieldCells(fields)) <= 139 * |fields|
    ensures |FieldCells(fields)| == 3 * |fields|
  {
    if fields != [] {
      FieldCellsSize(fields[1..]);
      var f, rest := fields[0], FieldCells(fields[1..]);
      var cells := [f.name, TypeName(f.kind), Truth(f.nullable)] + rest;
      assert cells[1..][1..][1..] == rest;
      assert TotalSize(cells[1..]) == |TypeName(f.kind)| + TotalSize(cells[1..][1..]);
      assert TotalSize(cells[1..][1..]) == |Truth(f.nullable)| + TotalSize(rest);
    }
  }

  /** Schema rows and the end row are never too long. */
  lemma SchemaRowFits(v: Psrec.Versioned)
    requires Psrec.ValidVersioned(v)
    ensures Writable(SchemaRow(v))
  {
    var row, cells := SchemaRow(v), FieldCells(v.schema.fields);
    FieldCellsSize(v.schema.fields);
    DecimalShort(v.version);
    assert row[1..][1..][1..] == cells;
    assert TotalSize(row) == 6 + TotalSize(row[1..]);
    assert TotalSize(row[1..]) == |Decimal(v.version)| + TotalSize(row[1..][1..]);
    assert TotalSize(row[1..][1..]) == |v.schema.dataset| + TotalSize(cells);
    RowBound(row);
  }

  lemma EndFits(count: nat)
    requires count < TWO_64
    ensures Writable(EndCells(count)) && Writable(HEADER)
  {
    DecimalShort(count);
    var row := EndCells(count);
    assert TotalSize(row[1..]) == |Decimal(count)| + TotalSize(row[1..][1..]);
    RowBound(row);
    assert TotalSize(HEADER[1..]) == 1 + TotalSize(HEADER[1..][1..]);
    RowBound(HEADER);
  }

  lemma {:induction false} SchemaRowsFit(list: seq<Psrec.Versioned>)
    requires forall i :: 0 <= i < |list| ==> Psrec.ValidVersioned(list[i])
    ensures |SchemaRows(list)| == |list|
    ensures forall r :: r in SchemaRows(list) ==> Readable(r, DEFAULTS) && r[0] == SCHEMA
  {
    hide Writable, Psrec.ValidVersioned;
    if list != [] {
      SchemaRowFits(list[0]);
      WritableReadable(SchemaRow(list[0]));
      SchemaRowsFit(list[1..]);
    }
  }

  lemma WritableReadable(row: Cells)
    ensures Writable(row) && row != [] ==> Readable(row, DEFAULTS)
  {
  }

  lemma {:induction false} RecordRowsFit(records: seq<Record>, doubles: DoubleText)
    requires forall i :: 0 <= i < |records| ==> Writable(RecordRow(records[i], doubles))
    ensures |RecordRows(records, doubles)| == |records|
    ensures forall r :: r in RecordRows(records, doubles) ==> Readable(r, DEFAULTS) && r[0] == RECORD
  {
    hide Writable;
    if records != [] {
      WritableReadable(RecordRow(records[0], doubles));
      RecordRowsFit(records[1..], doubles);
    }
  }

  lemma KeywordsPlain()
    ensures Plain(TITLE) && Plain(SCHEMA) && Plain(RECORD) && Plain(END)
    ensures HEADER[0] == TITLE
  {
  }

  lemma DigitsPlain(text: Text)
    requires AllDigits(text)
    ensures Plain(text)
  {
    forall i | 0 <= i < |text| ensures !Special(text[i]) {
      assert IsDigit(text[i]);
    }
  }

  /** A row that can be read back and begins with one of the plain keywords. */
  predicate Keyed(row: Cells) {
    Readable(row, DEFAULTS) && row[0] in {TITLE, SCHEMA, RECORD, END}
  }

  /** Every row of a written file is readable and begins with its keyword; only the last begins with "end". */
  lemma FileRowsFit(list: seq<Psrec.Versioned>, records: seq<Record>, sizeofValue: nat, doubles: DoubleText)
    requires WritableFile(list, records, sizeofValue, doubles)
    ensures var rows := FileRows(list, records, doubles);
      && |rows| == |list| + |records| + 2
      && rows[|rows| - 1] == EndCells(|records|) && rows[0] == HEADER
      && (forall i :: 0 <= i < |rows| ==> Keyed(rows[i]))
      && (forall i :: 0 <= i < |rows| - 1 ==> rows[i][0] != END)
  {
    hide *;
    PartsFit(list, records, sizeofValue, doubles);
    var schemas, entries, rows := SchemaRows(list), RecordRows(records, doubles), FileRows(list, records, doubles);
    FileRowsParts(list, records, doubles);
    forall i | 0 <= i < |rows|
      ensures Keyed(rows[i]) && (i < |rows| - 1 ==> rows[i] != [] && rows[i][0] != END)
    {
      if i == 0 {
        assert rows[i] == HEADER;
      } else if i <= |list| {
        assert rows[i] == schemas[i - 1] && schemas[i - 1] in schemas;
      } else if i <= |list| + |records| {
        assert rows[i] == entries[i - 1 - |list|] && entries[i - 1 - |list|] in entries;
      } else {
        assert rows[i] == EndCells(|records|);
      }
    }
    KeyedNonempty(rows);
  }

  lemma KeyedNonempty(rows: seq<Cells>)
    ensures forall r :: r in rows && Keyed(r) ==> r != [] && Readable(r, DEFAULTS) && Plain(r[0])
  {
    KeywordsPlain();
  }

  lemma FileRowsParts(list: seq<Psrec.Versioned>, records: seq<Record>, doubles: DoubleText)
    ensures FileRows(list, records, doubles)
         == [HEADER] + SchemaRows(list) + (RecordRows(records, doubles) + [EndCells(|records|)])
  {
  }

  lemma PartsFit(list: seq<Psrec.Versioned>, records: seq<Record>, sizeofValue: nat, doubles: DoubleText)
    requires WritableFile(list, records, sizeofValue, doubles)
    ensures |SchemaRows(list)| == |list| && |RecordRows(records, doubles)| == |records|
    ensures forall r :: r in SchemaRows(list) ==> Keyed(r) && r != [] && r[0] != END
    ensures forall r :: r in RecordRows(records, doubles) ==> Keyed(r) && r != [] && r[0] != END
    ensures Keyed(EndCells(|records|)) && Keyed(HEADER) && HEADER != [] && HEADER[0] != END
  {
    hide Decimal, WritableSchemas, RecordRow, SchemaRows, RecordRows, RowForm, ScalarTexts, ValidRecord;
    EndFits(|records|);
    WritableReadable(EndCells(|records|));
    WritableReadable(HEADER);
    SchemasValid(list);
    SchemaRowsFit(list);
    RecordRowsFit(records, doubles);
  }

  lemma SchemasValid(list: seq<Psrec.Versioned>)
    requires WritableSchemas(list)
    ensures forall i :: 0 <= i < |list| ==> Psrec.ValidVersioned(list[i])
  {
  }

  lemma {:induction false} RecordRowsBack(schemas: Schemas, records: seq<Record>, tail: seq<Cells>, complete: bool,
                                          count: nat, sizeofValue: nat, doubles: DoubleText)
    requires Faithful(doubles)
    requires forall i :: 0 <= i < |records| ==>
      Recordable(schemas, records[i], sizeofValue, doubles) && 0 < records[i].schemaVersion < TWO_63
    requires count + |records| < TWO_64
    ensures ReadRecords(schemas, RecordRows(records, doubles) + tail, complete, count, doubles)
         == var later := ReadRecords(schemas, tail, complete, count + |records|, doubles);
            Psrec.Import(later.complete, records + later.records)
    decreases |records|
  {
    hide Faithful, ParseRecordRow, RecordRow, ScalarTexts, Writable, Psrec.MemoryCost, ValidRecord;
    var rows := RecordRows(records, doubles) + tail;
    if records == [] {
      assert rows == tail;
      var later := ReadRecords(schemas, tail, complete, count, doubles);
      assert records + later.records == later.records;
    } else {
      var r := records[0];
      RecordRowBack(schemas, r, doubles);
      RecordRowsBack(schemas, records[1..], tail, complete, count + 1, sizeofValue, doubles);
      assert rows[0] == RecordRow(r, doubles) && rows[1..] == RecordRows(records[1..], doubles) + tail;
      var later := ReadRecords(schemas, tail, complete, count + |records|, doubles);
      assert [r] + (records[1..] + later.records) == records + later.records;
    }
  }

  /** Every version in the writer's map is one the reader accepts. */
  lemma {:induction false} VersionsPositive(list: seq<Psrec.Versioned>)
    requires forall i :: 0 <= i < |list| ==> Psrec.ValidVersioned(list[i])
    ensures forall v :: v in Psrec.SchemaMap(list) ==> 0 < v < TWO_63
  {
    if list != [] {
      VersionsPositive(list[..|list| - 1]);
    }
  }

  /** Reading the rows of a file whose end row may be replaced by something else. */
  lemma ReadFileRows(list: seq<Psrec.Versioned>, records: seq<Record>, tail: seq<Cells>, complete: bool,
                     sizeofValue: nat, doubles: DoubleText)
    requires WritableFile(list, records, sizeofValue, doubles) && Faithful(doubles)
    requires records != [] || (tail != [] && tail[0] != [] && tail[0][0] != SCHEMA)
    ensures var table := Table([HEADER] + SchemaRows(list) + (RecordRows(records, doubles) + tail), complete);
      var later := ReadRecords(Psrec.SchemaMap(list), tail, complete, |records|, doubles);
      ReadTable(table, doubles) == Some((Psrec.SchemaMap(list), Psrec.Import(later.complete, records + later.records)))
  {
    hide Faithful, ReadSchemas, ReadRecords, SchemaRows, Psrec.SchemaMap, Recordable, Psrec.ValidVersioned, RecordRow;
    var rest := RecordRows(records, doubles) + tail;
    var rows := [HEADER] + SchemaRows(list) + rest;
    assert rows[0] == HEADER && rows[1..] == SchemaRows(list) + rest;
    if records != [] {
      assert rest[0] == RecordRow(records[0], doubles);
      RecordKeyword(records[0], doubles);
    } else {
      assert rest == tail;
    }
    assert [] + list == list;
    EmptySchemas();
    SchemaRowsBack([], list, 0, rest);
    VersionsPositive(list);
    RecordVersions(list, records, sizeofValue, doubles);
    RecordRowsBack(Psrec.SchemaMap(list), records, tail, complete, 0, sizeofValue, doubles);
    HeaderKept();
  }

  lemma RecordKeyword(record: Record, doubles: DoubleText)
    ensures RecordRow(record, doubles) != [] && RecordRow(record, doubles)[0] == RECORD && RECORD != SCHEMA
  {
  }

  lemma EmptySchemas()
    ensures Psrec.SchemaMap([]) == map[]
  {
  }

  lemma HeaderKept()
    ensures StripMark(HEADER) == HEADER
  {
    assert HEADER[0][0] == TITLE[0] && MARK[0] == 0xEF;
  }

  lemma RecordVersions(list: seq<Psrec.Versioned>, records: seq<Record>, sizeofValue: nat, doubles: DoubleText)
    requires forall i :: 0 <= i < |records| ==> Recordable(Psrec.SchemaMap(list), records[i], sizeofValue, doubles)
    ensures forall i :: 0 <= i < |records| ==> records[i].schemaVersion in Psrec.SchemaMap(list)
  {
  }

  lemma EndRead(schemas: Schemas, tail: seq<Cells>, complete: bool, count: nat, doubles: DoubleText)
    requires count < TWO_64
    ensures ReadRecords(schemas, [EndCells(count)] + tail, complete, count, doubles)
         == Psrec.Import(tail == [] && complete, [])
  {
    DecimalBack(count);
  }

  lemma TitleFirst(list: seq<Psrec.Versioned>, records: seq<Record>, doubles: DoubleText)
    ensures |FileText(list, records, doubles)| > 3 && FileText(list, records, doubles)[0] == 112
  {
    KeywordsPlain();
    RowHead(HEADER);
    var text := RowForm(HEADER);
    assert text[0] == TITLE[0];
    FileRowsParts(list, records, doubles);
    assert FileRows(list, records, doubles)[0] == HEADER;
  }

  /** The record file round trip: for all schemas and records the writer accepts, reading the finished file
    * gives back the same schemas and the same records in order, and confirms the end. */
  lemma RecordFileRoundTrip(list: seq<Psrec.Versioned>, records: seq<Record>, sizeofValue: nat, doubles: DoubleText)
    requires WritableFile(list, records, sizeofValue, doubles) && Faithful(doubles)
    ensures ReadTable(AllRows(Open(FileText(list, records, doubles)), DEFAULTS), doubles)
         == Some((Psrec.SchemaMap(list), Psrec.Import(true, records)))
  {
    hide *;
    FileRowsFit(list, records, sizeofValue, doubles);
    FileReads(list, records, [], sizeofValue, doubles);
    CompleteFile(list, records, sizeofValue, doubles);
  }

  /** The written file, with anything behind it, as the row reader sees it. */
  lemma FileReads(list: seq<Psrec.Versioned>, records: seq<Record>, extra: Text, sizeofValue: nat, doubles: DoubleText)
    requires WritableFile(list, records, sizeofValue, doubles)
    ensures var later := AllRows(Source([], extra), DEFAULTS);
      AllRows(Open(FileText(list, records, doubles) + extra), DEFAULTS)
      == Table(FileRows(list, records, doubles) + later.rows, later.complete)
    ensures AllRows(Open(FileText(list, records, doubles)), DEFAULTS) == Table(FileRows(list, records, doubles), true)
    ensures extra != [] ==>
      AllRows(Source([], extra), DEFAULTS).rows != [] || !AllRows(Source([], extra), DEFAULTS).complete
  {
    hide AllRows, Forms, FileRows, WritableFile;
    var rows := FileRows(list, records, doubles);
    FileRowsFit(list, records, sizeofValue, doubles);
    TitleFirst(list, records, doubles);
    RowsThen(rows, extra, DEFAULTS);
    RowsThen(rows, [], DEFAULTS);
    NothingRead();
    assert FileText(list, records, doubles) + [] == FileText(list, records, doubles) && rows + [] == rows;
  }

  lemma NothingRead()
    ensures AllRows(Source([], []), DEFAULTS) == Table([], true)
  {
    NothingLeft(DEFAULTS);
  }

  lemma CompleteFile(list: seq<Psrec.Versioned>, records: seq<Record>, sizeofValue: nat, doubles: DoubleText)
    requires WritableFile(list, records, sizeofValue, doubles) && Faithful(doubles)
    ensures ReadTable(Table(FileRows(list, records, doubles), true), doubles)
         == Some((Psrec.SchemaMap(list), Psrec.Import(true, records)))
  {
    hide Faithful, ReadTable, ReadRecords, Recordable, WritableSchemas;
    EndRead(Psrec.SchemaMap(list), [], true, |records|, doubles);
    assert [EndCells(|records|)] + [] == [EndCells(|records|)];
    EndIsNoSchema(|records|);
    ReadFileRows(list, records, [EndCells(|records|)], true, sizeofValue, doubles);
    assert records + [] == records;
  }

  lemma EndIsNoSchema(count: nat)
    ensures EndCells(count) != [] && EndCells(count)[0] != SCHEMA
  {
  }

  /** Nothing may follow the end row: a file with any bytes added is not confirmed. */
  lemma RecordExtensionNoticed(list: seq<Psrec.Versioned>, records: seq<Record>, extra: Text, sizeofValue: nat,
                               doubles: DoubleText)
    requires WritableFile(list, records, sizeofValue, doubles) && Faithful(doubles)
    requires extra != []
    ensures !Confirmed(AllRows(Open(FileText(list, records, doubles) + extra), DEFAULTS), doubles)
  {
    hide Faithful, ReadTable, ReadRecords, WritableFile, AllRows, FileText, FileRows;
    FileReads(list, records, extra, sizeofValue, doubles);
    EndNotLast(list, records, AllRows(Source([], extra), DEFAULTS), sizeofValue, doubles);
  }

  lemma EndNotLast(list: seq<Psrec.Versioned>, records: seq<Record>, later: Table, sizeofValue: nat,
                   doubles: DoubleText)
    requires WritableFile(list, records, sizeofValue, doubles) && Faithful(doubles)
    requires later.rows != [] || !later.complete
    ensures !Confirmed(Table(FileRows(list, records, doubles) + later.rows, later.complete), doubles)
  {
    hide Faithful, ReadTable, ReadRecords, Recordable, WritableSchemas, SchemaRows, RecordRows, EndCells;
    var tail := [EndCells(|records|)] + later.rows;
    EndRead(Psrec.SchemaMap(list), later.rows, later.complete, |records|, doubles);
    EndIsNoSchema(|records|);
    ReadFileRows(list, records, tail, later.complete, sizeofValue, doubles);
    TailRows([HEADER] + SchemaRows(list), RecordRows(records, doubles), [EndCells(|records|)], later.rows);
  }

  lemma TailRows<T>(a: seq<T>, b: seq<T>, c: seq<T>, d: seq<T>)
    ensures a + (b + (c + d)) == a + (b + c) + d
  {
  }

  // ---------------------------------------------------------------- truncation

  /** A confirmed end needs an end row with the right count as the very last row. */
  lemma {:induction false} ConfirmedEnds(schemas: Schemas, rows: seq<Cells>, complete: bool, count: nat,
                                         doubles: DoubleText)
    requires ReadRecords(schemas, rows, complete, count, doubles).complete
    ensures rows != [] && complete
    ensures var last := rows[|rows| - 1];
      |last| == 2 && last[0] == END && ParseUnsigned(last[1]) == Some(count + |rows| - 1)
    decreases |rows|
  {
    hide ParseRecordRow, ParseUnsigned;
    if NextRecord(schemas, rows, complete, count, doubles).Read? {
      ConfirmedEnds(schemas, rows[1..], complete, count + 1, doubles);
    }
  }

  lemma {:induction false} SchemasLeave(rows: seq<Cells>, found: Schemas, fields: nat)
    ensures ReadSchemas(rows, found, fields).Some? ==>
      var rest := ReadSchemas(rows, found, fields).value.1;
      0 < |rest| <= |rows| && rest == rows[|rows| - |rest|..]
    decreases |rows|
  {
    hide ParseSchemaRow;
    if rows != [] && rows[0] != [] && rows[0][0] == SCHEMA && ParseSchemaRow(rows[0]).Some? {
      var v := ParseSchemaRow(rows[0]).value;
      SchemasLeave(rows[1..], found[v.version := v.schema], fields + |v.schema.fields|);
    }
  }

  /** A table whose last row does not begin with "end" is not confirmed. */
  lemma UnconfirmedWithoutEnd(table: Table, doubles: DoubleText)
    requires table.rows != [] ==>
      var last := table.rows[|table.rows| - 1];
      last == [] || last[0] != END
    ensures !Confirmed(table, doubles)
  {
    hide ReadSchemas, ReadRecords, ParseUnsigned;
    if OpenTable(table).Some? {
      SchemasLeave(table.rows[1..], map[], 0);
      var (schemas, rows) := OpenTable(table).value;
      assert rows[|rows| - 1] == table.rows[|table.rows| - 1];
      if ReadRecords(schemas, rows, table.complete, 0, doubles).complete {
        ConfirmedEnds(schemas, rows, table.complete, 0, doubles);
      }
    }
  }

  lemma BegunKeyword(part: Text, whole: Text)
    requires whole in {TITLE, SCHEMA, RECORD}
    requires part <= whole
    ensures part != END
  {
    assert whole[0] != END[0];
    assert part != [] ==> part[0] == whole[0];
  }

  /** A file cut anywhere is confirmed if and only if nothing but its final line feed is missing, and then it
    * still gives all the records. */
  lemma RecordTruncationNoticed(list: seq<Psrec.Versioned>, records: seq<Record>, n: nat, sizeofValue: nat,
                                doubles: DoubleText)
    requires WritableFile(list, records, sizeofValue, doubles) && Faithful(doubles)
    requires n < |FileText(list, records, doubles)|
    ensures var table := AllRows(Open(FileText(list, records, doubles)[..n]), DEFAULTS);
      && (Confirmed(table, doubles) <==> n == |FileText(list, records, doubles)| - 1)
      && (n == |FileText(list, records, doubles)| - 1 ==>
           ReadTable(table, doubles) == Some((Psrec.SchemaMap(list), Psrec.Import(true, records))))
  {
    hide AllRows, FileRows, WritableFile, Faithful, ReadTable, Next, RowForm, Keyed;
    var text, rows := FileText(list, records, doubles), FileRows(list, records, doubles);
    FileRowsFit(list, records, sizeofValue, doubles);
    TitleFirst(list, records, doubles);
    assert n > 0 ==> text[..n][0] == text[0];
    KeyedNonempty(rows);
    var k, m := CutTable(rows, n, DEFAULTS);
    var table := AllRows(Source([], text[..n]), DEFAULTS);
    assert Open(text[..n]) == Source([], text[..n]);
    if k < |rows| - 1 {
      CutBeforeEnd(rows, k, m, doubles);
    } else {
      CutInEnd(list, records, m, sizeofValue, doubles);
      assert rows[..k] == rows[..|rows| - 1];
    }
  }

  /** Cut before the end row: there is no end row. */
  lemma CutBeforeEnd(rows: seq<Cells>, k: nat, m: nat, doubles: DoubleText)
    requires k < |rows| - 1 && m < |RowForm(rows[k])|
    requires forall i :: 0 <= i < |rows| - 1 ==> Keyed(rows[i]) && rows[i] != [] && rows[i][0] != END
    ensures !Confirmed(Then(rows[..k], Next(Source([], RowForm(rows[k])[..m]), DEFAULTS)), doubles)
  {
    hide Next, RowForm, Confirmed;
    var r := Next(Source([], RowForm(rows[k])[..m]), DEFAULTS);
    KeyedNonempty(rows);
    if m == 0 {
      NothingLeft(DEFAULTS);
      assert RowForm(rows[k])[..0] == [];
    } else {
      CutRow(rows[k], m, DEFAULTS);
      if r.Got? {
        if r.fields[0] <= rows[k][0] {
          BegunKeyword(r.fields[0], rows[k][0]);
        }
      }
    }
    UnconfirmedWithoutEnd(Then(rows[..k], r), doubles);
  }

  /** Cut in the end row: only the loss of its line feed goes unnoticed. */
  lemma CutInEnd(list: seq<Psrec.Versioned>, records: seq<Record>, m: nat, sizeofValue: nat, doubles: DoubleText)
    requires WritableFile(list, records, sizeofValue, doubles) && Faithful(doubles)
    requires m < |RowForm(EndCells(|records|))|
    ensures var rows, form := FileRows(list, records, doubles), RowForm(EndCells(|records|));
      var table := Then(rows[..|rows| - 1], Next(Source([], form[..m]), DEFAULTS));
      && (m == |form| - 1 ==> ReadTable(table, doubles) == Some((Psrec.SchemaMap(list), Psrec.Import(true, records))))
      && (m < |form| - 1 ==> !Confirmed(table, doubles))
  {
    hide Next, RowForm, Decimal, Faithful, ReadTable, ReadRecords, Recordable, WritableSchemas, SchemaRows, RecordRows;
    hide Confirmed;
    var digits := Decimal(|records|);
    var rows, form := FileRows(list, records, doubles), RowForm(EndCells(|records|));
    var r := Next(Source([], form[..m]), DEFAULTS);
    var front := [HEADER] + SchemaRows(list) + RecordRows(records, doubles);
    FileRowsParts(list, records, doubles);
    assert rows == front + [EndCells(|records|)];
    assert rows[..|rows| - 1] == front;
    EndFits(|records|);
    WritableReadable(EndCells(|records|));
    DecimalBack(|records|);
    DigitsPlain(digits);
    KeywordsPlain();
    PairForm(END, digits);
    if m == 0 {
      NothingLeft(DEFAULTS);
      assert form[..0] == [];
      FrontOnly(list, records, sizeofValue, doubles);
      UnconfirmedWithoutEnd(Then(front, r), doubles);
    } else {
      CutPair(END, digits, m, DEFAULTS);
      if m == |form| - 1 {
        assert digits[..m - |END| - 1] == digits;
        CompleteFile(list, records, sizeofValue, doubles);
      } else {
        BadEnd(list, records, r.fields, sizeofValue, doubles);
      }
    }
  }

  lemma FrontOnly(list: seq<Psrec.Versioned>, records: seq<Record>, sizeofValue: nat, doubles: DoubleText)
    requires WritableFile(list, records, sizeofValue, doubles)
    ensures var front := [HEADER] + SchemaRows(list) + RecordRows(records, doubles);
      front[|front| - 1] != [] && front[|front| - 1][0] != END
  {
    hide *;
    FileRowsFit(list, records, sizeofValue, doubles);
    FileRowsParts(list, records, doubles);
    var rows := FileRows(list, records, doubles);
    var front := [HEADER] + SchemaRows(list) + RecordRows(records, doubles);
    Assoc([HEADER] + SchemaRows(list), RecordRows(records, doubles), [EndCells(|records|)]);
    assert rows == front + [EndCells(|records|)];
    assert front[|front| - 1] == rows[|rows| - 2];
    KeyedNonempty(rows);
  }

  /** An end row without its count, or with a beginning of it, confirms nothing. */
  lemma BadEnd(list: seq<Psrec.Versioned>, records: seq<Record>, part: Cells, sizeofValue: nat, doubles: DoubleText)
    requires WritableFile(list, records, sizeofValue, doubles) && Faithful(doubles)
    requires (exists k :: 0 <= k <= |END| && part == [END[..k]])
      || (exists k :: 0 <= k < |Decimal(|records|)| && part == [END, Decimal(|records|)[..k]])
    ensures !Confirmed(Table([HEADER] + SchemaRows(list) + RecordRows(records, doubles) + [part], true), doubles)
  {
    hide Decimal, Faithful, ReadRecords, Recordable, WritableSchemas, SchemaRows, RecordRows, ReadTable, ParseUnsigned;
    var schemas := Psrec.SchemaMap(list);
    if |part| == 2 {
      var k :| 0 <= k < |Decimal(|records|)| && part == [END, Decimal(|records|)[..k]];
      DecimalCut(|records|, k);
    }
    assert |part[0]| < |SCHEMA|;
    if ReadRecords(schemas, [part], true, |records|, doubles).complete {
      ConfirmedEnds(schemas, [part], true, |records|, doubles);
    }
    ReadFileRows(list, records, [part], true, sizeofValue, doubles);
    Assoc([HEADER] + SchemaRows(list), RecordRows(records, doubles), [part]);
  }
}
