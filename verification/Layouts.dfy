/** The files as they stand on disk: every number, tag and word of the formats in its place. */
module Layouts {
  import opened Basics
  import opened Bytes
  import Crc32
  import opened Values
  import opened Records
  import F = PsrecFormat
  import PsrecLaws
  import CsvRows
  import RecordCsv

  // ---------------------------------------------------------------- numbers

  /** Byte `i` of a little-endian number is its digit of weight 256 to the i. */
  lemma {:induction false} LowFirst(width: nat, value: nat, i: nat)
    requires i < width
    ensures LittleEndian(width, value)[i] as nat == value / Pow256(i) % 256
    decreases width
  {
    if i > 0 {
      LowFirst(width - 1, value / 256, i - 1);
      DivideTwice(value, Pow256(i - 1));
    }
  }

  lemma DivideTwice(value: nat, p: nat)
    requires p > 0
    ensures 256 * p > 0 && value / 256 / p == value / (256 * p)
  {
    var q, r := value / 256 / p, value / 256 % p;
    assert value / 256 == q * p + r;
    var low := value % 256;
    assert value == 256 * (q * p + r) + low;
    var rest := 256 * r + low;
    assert rest < 256 * p;
    QuotientIs(value, 256 * p, q, rest);
  }

  lemma QuotientIs(value: nat, d: nat, q: nat, rest: nat)
    requires d > 0 && rest < d && value == d * q + rest
    ensures value / d == q
  {
    var k := value / d;
    if k > q {
      TimesLarger(d, q + 1, k);
    } else if k < q {
      TimesLarger(d, k + 1, q);
    }
  }

  lemma TimesLarger(d: nat, a: nat, b: nat)
    requires a <= b
    ensures d * a <= d * b
  {
  }

  // ---------------------------------------------------------------- values

  /** Scalars: the tag, then nothing, eight bytes, a flag, or a size and the bytes themselves. */
  lemma ScalarLayout(v: Value)
    requires IsScalar(v)
    ensures v.Null? ==> Form(v) == [0]
    ensures v.Int? ==>
      |Form(v)| == 9 && Form(v)[0] == 1
      && Number(Form(v)[1..]) == if v.number >= 0 then v.number else v.number + 0x1_0000_0000_0000_0000
    ensures v.Double? ==> |Form(v)| == 9 && Form(v)[0] == 2 && Number(Form(v)[1..]) == v.bits
    ensures v.Bool? ==> Form(v) == [3, if v.truth then 1 else 0]
    ensures v.Text? && |v.text| < TWO_64 ==>
      Form(v)[0] == 4 && |Form(v)| == 9 + |v.text| && Number(Form(v)[1..9]) == |v.text| && Form(v)[9..] == v.text
    ensures v.Blob? && |v.bytes| < TWO_64 ==>
      Form(v)[0] == 5 && |Form(v)| == 9 + |v.bytes| && Number(Form(v)[1..9]) == |v.bytes| && Form(v)[9..] == v.bytes
  {
    hide LittleEndian, Number;
    match v
    case Int(i) =>
      Word64(ToUnsigned(i), LittleEndian(8, 0));
      assert Form(v)[1..] == LittleEndian(8, ToUnsigned(i));
    case Double(bits) =>
      Word64(bits, LittleEndian(8, 0));
      assert Form(v)[1..] == LittleEndian(8, bits);
    case Text(text) => SizedLayout(4, text);
    case Blob(bytes) => SizedLayout(5, bytes);
    case _ =>
  }

  lemma SizedLayout(tag: byte, s: seq<byte>)
    ensures var form := [tag] + Sized(s);
      |form| == 9 + |s| && form[9..] == s && (|s| < TWO_64 ==> Number(form[1..9]) == |s|)
  {
    hide Number, LittleEndian;
    var form := [tag] + Sized(s);
    assert form[1..9] == LittleEndian(8, |s|);
    if |s| < TWO_64 {
      Word64(|s|, form[1..9]);
    }
  }

  /** Lists and objects: the tag, the number of entries, and the entries one after the other, of an object with the
    * sized key before each value. */
  lemma ContainerLayout(items: seq<Value>, entries: seq<Entry>)
    requires |items| < TWO_64 && |entries| < TWO_64
    ensures var form := Form(Array(items));
      form[0] == 6 && |form| >= 9 && Number(form[1..9]) == |items| && form[9..] == FormOfItems(items)
    ensures items != [] ==> FormOfItems(items) == Form(items[0]) + FormOfItems(items[1..])
    ensures var form := Form(Object(entries));
      form[0] == 7 && |form| >= 9 && Number(form[1..9]) == |entries| && form[9..] == FormOfEntries(entries)
    ensures entries != [] ==>
      FormOfEntries(entries) == Form(Text(entries[0].key))[1..] + Form(entries[0].value) + FormOfEntries(entries[1..])
  {
    hide Number, LittleEndian;
    Word64(|items|, LittleEndian(8, 0));
    Word64(|entries|, LittleEndian(8, 0));
    assert FormBody(Array(items)) == LittleEndian(8, |items|) + FormOfItems(items);
    assert FormBody(Object(entries)) == LittleEndian(8, |entries|) + FormOfEntries(entries);
    var list, tree := Form(Array(items)), Form(Object(entries));
    assert list == [6] + (LittleEndian(8, |items|) + FormOfItems(items));
    assert list[1..9] == LittleEndian(8, |items|);
    assert tree == [7] + (LittleEndian(8, |entries|) + FormOfEntries(entries));
    assert tree[1..9] == LittleEndian(8, |entries|);
    if entries != [] {
      assert Form(Text(entries[0].key))[1..] == Sized(entries[0].key);
    }
  }

  /** A null inside `k` lists. */
  function Nested(k: nat): Value {
    if k == 0 then Null else Array([Nested(k - 1)])
  }

  /** Such a value has as many levels below its top as lists, and one node more. */
  lemma {:induction false} NestedCosts(k: nat, room: nat)
    ensures Shallow(Nested(k), room) <==> k <= room
    ensures Nodes(Nested(k)) == k + 1
    ensures |Form(Nested(k))| == 9 * k + 1
  {
    if k > 0 {
      var items := [Nested(k - 1)];
      assert items[1..] == [];
      NestedCosts(k - 1, if room > 0 then room - 1 else 0);
      assert Form(Nested(k)) == [6] + FormBody(Array(items));
      assert FormBody(Array(items)) == LittleEndian(8, 1) + FormOfItems(items);
      assert FormOfItems(items) == Form(items[0]) + FormOfItems(items[1..]);
      assert NodesOfItems(items) == Nodes(items[0]) + NodesOfItems(items[1..]);
      assert ShallowItems(items, room - 1) == (Shallow(items[0], room - 1) && ShallowItems(items[1..], room - 1));
    }
  }

  /** The fields of a record and of a schema stand in this order. */
  lemma TreeLayout(record: Record, schema: Schema)
    ensures RecordValue(record).Some? ==>
      var items := RecordValue(record).value.items;
      && |items| == 7
      && items[0] == Text(record.protocol) && items[1] == Text(record.dataset) && items[2] == Text(record.device)
      && items[3] == Int(record.receivedAtUs)
      && items[4] == (if record.deviceTimeUs.Some? then Int(record.deviceTimeUs.value) else Null)
      && items[5] == Int(record.schemaVersion) && items[6] == Array(record.values)
    ensures SchemaTree(schema).items[0] == Text(schema.dataset)
    ensures forall i :: 0 <= i < |schema.fields| ==>
      var f := schema.fields[i];
      SchemaTree(schema).items[1].items[i]
      == Array([Text(f.name),
                Int(match f.kind case Int64Type => 1 case DoubleType => 2 case BoolType => 3 case StringType => 4 case BytesType => 5),
                Bool(f.nullable)])
  {
    FieldsLayout(schema.fields);
  }

  lemma {:induction false} FieldsLayout(fields: seq<Field>)
    ensures forall i :: 0 <= i < |fields| ==> FieldValues(fields)[i] == Records.FieldValue(fields[i])
  {
    hide Records.FieldValue;
    if fields != [] {
      FieldsLayout(fields[1..]);
    }
  }

  // ---------------------------------------------------------------- the record container

  /** A block: kind, size and sequence number, the payload, and the checksum of all before it. */
  lemma BlockLayout(kind: nat, sequence: u64, payload: seq<byte>)
    requires kind < 0x1_0000_0000 && |payload| < 0x1_0000_0000
    ensures var b, n := F.BlockForm(kind, sequence, payload), |payload|;
      && |b| == 20 + n && Number(b[..4]) == kind && Number(b[4..8]) == n && Number(b[8..16]) == sequence
      && b[16..16 + n] == payload && Number(b[16 + n..]) == Crc32.Checksum(b[..16 + n])
  {
    hide LittleEndian, Number, Crc32.Checksum, F.BlockPrefix;
    var b, n := F.BlockForm(kind, sequence, payload), |payload|;
    var covered := F.BlockPrefix(kind, sequence, n) + payload;
    var stored := LittleEndian(4, Crc32.Checksum(covered));
    F.PrefixParts(kind, sequence, n, payload + stored);
    assert b == F.BlockPrefix(kind, sequence, n) + (payload + stored);
    assert b[..16 + n] == covered && b[16 + n..] == stored && b[16..16 + n] == payload;
    Widths();
    NumberOfLittleEndian(4, Crc32.Checksum(covered));
  }

  /** A file: twelve bytes, a block of kind 1 with the schemas, one of kind 2 for each record, and one of kind 3 with
    * their number; the blocks are numbered from 0. */
  lemma FileLayout(list: seq<F.Versioned>, records: seq<Record>)
    ensures PsrecLaws.FileForm(list, records)
      == [0x50, 0x53, 0x52, 0x45, 0x43, 0x0D, 0x0A, 0x1A, 1, 0, 0, 0]
         + F.BlockForm(1, 0, Form(Array(F.EntryValues(list)))) + RecordBlocks(records, 0)
         + F.BlockForm(3, |records| + 1, LittleEndian(8, |records|))
  {
    hide F.BlockForm, LittleEndian, Form;
    BodyLayout(records, 0);
    var head := F.HeadForm(list);
    assert head + (RecordBlocks(records, 0) + F.BlockForm(3, |records| + 1, LittleEndian(8, |records|)))
      == head + RecordBlocks(records, 0) + F.BlockForm(3, |records| + 1, LittleEndian(8, |records|));
  }

  function RecordBlocks(records: seq<Record>, count: nat): seq<byte> {
    if records == [] then []
    else F.BlockForm(2, count + 1, F.Payload(records[0])) + RecordBlocks(records[1..], count + 1)
  }

  lemma {:induction false} BodyLayout(records: seq<Record>, count: nat)
    ensures F.BodyForm(records, count)
      == RecordBlocks(records, count) + F.BlockForm(3, count + |records| + 1, LittleEndian(8, count + |records|))
    decreases |records|
  {
    hide F.BlockForm, LittleEndian, F.Payload;
    var end := F.BlockForm(3, count + |records| + 1, LittleEndian(8, count + |records|));
    if records == [] {
      assert [] + end == end;
    } else {
      BodyLayout(records[1..], count + 1);
      var first := F.BlockForm(2, count + 1, F.Payload(records[0]));
      var more := RecordBlocks(records[1..], count + 1);
      assert first + (more + end) == first + more + end;
    }
  }

  /** The limits of the formats. */
  lemma FormatLimits()
    ensures F.LIMITS == Limits(33554432, 16, 131072)
    ensures CsvRows.ROW_BYTES == 33554432 && CsvRows.ROW_FIELDS == 4096 && RecordCsv.MAX_BLOB == 16777216
  {
  }

  // ---------------------------------------------------------------- rows of text

  /** The bytes of a plain text. */
  function Ascii(s: string): (t: CsvRows.Text)
    requires forall i :: 0 <= i < |s| ==> s[i] as int < 128
    ensures |t| == |s| && forall i :: 0 <= i < |t| ==> t[i] as int == s[i] as int
  {
    seq(|s|, i requires 0 <= i < |s| => s[i] as int as byte)
  }

  /** Fields are parted by commas, quoted where they must be, quotes doubled, and the row ends in a line feed. */
  lemma RowLayout()
    ensures CsvRows.RowForm([Ascii("a"), Ascii("b,c"), Ascii("\""), [], Ascii("#")])
      == Ascii("a,\"b,c\",\"\"\"\",,\"#\"\n")
  {
    var a, b, q, h := Ascii("a"), Ascii("b,c"), Ascii("\""), Ascii("#");
    FieldLayout(a, b, q, h);
    hide CsvRows.Escaped, CsvRows.Joined, Ascii;
    JoinedFirst(h, []);
    assert [h] + [] == [h];
    var four := [[]] + [h];
    JoinedFirst([], [h]);
    var three := [q] + four;
    JoinedFirst(q, four);
    var two := [b] + three;
    JoinedFirst(b, three);
    JoinedFirst(a, two);
    assert [a] + two == [a, b, q, [], h];
    RowBytes();
  }

  lemma RowBytes()
    ensures var comma: CsvRows.Text := [44];
      [97] + (comma + ([34, 98, 44, 99, 34] + (comma + ([34, 34, 34, 34] + (comma + ([] + (comma + [34, 35, 34]))))))) + [10]
      == Ascii("a,\"b,c\",\"\"\"\",,\"#\"\n")
  {
    var comma: CsvRows.Text := [44];
    var four := comma + [34, 35, 34];
    assert four == [44, 34, 35, 34] && [] + four == four;
    var three := [34, 34, 34, 34] + (comma + four);
    assert three == [34, 34, 34, 34, 44, 44, 34, 35, 34];
    var two := [34, 98, 44, 99, 34] + (comma + three);
    assert two == [34, 98, 44, 99, 34, 44, 34, 34, 34, 34, 44, 44, 34, 35, 34];
  }

  lemma FieldLayout(a: CsvRows.Text, b: CsvRows.Text, q: CsvRows.Text, h: CsvRows.Text)
    requires a == Ascii("a") && b == Ascii("b,c") && q == Ascii("\"") && h == Ascii("#")
    ensures CsvRows.Escaped(a) == [97] && CsvRows.Escaped([]) == [] && CsvRows.Escaped(b) == [34, 98, 44, 99, 34]
    ensures CsvRows.Escaped(q) == [34, 34, 34, 34] && CsvRows.Escaped(h) == [34, 35, 34]
  {
    assert a == [97] && b == [98, 44, 99] && q == [34] && h == [35];
    assert CsvRows.Plain(a) && CsvRows.Plain([]);
    assert !CsvRows.Plain(b) && !CsvRows.Plain(q) && !CsvRows.Plain(h) by {
      assert CsvRows.Special(b[1]) && CsvRows.Special(q[0]) && CsvRows.Special(h[0]);
    }
    NoQuotes(b);
    NoQuotes(h);
    assert q[1..] == [] && CsvRows.Doubled(q) == [34, 34];
  }

  lemma JoinedFirst(f: CsvRows.Text, rest: seq<CsvRows.Text>)
    ensures CsvRows.Joined([f] + rest)
      == CsvRows.Escaped(f) + if rest == [] then [] else [CsvRows.COMMA] + CsvRows.Joined(rest)
  {
    assert ([f] + rest)[1..] == rest;
  }

  lemma {:induction false} NoQuotes(field: CsvRows.Text)
    requires forall i :: 0 <= i < |field| ==> field[i] != 34
    ensures CsvRows.Doubled(field) == field
  {
    if field != [] {
      NoQuotes(field[1..]);
    }
  }

  // ---------------------------------------------------------------- the record file

  function TypeWord(kind: FieldType): string {
    match kind
    case Int64Type => "int64"
    case DoubleType => "double"
    case BoolType => "bool"
    case StringType => "string"
    case BytesType => "bytes"
  }

  lemma Words()
    ensures RecordCsv.TITLE == Ascii("protoscope_csv") && RecordCsv.SCHEMA == Ascii("schema")
    ensures RecordCsv.RECORD == Ascii("record") && RecordCsv.END == Ascii("end")
    ensures RecordCsv.TRUE_TEXT == Ascii("true") && RecordCsv.FALSE_TEXT == Ascii("false")
  {
  }

  lemma TypeWords(kind: FieldType)
    ensures RecordCsv.TypeName(kind) == Ascii(TypeWord(kind))
  {
  }

  /** Three cells of the row, from `at` on, are those of the field. */
  predicate HasField(row: seq<CsvRows.Text>, at: nat, f: Field) {
    && at + 2 < |row| && row[at] == f.name && row[at + 1] == Ascii(TypeWord(f.kind))
    && row[at + 2] == if f.nullable then Ascii("true") else Ascii("false")
  }

  /** The header, the row of a schema with three cells for each field, the row of a record, and the last row. */
  lemma RecordFileLayout(v: F.Versioned, record: Record, texts: seq<CsvRows.Text>, count: nat, doubles: RecordCsv.DoubleText)
    requires RecordCsv.ScalarTexts(record.values, doubles) == Some(texts)
    ensures RecordCsv.HEADER == [Ascii("protoscope_csv"), Ascii("1")]
    ensures var row := RecordCsv.SchemaRow(v);
      && |row| == 3 + 3 * |v.schema.fields|
      && row[..3] == [Ascii("schema"), RecordCsv.Decimal(v.version), v.schema.dataset]
      && forall i :: 0 <= i < |v.schema.fields| ==> HasField(row, 3 + 3 * i, v.schema.fields[i])
    ensures RecordCsv.RecordRow(record, doubles)
      == [Ascii("record"), record.protocol, record.dataset, record.device, RecordCsv.Signed(record.receivedAtUs),
          if record.deviceTimeUs.Some? then RecordCsv.Signed(record.deviceTimeUs.value) else [],
          RecordCsv.Decimal(record.schemaVersion)] + texts
    ensures RecordCsv.EndCells(count) == [Ascii("end"), RecordCsv.Decimal(count)]
  {
    hide RecordCsv.Decimal, RecordCsv.Signed, RecordCsv.FieldCells, HasField;
    Words();
    assert Ascii("1") == [49];
    var fields := v.schema.fields;
    FieldCellsCount(fields);
    forall i | 0 <= i < |fields|
      ensures HasField(RecordCsv.SchemaRow(v), 3 + 3 * i, fields[i])
    {
      FieldCellsAt(fields, i);
      Behind(RecordCsv.SchemaRow(v)[..3], RecordCsv.FieldCells(fields), 3 * i, fields[i]);
    }
  }

  lemma Behind(front: seq<CsvRows.Text>, cells: seq<CsvRows.Text>, at: nat, f: Field)
    ensures HasField(front + cells, |front| + at, f) == HasField(cells, at, f)
  {
    hide Ascii;
  }

  lemma {:induction false} FieldCellsCount(fields: seq<Field>)
    ensures |RecordCsv.FieldCells(fields)| == 3 * |fields|
  {
    hide RecordCsv.TypeName;
    if fields != [] {
      FieldCellsCount(fields[1..]);
    }
  }

  lemma {:induction false} FieldCellsAt(fields: seq<Field>, i: nat)
    requires i < |fields|
    ensures HasField(RecordCsv.FieldCells(fields), 3 * i, fields[i])
  {
    hide Ascii, TypeWord, RecordCsv.TypeName;
    FieldCellsCount(fields);
    var front := RecordCsv.FieldCells(fields)[..3];
    assert RecordCsv.FieldCells(fields) == front + RecordCsv.FieldCells(fields[1..]);
    if i == 0 {
      Words();
      TypeWords(fields[0].kind);
    } else {
      FieldCellsAt(fields[1..], i - 1);
      Behind(front, RecordCsv.FieldCells(fields[1..]), 3 * (i - 1), fields[i]);
    }
  }

  /** The text of a value: a letter for its type, a colon, and the value. */
  lemma ValueLayout(v: Value, doubles: RecordCsv.DoubleText)
    requires RecordCsv.ScalarText(v, doubles).Some?
    ensures var text := RecordCsv.ScalarText(v, doubles).value;
      && (v.Null? ==> text == Ascii("n:"))
      && (v.Int? ==> text == Ascii("i:") + RecordCsv.Signed(v.number))
      && (v.Double? ==> text == Ascii("d:") + doubles.show(v.bits))
      && (v.Bool? ==> text == if v.truth then Ascii("b:true") else Ascii("b:false"))
      && (v.Text? ==> text == Ascii("s:") + v.text)
      && (v.Blob? ==> text == Ascii("x:") + RecordCsv.Hex(v.bytes))
  {
    hide RecordCsv.Signed, RecordCsv.Hex;
    assert Ascii("n:") == [110, 58] && Ascii("i:") == [105, 58] && Ascii("d:") == [100, 58];
    assert Ascii("s:") == [115, 58] && Ascii("x:") == [120, 58];
    assert Ascii("b:true") == [98, 58] + Ascii("true") && Ascii("b:false") == [98, 58] + Ascii("false");
    Words();
  }

  /** Bytes are written with the digits 0 to 9 and A to F, the high half first. */
  lemma HexLayout(b: byte, rest: seq<byte>)
    ensures var text, digits := RecordCsv.Hex([b] + rest), Ascii("0123456789ABCDEF");
      text[0] == digits[b as nat / 16] && text[1] == digits[b as nat % 16] && text[2..] == RecordCsv.Hex(rest)
  {
    assert ([b] + rest)[1..] == rest;
  }

  /** Decimal numbers have no sign, no zero in front, and their last digit last. */
  lemma DecimalLayout(n: nat)
    ensures n < 10 ==> RecordCsv.Decimal(n) == [Ascii("0123456789")[n]]
    ensures n >= 10 ==>
      RecordCsv.Decimal(n) == RecordCsv.Decimal(n / 10) + [Ascii("0123456789")[n % 10]] && n / 10 > 0
    ensures RecordCsv.Signed(n) == RecordCsv.Decimal(n)
    ensures n > 0 ==> RecordCsv.Signed(0 - n as int) == Ascii("-") + RecordCsv.Decimal(n)
  {
    Digit(n % 10);
    assert Ascii("-") == [45];
    hide Ascii;
  }

  lemma Digit(n: nat)
    requires n < 10
    ensures Ascii("0123456789")[n] == 48 + n as byte
  {
    assert Ascii("0123456789")[n] as int == "0123456789"[n] as int;
  }
}
