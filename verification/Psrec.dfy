/**
 The writer and reader objects of the record exchange file. The output stream is a byte
 sequence that only grows, the input stream the bytes still unread; a thrown exception is
 the outcome `Thrown`.
 */
module Psrec {
  import opened Basics
  import opened Bytes
  import opened Crc32
  import opened Values
  import opened ValueCodec
  import opened Records
  import opened PsrecFormat
  import PsrecLaws

  /** The checksum over prefix and payload, taken in two chained calls. */
  method ComputeChecksum(table: seq<Word>, prefix: seq<byte>, payload: seq<byte>) returns (checksum: nat)
    requires IsTable(table)
    ensures checksum == Checksum(prefix + payload)
  {
    var register := Update(table, ALL_ONES, prefix);
    register := Update(table, register, payload);
    Chains(ALL_ONES, prefix, payload);
    checksum := FromBits(Xor(register, ALL_ONES));
  }

  method WriteBlock(table: seq<Word>, kind: nat, sequence: nat, payload: seq<byte>) returns (ok: bool, block: seq<byte>)
    requires IsTable(table)
    ensures ok <==> |payload| <= LIMITS.maxBytes
    ensures ok ==> block == BlockForm(kind, sequence, payload)
  {
    if |payload| > LIMITS.maxBytes {
      return false, [];
    }
    var kindBytes := Put(4, kind);
    var sizeBytes := Put(4, |payload|);
    var sequenceBytes := Put(8, sequence);
    var prefix := kindBytes + sizeBytes + sequenceBytes;
    var checksum := ComputeChecksum(table, prefix, payload);
    var checksumBytes := Put(4, checksum);
    ok, block := true, prefix + payload + checksumBytes;
  }

  method WriteEnd(table: seq<Word>, count: nat) returns (block: seq<byte>)
    requires IsTable(table)
    ensures block == EndBlock(count)
  {
    var payload := Put(8, count);
    var written;
    written, block := WriteBlock(table, END_BLOCK, count + 1, payload);
  }

  method TakeBlock(table: seq<Word>, input: seq<byte>, sequence: nat) returns (block: Option<Block>)
    requires IsTable(table)
    ensures block == ReadBlock(input, sequence)
  {
    hide Number, IsTable, Checksum;
    if |input| < 16 {
      return None;
    }
    var prefix := input[..16];
    var kind := Get(prefix[..4]);
    var size := Get(prefix[4..8]);
    var found := Get(prefix[8..]);
    assert prefix[..4] == input[..4] && prefix[4..8] == input[4..8] && prefix[8..] == input[8..16];
    if found != sequence || size > LIMITS.maxBytes || kind < METADATA_BLOCK || kind > END_BLOCK {
      return None;
    }
    if |input| < 16 + size {
      return None;
    }
    var payload := input[16..16 + size];
    if |input| < 20 + size {
      return None;
    }
    var stored := Get(input[16 + size..20 + size]);
    var checksum := ComputeChecksum(table, prefix, payload);
    assert prefix + payload == input[..16 + size];
    if stored != checksum {
      return None;
    }
    block := Some(Block(kind, payload, input[20 + size..]));
  }

  // ----- the metadata payload -----

  lemma ConsCost(head: Value, tail: seq<Value>, room: int)
    ensures FiniteItems([head] + tail) <==> Finite(head) && FiniteItems(tail)
    ensures ShallowItems([head] + tail, room) <==> Shallow(head, room) && ShallowItems(tail, room)
    ensures NodesOfItems([head] + tail) == Nodes(head) + NodesOfItems(tail)
    ensures |FormOfItems([head] + tail)| == |Form(head)| + |FormOfItems(tail)|
  {
    hide Finite, Shallow, Nodes, Form;
    assert ([head] + tail)[1..] == tail;
  }

  lemma PairCost(a: Value, b: Value, room: int)
    ensures FiniteItems([a, b]) <==> Finite(a) && Finite(b)
    ensures ShallowItems([a, b], room) <==> Shallow(a, room) && Shallow(b, room)
    ensures NodesOfItems([a, b]) == Nodes(a) + Nodes(b)
    ensures |FormOfItems([a, b])| == |Form(a)| + |Form(b)|
  {
    hide Finite, Shallow, Nodes, Form;
    assert [a, b] == [a] + [b] && [b] == [b] + [];
    ConsCost(a, [b], room);
    ConsCost(b, [], room);
  }

  lemma {:induction false} FieldValuesCost(fields: seq<Field>)
    ensures FiniteItems(FieldValues(fields)) && ShallowItems(FieldValues(fields), 14)
  {
    if fields != [] {
      FieldValuesCost(fields[1..]);
      var items := FieldValue(fields[0]).items;
      assert items == [items[0]] + [items[1], items[2]];
      ConsCost(items[0], [items[1], items[2]], 13);
      PairCost(items[1], items[2], 13);
    }
  }

  lemma SchemaTreeCost(schema: Schema)
    ensures Finite(SchemaTree(schema)) && Shallow(SchemaTree(schema), 16)
  {
    FieldValuesCost(schema.fields);
    PairCost(SchemaTree(schema).items[0], SchemaTree(schema).items[1], 15);
  }

  /** The bytes of the schemas alone. */
  function SchemaBytes(list: seq<Versioned>): nat {
    if list == [] then 0 else |Form(SchemaTree(list[0].schema))| + SchemaBytes(list[1..])
  }

  /** An entry costs at least what its schema costs, and the whole at least the sum of its parts. */
  lemma {:induction false} EntriesCost(list: seq<Versioned>)
    ensures SchemaBytes(list) <= |FormOfItems(EntryValues(list))|
    ensures forall i :: 0 <= i < |list| ==>
      Nodes(SchemaTree(list[i].schema)) <= NodesOfItems(EntryValues(list))
  {
    if list != [] {
      hide SchemaTree, LittleEndian;
      var items := EntryValue(list[0]).items;
      PairCost(items[0], items[1], 0);
      WholeCost(items);
      EntriesCost(list[1..]);
      assert EntryValues(list)[1..] == EntryValues(list[1..]);
    }
  }

  /** A schema the loop refuses for its size cannot be part of an encodable whole. */
  lemma RefusedForSize(list: seq<Versioned>, i: nat, budget: nat)
    requires i < |list| && budget - SchemaBytes(list[i..]) == LIMITS.maxBytes - SchemaBytes(list)
    requires var tree := SchemaTree(list[i].schema); !Encodable(tree, LIMITS) || |Form(tree)| > budget
    ensures !WritableSchemas(list)
  {
    hide SchemaTree, EntryValues, FieldTotal, ValidVersioned, FormOfItems, Finite, Shallow, NodesOfItems;
    SchemaTreeCost(list[i].schema);
    EntriesCost(list);
    SchemaBytesFrom(list, i);
    assert list[i..][0] == list[i];
    WholeCost(EntryValues(list));
  }

  lemma WholeCost(items: seq<Value>)
    ensures Nodes(Array(items)) > NodesOfItems(items) && |Form(Array(items))| > |FormOfItems(items)|
  {
    hide FormOfItems, NodesOfItems, LittleEndian;
  }

  lemma {:induction false} SchemaBytesFrom(list: seq<Versioned>, i: nat)
    requires i <= |list|
    ensures SchemaBytes(list[i..]) <= SchemaBytes(list)
  {
    if i > 0 {
      assert list[1..][i - 1..] == list[i..];
      SchemaBytesFrom(list[1..], i - 1);
    }
  }

  /** `metadata`: the per-schema budget checks of the loop refuse nothing the final encoding would accept. */
  method Metadata(list: seq<Versioned>) returns (ok: bool, payload: seq<byte>)
    ensures ok <==> WritableSchemas(list)
    ensures ok ==> payload == Form(Array(EntryValues(list)))
  {
    hide SchemaTree, Encodable, Form, ValidSchema, SchemaBytes, FieldTotal, EntryValues;
    ok, payload := false, [];
    if |list| > 1024 {
      return;
    }
    var result: seq<Value>, budget, fields := [], LIMITS.maxBytes, 0;
    FromStart(list);
    var i := 0;
    while i < |list|
      invariant 0 <= i <= |list|
      invariant forall k :: 0 <= k < i ==> ValidVersioned(list[k])
      invariant result + EntryValues(list[i..]) == EntryValues(list)
      invariant fields <= 16384 && fields + FieldTotal(list[i..]) == FieldTotal(list)
      invariant 0 <= budget && budget - SchemaBytes(list[i..]) == LIMITS.maxBytes - SchemaBytes(list)
    {
      var v := list[i];
      OneEntry(list, i, result);
      if v.version == 0 || v.version >= TWO_63 {
        return;
      }
      fields := fields + |v.schema.fields|;
      if fields > 16384 || !ValidSchema(v.schema) {
        return;
      }
      var encoded, form := EncodeValue(SchemaTree(v.schema), LIMITS);
      if !encoded || |form| > budget {
        RefusedForSize(list, i, budget);
        return;
      }
      budget := budget - |form|;
      result := result + [EntryValue(v)];
      i := i + 1;
    }
    assert result + [] == result;
    ok, payload := EncodeValue(Array(result), LIMITS);
  }

  lemma FromStart(list: seq<Versioned>)
    ensures list[0..] == list && [] + EntryValues(list) == EntryValues(list)
    ensures EntryValues(list[|list|..]) == [] && FieldTotal(list[|list|..]) == 0
  {
  }

  /** What one schema adds. */
  lemma OneEntry(list: seq<Versioned>, i: nat, result: seq<Value>)
    requires i < |list|
    ensures result + EntryValues(list[i..]) == result + [EntryValue(list[i])] + EntryValues(list[i + 1..])
    ensures FieldTotal(list[i..]) == |list[i].schema.fields| + FieldTotal(list[i + 1..])
    ensures SchemaBytes(list[i..]) == |Form(SchemaTree(list[i].schema))| + SchemaBytes(list[i + 1..])
  {
    hide Form, SchemaTree;
    assert list[i..][0] == list[i] && list[i..][1..] == list[i + 1..];
  }

  /** The record blocks written so far. */
  ghost function RecordBlocks(records: seq<Record>): seq<byte> {
    if records == [] then []
    else RecordBlocks(records[..|records| - 1]) + RecordBlock(records[|records| - 1], |records|)
  }

  lemma Assoc(a: seq<byte>, b: seq<byte>, c: seq<byte>)
    ensures a + b + c == a + (b + c)
  {
  }

  lemma RecordBlocksSnoc(records: seq<Record>, r: Record)
    ensures RecordBlocks(records + [r]) == RecordBlocks(records) + RecordBlock(r, |records| + 1)
  {
    hide RecordBlock;
    assert (records + [r])[..|records|] == records;
  }

  lemma {:induction false} BlocksThenBody(done: seq<Record>, more: seq<Record>)
    ensures RecordBlocks(done) + BodyForm(more, |done|) == RecordBlocks(done + more) + EndBlock(|done| + |more|)
    decreases |more|
  {
    hide RecordBlock, EndBlock, RecordBlocks;
    if more == [] {
      assert done + more == done;
    } else {
      var r := more[0];
      RecordBlocksSnoc(done, r);
      assert done + [r] + more[1..] == done + more;
      Assoc(RecordBlocks(done), RecordBlock(r, |done| + 1), BodyForm(more[1..], |done| + 1));
      BlocksThenBody(done + [r], more[1..]);
    }
  }

  lemma BodySplits(records: seq<Record>)
    ensures BodyForm(records, 0) == RecordBlocks(records) + EndBlock(|records|)
  {
    hide BodyForm, EndBlock, RecordBlock;
    BlocksThenBody([], records);
    assert [] + records == records;
    assert RecordBlocks([]) + BodyForm(records, 0) == BodyForm(records, 0);
  }

  /** The stream of a writer that has accepted `records`. */
  ghost function Written(schemas: seq<Versioned>, records: seq<Record>, finished: bool): seq<byte> {
    if finished then PsrecLaws.FileForm(schemas, records) else HeadForm(schemas) + RecordBlocks(records)
  }

  lemma WrittenReads(schemas: seq<Versioned>, records: seq<Record>, sizeofValue: nat)
    requires WritableSchemas(schemas) && AscendingVersions(schemas) && |records| < TWO_64 - 1
    requires forall i :: 0 <= i < |records| ==> WritableRecord(SchemaMap(schemas), records[i], sizeofValue)
    ensures ReadFile(Written(schemas, records, true)) == Some((SchemaMap(schemas), records))
  {
    hide ReadFile, PsrecLaws.FileForm, WritableRecord, WritableSchemas, SchemaMap;
    PsrecLaws.FileRoundTrip(schemas, records, sizeofValue);
  }

  lemma WrittenGrows(schemas: seq<Versioned>, records: seq<Record>, record: Record)
    ensures Written(schemas, records + [record], false)
         == Written(schemas, records, false) + RecordBlock(record, |records| + 1)
  {
    hide RecordBlock, RecordBlocks, HeadForm;
    RecordBlocksSnoc(records, record);
    Assoc(HeadForm(schemas), RecordBlocks(records), RecordBlock(record, |records| + 1));
  }

  lemma WrittenEnds(schemas: seq<Versioned>, records: seq<Record>)
    ensures Written(schemas, records, true) == Written(schemas, records, false) + EndBlock(|records|)
  {
    hide HeadForm, RecordBlocks, EndBlock, BodyForm;
    BodySplits(records);
    Assoc(HeadForm(schemas), RecordBlocks(records), EndBlock(|records|));
  }

  class PsrecWriter {
    var stream: seq<byte>
    var schemas: seq<Versioned>
    var count: nat
    var finished: bool
    var failed: bool
    const table: seq<Word>
    const sizeofValue: nat
    ghost var records: seq<Record>

    ghost predicate Valid()
      reads this
    {
      && IsTable(table)
      && WritableSchemas(schemas) && AscendingVersions(schemas)
      && count == |records| < TWO_64 - 1
      && (forall i :: 0 <= i < |records| ==> WritableRecord(SchemaMap(schemas), records[i], sizeofValue))
      && stream == Written(schemas, records, finished)
    }

    /** The object after the constructor body has run; `Create` below does the part that may throw. */
    constructor (head: seq<byte>, schemas: seq<Versioned>, table: seq<Word>, sizeofValue: nat)
      requires IsTable(table) && WritableSchemas(schemas) && AscendingVersions(schemas) && head == HeadForm(schemas)
      ensures Valid() && this.schemas == schemas && records == [] && !finished && !failed
      ensures this.sizeofValue == sizeofValue
    {
      stream, this.schemas, this.table, this.sizeofValue := head, schemas, table, sizeofValue;
      count, finished, failed, records := 0, false, false, [];
    }

    static method Create(schemas: seq<Versioned>, sizeofValue: nat) returns (writer: PsrecWriter?)
      requires AscendingVersions(schemas)
      ensures writer != null <==> WritableSchemas(schemas)
      ensures writer != null ==>
        && fresh(writer) && writer.Valid() && writer.schemas == schemas && writer.sizeofValue == sizeofValue
        && writer.records == [] && !writer.finished && !writer.failed
    {
      writer := null;
      var table := BuildTable();
      var ok, payload := Metadata(schemas);
      if ok {
        var written, block := WriteBlock(table, METADATA_BLOCK, 0, payload);
        if written {
          writer := new PsrecWriter(SIGNATURE + block, schemas, table, sizeofValue);
        }
      }
    }

    /** The lookup of a version in the key-ordered map. */
    method Find(version: u64) returns (schema: Option<Schema>)
      requires AscendingVersions(schemas)
      ensures schema == if version in SchemaMap(schemas) then Some(SchemaMap(schemas)[version]) else None
    {
      schema := None;
      var i := 0;
      while i < |schemas|
        invariant 0 <= i <= |schemas|
        invariant schema == if version in SchemaMap(schemas[..i]) then Some(SchemaMap(schemas[..i])[version]) else None
      {
        assert schemas[..i + 1][..i] == schemas[..i];
        if schemas[i].version == version {
          schema := Some(schemas[i].schema);
        }
        i := i + 1;
      }
      assert schemas[..i] == schemas;
    }

    method MemoryFits(values: seq<Value>) returns (fits: bool)
      ensures fits <==> MemoryCost(values, sizeofValue) <= LIMITS.maxBytes
    {
      var budget: int, i := LIMITS.maxBytes, 0;
      while i < |values|
        invariant 0 <= i <= |values|
        invariant 0 <= budget
        invariant budget - MemoryCost(values[i..], sizeofValue) == LIMITS.maxBytes - MemoryCost(values, sizeofValue)
      {
        assert values[i..][0] == values[i] && values[i..][1..] == values[i + 1..];
        var size := match values[i] case Text(text) => |text| case Blob(bytes) => |bytes| case _ => sizeofValue;
        if size > budget {
          return false;
        }
        budget := budget - size;
        i := i + 1;
      }
      fits := true;
    }

    /** Accepts exactly the writable records and appends one block; a refused record writes nothing and
        closes the writer for good. */
    method Append(record: Record) returns (ok: bool)
      requires Valid()
      modifies this
      ensures Valid() && schemas == old(schemas) && finished == old(finished)
      ensures ok <==>
        && !old(failed) && !old(finished)
        && WritableRecord(SchemaMap(schemas), record, sizeofValue) && old(count) != TWO_64 - 2
      ensures ok ==> records == old(records) + [record] && !failed
      ensures !ok ==> records == old(records) && stream == old(stream) && failed == (old(failed) || !finished)
    {
      hide Written, BlockForm, Form, ValidRecord, WritableSchemas, SchemaMap, MemoryCost, RecordValue, IsTable;
      if failed || finished {
        return false;
      }
      ok := false;
      failed := true;
      var schema := Find(record.schemaVersion);
      if schema.None? || !ValidRecord(schema.value, record) {
        return;
      }
      var fits := MemoryFits(record.values);
      if !fits {
        return;
      }
      if count == TWO_64 - 2 {
        return;
      }
      var value := RecordValue(record);
      if value.None? {
        return;
      }
      var encoded, payload := EncodeValue(value.value, LIMITS);
      if !encoded {
        return;
      }
      var written, block := WriteBlock(table, RECORD_BLOCK, count + 1, payload);
      if !written {
        return;
      }
      stream := stream + block;
      count := count + 1;
      WrittenGrows(schemas, records, record);
      records := records + [record];
      ok, failed := true, false;
    }

    method Finish() returns (ok: bool)
      requires Valid()
      modifies this
      ensures Valid() && schemas == old(schemas) && records == old(records)
      ensures ok <==> !old(failed) && !old(finished)
      ensures ok ==> finished
      ensures !ok ==> unchanged(this)
    {
      hide Written, WritableRecord, WritableSchemas, SchemaMap, IsTable, AscendingVersions, EndBlock;
      if failed || finished {
        return false;
      }
      var block := WriteEnd(table, count);
      WrittenEnds(schemas, records);
      stream := stream + block;
      finished := true;
      ok := true;
    }

    /** After `Finish` the stream is a complete file: reading it gives exactly the accepted schemas and records. */
    lemma FinishedReadsBack()
      requires Valid() && finished
      ensures ReadFile(stream) == Some((SchemaMap(schemas), records))
    {
      WrittenReads(schemas, records, sizeofValue);
    }
  }

  datatype Delivery = Thrown | Finished | Delivered(record: Record)

  class PsrecReader {
    var stream: seq<byte>
    var schemas: map<u64, Schema>
    var count: nat
    var finished: bool
    var failed: bool
    const table: seq<Word>

    ghost predicate Valid()
      reads this
    {
      IsTable(table) && count < TWO_64 - 1
    }

    constructor (stream: seq<byte>, schemas: map<u64, Schema>, table: seq<Word>)
      requires IsTable(table)
      ensures Valid() && this.stream == stream && this.schemas == schemas && count == 0 && !finished && !failed
    {
      this.stream, this.schemas, this.table := stream, schemas, table;
      count, finished, failed := 0, false, false;
    }

    static method Open(input: seq<byte>) returns (reader: PsrecReader?)
      ensures reader != null <==> OpenFile(input).Some?
      ensures reader != null ==>
        && fresh(reader) && reader.Valid() && reader.count == 0 && !reader.finished && !reader.failed
        && OpenFile(input) == Some((reader.schemas, reader.stream))
    {
      hide ReadBlock, ParseMetadata, IsTable;
      reader := null;
      var table := BuildTable();
      if |input| < |SIGNATURE| || input[..|SIGNATURE|] != SIGNATURE {
        return;
      }
      var block := TakeBlock(table, input[|SIGNATURE|..], 0);
      if block.None? || block.value.kind != METADATA_BLOCK {
        return;
      }
      var schemas := TakeMetadata(block.value.payload);
      if schemas.Some? {
        reader := new PsrecReader(block.value.rest, schemas.value, table);
      }
    }

    /** The loop of `parseMetadata`. */
    static method TakeMetadata(payload: seq<byte>) returns (result: Option<map<u64, Schema>>)
      ensures result == ParseMetadata(payload)
    {
      var ok, decoded := DecodeValue(payload, LIMITS);
      if !ok || !decoded.Array? || |decoded.items| > 1024 {
        return None;
      }
      var entries, found: map<u64, Schema>, fields: nat, i := decoded.items, map[], 0, 0;
      while i < |entries|
        invariant 0 <= i <= |entries|
        invariant SchemasFrom(entries[i..], found, fields) == SchemasFrom(entries, map[], 0)
      {
        var entry := entries[i];
        assert entries[i..][0] == entry && entries[i..][1..] == entries[i + 1..];
        if !entry.Array? || |entry.items| != 2 || !entry.items[0].Int? {
          return None;
        }
        var version, schema := entry.items[0].number, SchemaFromValue(entry.items[1]);
        if version <= 0 || schema.None? || version in found {
          return None;
        }
        found := found[version := schema.value];
        fields := fields + |schema.value.fields|;
        if fields > 16384 {
          return None;
        }
        i := i + 1;
      }
      result := Some(found);
    }

    /** Delivers records one at a time; `Finished` means that the whole input was a complete file. After an
        error nothing is ever delivered again. */
    method Deliver() returns (d: Delivery)
      requires Valid()
      modifies this
      ensures Valid() && schemas == old(schemas)
      ensures old(failed) ==> d == Thrown && unchanged(this)
      ensures !old(failed) && old(finished) ==> d == Finished && unchanged(this)
      ensures !old(failed) && !old(finished) ==>
        match Next(schemas, old(stream), old(count))
        case Fail => d == Thrown && failed && !finished
        case End => d == Finished && finished && !failed
        case Got(record, rest) =>
          d == Delivered(record) && stream == rest && count == old(count) + 1 && !failed && !finished
    {
      hide ReadBlock, ValidRecord, Decode, RecordFromValue, Number, IsTable;
      if failed {
        return Thrown;
      }
      if finished {
        return Finished;
      }
      d := Thrown;
      failed := true;
      var block := TakeBlock(table, stream, count + 1);
      if block.None? {
        return;
      }
      if block.value.kind == END_BLOCK {
        var total := Get(block.value.payload);
        if |block.value.payload| != 8 || total != count || block.value.rest != [] {
          return;
        }
        finished, failed := true, false;
        return Finished;
      }
      if block.value.kind != RECORD_BLOCK {
        return;
      }
      var ok, value := DecodeValue(block.value.payload, LIMITS);
      if !ok {
        return;
      }
      var record := RecordFromValue(value);
      if record.None? || record.value.schemaVersion !in schemas
         || !ValidRecord(schemas[record.value.schemaVersion], record.value) || count == TWO_64 - 2 {
        return;
      }
      stream, count, failed := block.value.rest, count + 1, false;
      d := Delivered(record.value);
    }
  }

  /** A client that imports a file collects what the format says the file holds. */
  method ImportAll(input: seq<byte>) returns (complete: bool, schemas: map<u64, Schema>, records: seq<Record>)
    ensures complete <==> ReadFile(input).Some?
    ensures complete ==> ReadFile(input) == Some((schemas, records))
  {
    hide Next, OpenFile;
    complete, schemas, records := false, map[], [];
    var reader := PsrecReader.Open(input);
    if reader == null {
      return;
    }
    schemas := reader.schemas;
    ghost var whole := ReadRecords(schemas, reader.stream, 0);
    while true
      invariant reader.Valid() && !reader.failed && !reader.finished && reader.schemas == schemas
      invariant var later := ReadRecords(schemas, reader.stream, reader.count);
        whole == Import(later.complete, records + later.records)
      decreases |reader.stream|
    {
      ghost var before := records;
      var d := reader.Deliver();
      match d
      case Thrown => return;
      case Finished =>
        assert records + [] == records;
        return true, schemas, records;
      case Delivered(record) =>
        records := records + [record];
        ghost var later := ReadRecords(schemas, reader.stream, reader.count).records;
        assert before + ([record] + later) == records + later;
    }
  }
}
