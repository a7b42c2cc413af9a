/**
 The record exchange file as bytes: a signature, a metadata block with the schemas, one
 block per record and an end block with the record count. These functions say what the
 writer and reader objects of module Psrec do.
 */
module PsrecFormat {
  import opened Basics
  import opened Bytes
  import opened Crc32
  import opened Values
  import opened Records

  const LIMITS: Limits := Limits(32 * 1024 * 1024, 16, 131072)

  const SIGNATURE: seq<byte> := [0x50, 0x53, 0x52, 0x45, 0x43, 0x0D, 0x0A, 0x1A, 1, 0, 0, 0]

  const METADATA_BLOCK: nat := 1
  const RECORD_BLOCK: nat := 2
  const END_BLOCK: nat := 3

  // ----- blocks -----

  function BlockPrefix(kind: nat, sequence: nat, size: nat): (p: seq<byte>)
    ensures |p| == 16
  {
    LittleEndian(4, kind) + LittleEndian(4, size) + LittleEndian(8, sequence)
  }

  /** Prefix, payload and the checksum over both. */
  function BlockForm(kind: nat, sequence: nat, payload: seq<byte>): (b: seq<byte>)
    ensures |b| == 20 + |payload|
  {
    var covered := BlockPrefix(kind, sequence, |payload|) + payload;
    covered + LittleEndian(4, Checksum(covered))
  }

  datatype Block = Block(kind: nat, payload: seq<byte>, rest: seq<byte>)

  function ReadBlock(input: seq<byte>, sequence: nat): (r: Option<Block>)
    ensures r.Some? ==> |r.value.rest| < |input|
  {
    if |input| < 16 then None else
    var kind, size := Number(input[..4]), Number(input[4..8]);
    if Number(input[8..16]) != sequence || size > LIMITS.maxBytes || kind < METADATA_BLOCK || kind > END_BLOCK then None
    else if |input| < 20 + size then None
    else if Number(input[16 + size..20 + size]) != Checksum(input[..16 + size]) then None
    else Some(Block(kind, input[16..16 + size], input[20 + size..]))
  }

  lemma PrefixParts(kind: nat, sequence: u64, size: nat, after: seq<byte>)
    requires kind < 0x1_0000_0000 && size < 0x1_0000_0000
    ensures var input := BlockPrefix(kind, sequence, size) + after;
      Number(input[..4]) == kind && Number(input[4..8]) == size && Number(input[8..16]) == sequence
  {
    var input := BlockPrefix(kind, sequence, size) + after;
    assert input[..4] == LittleEndian(4, kind) && input[4..8] == LittleEndian(4, size);
    assert input[8..16] == LittleEndian(8, sequence);
    Widths();
    NumberOfLittleEndian(4, kind);
    NumberOfLittleEndian(4, size);
    NumberOfLittleEndian(8, sequence);
  }

  /** A written block is read back, whatever follows it. */
  lemma ReadBlockForm(kind: nat, sequence: u64, payload: seq<byte>, rest: seq<byte>)
    requires METADATA_BLOCK <= kind <= END_BLOCK && |payload| <= LIMITS.maxBytes
    ensures ReadBlock(BlockForm(kind, sequence, payload) + rest, sequence) == Some(Block(kind, payload, rest))
  {
    hide LittleEndian, Number, Checksum, BlockPrefix;
    var prefix := BlockPrefix(kind, sequence, |payload|);
    var covered := prefix + payload;
    var stored := LittleEndian(4, Checksum(covered));
    var input := BlockForm(kind, sequence, payload) + rest;
    assert input == prefix + (payload + stored + rest);
    PrefixParts(kind, sequence, |payload|, payload + stored + rest);
    assert input[..16 + |payload|] == covered;
    assert input[16..16 + |payload|] == payload;
    assert input[16 + |payload|..20 + |payload|] == stored;
    assert input[20 + |payload|..] == rest;
    Widths();
    NumberOfLittleEndian(4, Checksum(covered));
  }

  /** A block that is read is, byte for byte, the block a writer would have written. */
  lemma ReadBlockSound(input: seq<byte>, sequence: u64)
    requires ReadBlock(input, sequence).Some?
    ensures var b := ReadBlock(input, sequence).value;
      && METADATA_BLOCK <= b.kind <= END_BLOCK && |b.payload| <= LIMITS.maxBytes
      && input == BlockForm(b.kind, sequence, b.payload) + b.rest
  {
    hide LittleEndian, Number, Checksum;
    var b := ReadBlock(input, sequence).value;
    var size := |b.payload|;
    LittleEndianOfNumber(input[..4]);
    LittleEndianOfNumber(input[4..8]);
    LittleEndianOfNumber(input[8..16]);
    LittleEndianOfNumber(input[16 + size..20 + size]);
    assert input[..16] == BlockPrefix(b.kind, sequence, size);
    assert input[..16 + size] == input[..16] + b.payload;
    assert input == input[..16 + size] + input[16 + size..20 + size] + b.rest;
  }

  // ----- the metadata payload -----

  datatype Versioned = Versioned(version: u64, schema: Schema)

  /** The key-ordered schema map of the writer. */
  ghost predicate AscendingVersions(list: seq<Versioned>) {
    forall i, j :: 0 <= i < j < |list| ==> list[i].version < list[j].version
  }

  function SchemaMap(list: seq<Versioned>): map<u64, Schema> {
    if list == [] then map[] else SchemaMap(list[..|list| - 1])[list[|list| - 1].version := list[|list| - 1].schema]
  }

  function FieldTotal(list: seq<Versioned>): nat {
    if list == [] then 0 else |list[0].schema.fields| + FieldTotal(list[1..])
  }

  predicate ValidVersioned(v: Versioned) {
    0 < v.version < TWO_63 && ValidSchema(v.schema)
  }

  function EntryValue(v: Versioned): Value {
    Array([Int(ToSigned(v.version)), SchemaTree(v.schema)])
  }

  function EntryValues(list: seq<Versioned>): (r: seq<Value>)
    ensures |r| == |list|
  {
    if list == [] then [] else [EntryValue(list[0])] + EntryValues(list[1..])
  }

  /** When `metadata` accepts the schemas of a file. */
  predicate WritableSchemas(list: seq<Versioned>) {
    && |list| <= 1024
    && (forall i :: 0 <= i < |list| ==> ValidVersioned(list[i]))
    && FieldTotal(list) <= 16384
    && Encodable(Array(EntryValues(list)), LIMITS)
  }

  function SchemasFrom(entries: seq<Value>, found: map<u64, Schema>, fields: nat): Option<map<u64, Schema>> {
    if entries == [] then Some(found)
    else if !(entries[0].Array? && |entries[0].items| == 2 && entries[0].items[0].Int?) then None
    else
      var version := entries[0].items[0].number;
      if version <= 0 || version in found then None else
      match SchemaFromValue(entries[0].items[1])
      case None => None
      case Some(schema) =>
        if fields + |schema.fields| > 16384 then None
        else SchemasFrom(entries[1..], found[version := schema], fields + |schema.fields|)
  }

  function ParseMetadata(payload: seq<byte>): Option<map<u64, Schema>> {
    match Decode(payload, LIMITS)
    case Bad => None
    case Good(value, _, _) => if value.Array? && |value.items| <= 1024 then SchemasFrom(value.items, map[], 0) else None
  }

  lemma NewVersion(done: seq<Versioned>, list: seq<Versioned>)
    requires AscendingVersions(done + list) && list != []
    ensures list[0].version !in SchemaMap(done)
  {
    assert (done + list)[|done|] == list[0];
    forall i | 0 <= i < |done|
      ensures done[i].version < list[0].version
    {
      assert (done + list)[i] == done[i];
    }
    SchemaMapKeys(done, list[0].version);
  }

  lemma {:induction false} SchemasFromEntries(done: seq<Versioned>, list: seq<Versioned>, fields: nat)
    requires AscendingVersions(done + list)
    requires forall i :: 0 <= i < |list| ==> ValidVersioned(list[i])
    requires fields + FieldTotal(list) <= 16384
    ensures SchemasFrom(EntryValues(list), SchemaMap(done), fields) == Some(SchemaMap(done + list))
    decreases |list|
  {
    hide ValidSchema, SchemaTree, SchemaFromValue, AscendingVersions;
    if list == [] {
      assert done + list == done;
    } else {
      var v := list[0];
      assert done + list == (done + [v]) + list[1..];
      NewVersion(done, list);
      assert (done + [v])[..|done|] == done;
      SchemaTrip(v.schema, SchemaTree(v.schema));
      assert EntryValues(list)[1..] == EntryValues(list[1..]);
      SchemasFromEntries(done + [v], list[1..], fields + |v.schema.fields|);
    }
  }

  lemma {:induction false} SchemaMapKeys(list: seq<Versioned>, version: u64)
    ensures version in SchemaMap(list) <==> exists i :: 0 <= i < |list| && list[i].version == version
  {
    if list != [] {
      SchemaMapKeys(list[..|list| - 1], version);
      var last := list[|list| - 1];
      assert forall i :: 0 <= i < |list| - 1 ==> list[..|list| - 1][i] == list[i];
    }
  }

  lemma {:induction false} EntryValuesAscending(list: seq<Versioned>)
    ensures AscendingItems(EntryValues(list))
  {
    if list != [] {
      EntryValuesAscending(list[1..]);
      SchemaTreeAscending(list[0].schema);
      AllAscending(EntryValue(list[0]).items);
    }
  }

  lemma MetadataAscending(list: seq<Versioned>)
    ensures Ascending(Array(EntryValues(list)))
    ensures SchemaMap([]) == map[]
  {
    EntryValuesAscending(list);
  }

  /** The schemas of a file are read back as the same map. */
  lemma MetadataTrip(list: seq<Versioned>)
    requires WritableSchemas(list) && AscendingVersions(list)
    ensures ParseMetadata(Form(Array(EntryValues(list)))) == Some(SchemaMap(list))
  {
    hide Form, Decode, SchemasFrom, EntryValues, Encodable, FieldTotal, Ascending, AscendingVersions, SchemaMap, Nodes;
    MetadataAscending(list);
    RoundTrip(Array(EntryValues(list)), LIMITS);
    assert [] + list == list;
    SchemasFromEntries([], list, 0);
  }

  // ----- whole files -----

  /** `sizeofValue` is the platform's in-memory size of one value slot. */
  function MemoryCost(values: seq<Value>, sizeofValue: nat): nat {
    if values == [] then 0
    else (match values[0]
          case Text(text) => |text|
          case Blob(bytes) => |bytes|
          case _ => sizeofValue) + MemoryCost(values[1..], sizeofValue)
  }

  /** When `append` accepts a record. */
  predicate WritableRecord(schemas: map<u64, Schema>, record: Record, sizeofValue: nat) {
    && record.schemaVersion in schemas
    && ValidRecord(schemas[record.schemaVersion], record)
    && MemoryCost(record.values, sizeofValue) <= LIMITS.maxBytes
    && RecordValue(record).Some?
    && Encodable(RecordValue(record).value, LIMITS)
  }

  /** The payload of a record block; a record that has no value is never written. */
  function Payload(record: Record): seq<byte> {
    match RecordValue(record)
    case None => []
    case Some(value) => Form(value)
  }

  function RecordBlock(record: Record, sequence: nat): seq<byte> {
    BlockForm(RECORD_BLOCK, sequence, Payload(record))
  }

  function EndBlock(count: nat): seq<byte> {
    BlockForm(END_BLOCK, count + 1, LittleEndian(8, count))
  }

  function HeadForm(list: seq<Versioned>): seq<byte> {
    SIGNATURE + BlockForm(METADATA_BLOCK, 0, Form(Array(EntryValues(list))))
  }

  /** The record blocks and the end block, the first of them with sequence number `count + 1`. */
  function BodyForm(records: seq<Record>, count: nat): seq<byte> {
    if records == [] then EndBlock(count) else RecordBlock(records[0], count + 1) + BodyForm(records[1..], count + 1)
  }

  function OpenFile(input: seq<byte>): Option<(map<u64, Schema>, seq<byte>)> {
    if |input| < |SIGNATURE| || input[..|SIGNATURE|] != SIGNATURE then None else
    match ReadBlock(input[|SIGNATURE|..], 0)
    case None => None
    case Some(block) =>
      if block.kind != METADATA_BLOCK then None else
      match ParseMetadata(block.payload)
      case None => None
      case Some(schemas) => Some((schemas, block.rest))
  }

  datatype Step = Fail | End | Got(record: Record, rest: seq<byte>)

  /** One call of the reader's `next` after `count` records. */
  function Next(schemas: map<u64, Schema>, input: seq<byte>, count: nat): (s: Step)
    ensures s.Got? ==> |s.rest| < |input|
  {
    match ReadBlock(input, count + 1)
    case None => Fail
    case Some(block) =>
      if block.kind == END_BLOCK then
        if |block.payload| == 8 && Number(block.payload) == count && block.rest == [] then End else Fail
      else if block.kind != RECORD_BLOCK then Fail
      else
        match Decode(block.payload, LIMITS)
        case Bad => Fail
        case Good(value, _, _) =>
          match RecordFromValue(value)
          case None => Fail
          case Some(record) =>
            if record.schemaVersion in schemas && ValidRecord(schemas[record.schemaVersion], record)
               && count != TWO_64 - 2
            then Got(record, block.rest) else Fail
  }

  /** What a client collects by calling `next` until it stops, and whether it stopped at a verified end. */
  datatype Import = Import(complete: bool, records: seq<Record>)

  function ReadRecords(schemas: map<u64, Schema>, input: seq<byte>, count: nat): Import
    decreases |input|
  {
    match Next(schemas, input, count)
    case Fail => Import(false, [])
    case End => Import(true, [])
    case Got(record, rest) =>
      var later := ReadRecords(schemas, rest, count + 1);
      Import(later.complete, [record] + later.records)
  }

  function ReadFile(input: seq<byte>): Option<(map<u64, Schema>, seq<Record>)> {
    match OpenFile(input)
    case None => None
    case Some((schemas, rest)) =>
      var all := ReadRecords(schemas, rest, 0);
      if all.complete then Some((schemas, all.records)) else None
  }
}
