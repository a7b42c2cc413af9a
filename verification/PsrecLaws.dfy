/** What the exchange file guarantees: a faithful round trip, and no unnoticed truncation, extension or damage. */
module PsrecLaws {
  import opened Basics
  import opened Bytes
  import opened Crc32
  import opened Values
  import opened Records
  import opened PsrecFormat

  // ----- round trip -----

  function FileForm(list: seq<Versioned>, records: seq<Record>): seq<byte> {
    HeadForm(list) + BodyForm(records, 0)
  }

  lemma OpenHead(list: seq<Versioned>, rest: seq<byte>)
    requires WritableSchemas(list) && AscendingVersions(list)
    ensures OpenFile(HeadForm(list) + rest) == Some((SchemaMap(list), rest))
  {
    hide ReadBlock, ParseMetadata, BlockForm, Form, EntryValues, Encodable, AscendingVersions;
    var payload := Form(Array(EntryValues(list)));
    var block := BlockForm(METADATA_BLOCK, 0, payload);
    var input := HeadForm(list) + rest;
    EncodableFits(Array(EntryValues(list)));
    assert input == SIGNATURE + (block + rest);
    assert input[..|SIGNATURE|] == SIGNATURE && input[|SIGNATURE|..] == block + rest;
    ReadBlockForm(METADATA_BLOCK, 0, payload, rest);
    MetadataTrip(list);
  }

  lemma EncodableFits(v: Value)
    requires Encodable(v, LIMITS)
    ensures |Form(v)| <= LIMITS.maxBytes
  {
  }

  /** One accepted record is delivered by one call of `next`. */
  lemma NextRecord(schemas: map<u64, Schema>, record: Record, count: nat, rest: seq<byte>, sizeofValue: nat)
    requires WritableRecord(schemas, record, sizeofValue) && count < TWO_64 - 2
    ensures Next(schemas, RecordBlock(record, count + 1) + rest, count) == Got(record, rest)
  {
    hide Form, Decode, ReadBlock, BlockForm, ValidRecord, MemoryCost, RecordFromValue, Ascending, Encodable, Nodes;
    var value := RecordValue(record).value;
    EncodableFits(value);
    ReadBlockForm(RECORD_BLOCK, count + 1, Form(value), rest);
    RecordValueAscending(schemas[record.schemaVersion], record);
    RoundTrip(value, LIMITS);
    RecordTrip(record, value);
  }

  lemma NextEnd(schemas: map<u64, Schema>, count: nat)
    requires count < TWO_64 - 1
    ensures Next(schemas, EndBlock(count), count) == End
  {
    ReadBlockForm(END_BLOCK, count + 1, LittleEndian(8, count), []);
    assert EndBlock(count) + [] == EndBlock(count);
    Widths();
    NumberOfLittleEndian(8, count);
  }

  lemma {:induction false} ReadBody(schemas: map<u64, Schema>, records: seq<Record>, count: nat, sizeofValue: nat)
    requires forall i :: 0 <= i < |records| ==> WritableRecord(schemas, records[i], sizeofValue)
    requires count + |records| < TWO_64 - 1
    ensures ReadRecords(schemas, BodyForm(records, count), count) == Import(true, records)
    decreases |records|
  {
    hide Next, RecordBlock, EndBlock, WritableRecord;
    if records == [] {
      NextEnd(schemas, count);
    } else {
      NextRecord(schemas, records[0], count, BodyForm(records[1..], count + 1), sizeofValue);
      ReadBody(schemas, records[1..], count + 1, sizeofValue);
      assert records == [records[0]] + records[1..];
    }
  }

  /** Every file of accepted schemas and records reads back as the same schemas and the same records in order. */
  lemma FileRoundTrip(list: seq<Versioned>, records: seq<Record>, sizeofValue: nat)
    requires WritableSchemas(list) && AscendingVersions(list) && |records| < TWO_64 - 1
    requires forall i :: 0 <= i < |records| ==> WritableRecord(SchemaMap(list), records[i], sizeofValue)
    ensures ReadFile(FileForm(list, records)) == Some((SchemaMap(list), records))
  {
    hide OpenFile, ReadRecords, HeadForm, BodyForm, WritableSchemas, AscendingVersions;
    OpenHead(list, BodyForm(records, 0));
    ReadBody(SchemaMap(list), records, 0, sizeofValue);
  }

  // ----- truncation and extension -----

  lemma ReadBlockExtended(input: seq<byte>, sequence: u64, tail: seq<byte>)
    requires ReadBlock(input, sequence).Some?
    ensures var b := ReadBlock(input, sequence).value;
      ReadBlock(input + tail, sequence) == Some(Block(b.kind, b.payload, b.rest + tail))
  {
    hide BlockForm, ReadBlock;
    var b := ReadBlock(input, sequence).value;
    ReadBlockSound(input, sequence);
    ReadBlockForm(b.kind, sequence, b.payload, b.rest + tail);
    assert input + tail == BlockForm(b.kind, sequence, b.payload) + (b.rest + tail);
  }

  lemma {:induction false} BodyTailNoticed(schemas: map<u64, Schema>, input: seq<byte>, count: nat, tail: seq<byte>)
    requires count < TWO_64 - 1 && tail != []
    requires ReadRecords(schemas, input, count).complete
    ensures ReadRecords(schemas, input + tail, count)
         == Import(false, ReadRecords(schemas, input, count).records)
    decreases |input|
  {
    hide ReadBlock, ValidRecord, Decode, RecordFromValue, Number;
    ReadBlockExtended(input, count + 1, tail);
    match Next(schemas, input, count)
    case Got(record, rest) =>
      assert count != TWO_64 - 2;
      BodyTailNoticed(schemas, rest, count + 1, tail);
    case End =>
      assert |ReadBlock(input, count + 1).value.rest + tail| > 0;
    case Fail =>
  }

  lemma OpenExtended(input: seq<byte>, tail: seq<byte>)
    requires OpenFile(input).Some?
    ensures OpenFile(input + tail) == Some((OpenFile(input).value.0, OpenFile(input).value.1 + tail))
  {
    hide ReadBlock, ParseMetadata;
    var head := |SIGNATURE|;
    assert (input + tail)[..head] == input[..head] && (input + tail)[head..] == input[head..] + tail;
    ReadBlockExtended(input[head..], 0, tail);
  }

  /** Of a file and a proper extension of it, at most one is ever read to a verified end: an interrupted copy
      and trailing data are both noticed. */
  lemma TruncationNoticed(file: seq<byte>, cut: nat)
    requires ReadFile(file).Some? && cut < |file|
    ensures ReadFile(file[..cut]).None?
  {
    hide OpenFile, ReadRecords;
    var part, tail := file[..cut], file[cut..];
    assert part + tail == file;
    if ReadFile(part).Some? {
      OpenExtended(part, tail);
      BodyTailNoticed(OpenFile(part).value.0, OpenFile(part).value.1, 0, tail);
    }
  }

  lemma ExtensionNoticed(file: seq<byte>, tail: seq<byte>)
    requires ReadFile(file).Some? && tail != []
    ensures ReadFile(file + tail).None?
  {
    if ReadFile(file + tail).Some? {
      assert (file + tail)[..|file|] == file;
      TruncationNoticed(file + tail, |file|);
    }
  }

  // ----- damage -----

  lemma BlockResidue(kind: nat, sequence: nat, payload: seq<byte>)
    ensures Crc(ALL_ONES, BlockForm(kind, sequence, payload)) == RESIDUE
  {
    hide Crc, Checksum, BlockPrefix;
    var covered := BlockPrefix(kind, sequence, |payload|) + payload;
    var stored := LittleEndian(4, Checksum(covered));
    Widths();
    NumberOfLittleEndian(4, Checksum(covered));
    ResidueLaw(covered, stored);
  }

  /** A block with a burst of at most 32 damaged bits outside its size field is refused, whatever follows it. */
  lemma DamagedBlockRefused(kind: nat, sequence: u64, payload: seq<byte>, damaged: seq<byte>, rest: seq<byte>, at: nat, width: nat)
    requires METADATA_BLOCK <= kind <= END_BLOCK && |payload| <= LIMITS.maxBytes
    requires DifferWithin(BlockForm(kind, sequence, payload), damaged, at, width) && width <= 32
    requires damaged[4..8] == BlockForm(kind, sequence, payload)[4..8]
    ensures ReadBlock(damaged + rest, sequence).None?
  {
    assert |damaged| == |BlockForm(kind, sequence, payload)|;
    hide ReadBlock, BlockForm, Number, DifferWithin, Crc;
    var input := damaged + rest;
    if ReadBlock(input, sequence).Some? {
      var b := ReadBlock(input, sequence).value;
      ReadBlockSound(input, sequence);
      BlockSize(kind, sequence, payload, []);
      BlockSize(b.kind, sequence, b.payload, b.rest);
      assert input[4..8] == damaged[4..8];
      assert BlockForm(kind, sequence, payload) + [] == BlockForm(kind, sequence, payload);
      assert damaged == input[..|damaged|] == BlockForm(b.kind, sequence, b.payload);
      BlockResidue(kind, sequence, payload);
      BlockResidue(b.kind, sequence, b.payload);
      DamageNoticed(ALL_ONES, BlockForm(kind, sequence, payload), damaged, at, width);
    }
  }

  lemma BlockSize(kind: nat, sequence: u64, payload: seq<byte>, rest: seq<byte>)
    requires METADATA_BLOCK <= kind <= END_BLOCK && |payload| <= LIMITS.maxBytes
    ensures Number((BlockForm(kind, sequence, payload) + rest)[4..8]) == |payload|
  {
    hide LittleEndian, Number, Checksum, BlockPrefix;
    var prefix := BlockPrefix(kind, sequence, |payload|);
    var covered := prefix + payload;
    var after := payload + LittleEndian(4, Checksum(covered)) + rest;
    PrefixParts(kind, sequence, |payload|, after);
    assert BlockForm(kind, sequence, payload) + rest == prefix + after;
  }

  /** Where the k-th block begins, following the size fields. */
  function Start(input: seq<byte>, k: nat): (s: nat)
    ensures s <= |input|
  {
    if k == 0 || |input| < 20 || |input| < 20 + Number(input[4..8]) then 0
    else 20 + Number(input[4..8]) + Start(input[20 + Number(input[4..8])..], k - 1)
  }

  /** The bits of `other` differ from those of `input`, but only in a burst inside the k-th block and not in its size. */
  ghost predicate BurstInBlock(input: seq<byte>, other: seq<byte>, k: nat, at: nat, width: nat) {
    var s, e := Start(input, k), Start(input, k + 1);
    && s + 8 <= e
    && |other| == |input|
    && other[..s] == input[..s]
    && other[e..] == input[e..]
    && other[s + 4..s + 8] == input[s + 4..s + 8]
    && DifferWithin(input[s..e], other[s..e], at, width)
    && width <= 32
  }

  /** The first block of an input, seen through its offset. */
  lemma FirstBlock(input: seq<byte>, sequence: u64)
    requires ReadBlock(input, sequence).Some?
    ensures var b := ReadBlock(input, sequence).value;
      && var n := 20 + |b.payload|;
      && n <= |input| && input[..n] == BlockForm(b.kind, sequence, b.payload) && input[n..] == b.rest
      && forall k: nat :: k > 0 ==> Start(input, k) == n + Start(b.rest, k - 1)
  {
    hide BlockForm, Number, Checksum;
    var b := ReadBlock(input, sequence).value;
    ReadBlockSound(input, sequence);
    BlockSize(b.kind, sequence, b.payload, b.rest);
  }

  lemma BurstInFirst(input: seq<byte>, other: seq<byte>, sequence: u64, at: nat, width: nat)
    requires ReadBlock(input, sequence).Some? && BurstInBlock(input, other, 0, at, width)
    ensures ReadBlock(other, sequence).None?
  {
    hide ReadBlock, BlockForm, Number, DifferWithin;
    var b := ReadBlock(input, sequence).value;
    var n := 20 + |b.payload|;
    FirstBlock(input, sequence);
    ReadBlockSound(input, sequence);
    assert Start(b.rest, 0) == 0 && Start(input, 1) == n;
    assert input[0..n] == input[..n];
    assert other[..n][4..8] == other[4..8] && input[..n][4..8] == input[4..8];
    assert other[0..n] == other[..n];
    DamagedBlockRefused(b.kind, sequence, b.payload, other[..n], other[n..], at, width);
    assert other == other[..n] + other[n..];
  }

  lemma TailSlices(s: seq<byte>, n: nat, from: nat, to: nat)
    requires from <= to && n + to <= |s|
    ensures s[n..][..from] == s[n..n + from]
    ensures s[n..][from..to] == s[n + from..n + to]
    ensures s[n..][to..] == s[n + to..]
  {
  }

  /** Damage further on leaves the first block as it was and is a burst in what follows it. */
  lemma BurstLater(input: seq<byte>, other: seq<byte>, sequence: u64, k: nat, at: nat, width: nat)
    requires ReadBlock(input, sequence).Some? && k > 0 && BurstInBlock(input, other, k, at, width)
    ensures var b := ReadBlock(input, sequence).value;
      && var n := 20 + |b.payload|;
      && n <= |other|
      && ReadBlock(other, sequence) == Some(Block(b.kind, b.payload, other[n..]))
      && BurstInBlock(b.rest, other[n..], k - 1, at, width)
  {
    hide ReadBlock, BlockForm, Number, DifferWithin;
    var b := ReadBlock(input, sequence).value;
    var n := 20 + |b.payload|;
    FirstBlock(input, sequence);
    ReadBlockSound(input, sequence);
    var s, e := Start(input, k), Start(input, k + 1);
    var s', e' := Start(b.rest, k - 1), Start(b.rest, k);
    assert s == n + s' && e == n + e';
    var rest := other[n..];
    assert other[..n] == other[..s][..n] && input[..n] == input[..s][..n];
    assert other == other[..n] + rest;
    ReadBlockForm(b.kind, sequence, b.payload, rest);
    TailSlices(input, n, s', e');
    TailSlices(other, n, s', e');
    TailSlices(input, n, s' + 4, s' + 8);
    TailSlices(other, n, s' + 4, s' + 8);
    assert other[n..s] == other[..s][n..] == input[..s][n..] == input[n..s];
  }

  lemma {:induction false} BodyDamage(schemas: map<u64, Schema>, input: seq<byte>, other: seq<byte>, count: nat, k: nat, at: nat, width: nat)
    requires count < TWO_64 - 1
    requires ReadRecords(schemas, input, count).complete && k <= |ReadRecords(schemas, input, count).records|
    requires BurstInBlock(input, other, k, at, width)
    ensures ReadRecords(schemas, other, count) == Import(false, ReadRecords(schemas, input, count).records[..k])
    decreases k
  {
    hide ReadBlock, BurstInBlock, ValidRecord, Decode, RecordFromValue, Number;
    if k == 0 {
      BurstInFirst(input, other, count + 1, at, width);
    } else {
      BurstLater(input, other, count + 1, k, at, width);
      var b := ReadBlock(input, count + 1).value;
      BodyDamage(schemas, b.rest, other[20 + |b.payload|..], count + 1, k - 1, at, width);
    }
  }

  /** Where block k of a file begins; block 0 is the metadata, the last one the end block. */
  function BlockStart(file: seq<byte>, k: nat): (s: nat)
    requires |file| >= |SIGNATURE|
    ensures s <= |file|
  {
    |SIGNATURE| + Start(file[|SIGNATURE|..], k)
  }

  /** A burst of at most 32 damaged bits in block k, outside its size field, makes the reader stop before
      that block is accepted: exactly the records of the blocks before it are delivered, and never a
      verified end. */
  lemma FileDamageNoticed(file: seq<byte>, damaged: seq<byte>, k: nat, at: nat, width: nat)
    requires ReadFile(file).Some? && k <= |ReadFile(file).value.1| + 1
    requires |damaged| == |file| && damaged[..|SIGNATURE|] == file[..|SIGNATURE|]
    requires BurstInBlock(file[|SIGNATURE|..], damaged[|SIGNATURE|..], k, at, width)
    ensures ReadFile(damaged).None?
    ensures if k == 0 then OpenFile(damaged).None? else
      && OpenFile(damaged).Some? && OpenFile(damaged).value.0 == ReadFile(file).value.0
      && ReadRecords(OpenFile(damaged).value.0, OpenFile(damaged).value.1, 0)
         == Import(false, ReadFile(file).value.1[..k - 1])
  {
    hide ReadBlock, BurstInBlock, ReadRecords, ParseMetadata;
    var input, other := file[|SIGNATURE|..], damaged[|SIGNATURE|..];
    if k == 0 {
      BurstInFirst(input, other, 0, at, width);
    } else {
      BurstLater(input, other, 0, k, at, width);
      var b := ReadBlock(input, 0).value;
      BodyDamage(OpenFile(file).value.0, b.rest, other[20 + |b.payload|..], 0, k - 1, at, width);
    }
  }

  /** The blocks of an accepted file tile it: they follow one another without gaps up to the last byte. */
  lemma {:induction false} BodyTiled(schemas: map<u64, Schema>, input: seq<byte>, count: nat)
    requires count < TWO_64 - 1 && ReadRecords(schemas, input, count).complete
    ensures Start(input, |ReadRecords(schemas, input, count).records| + 1) == |input|
    decreases |input|
  {
    hide ReadBlock, ValidRecord, Decode, RecordFromValue, Number, Start;
    FirstBlock(input, count + 1);
    StartAtZero(ReadBlock(input, count + 1).value.rest);
    match Next(schemas, input, count)
    case Got(record, rest) => BodyTiled(schemas, rest, count + 1);
    case End =>
    case Fail =>
  }

  lemma StartAtZero(input: seq<byte>)
    ensures Start(input, 0) == 0
  {
  }

  lemma FileTiled(file: seq<byte>)
    requires ReadFile(file).Some?
    ensures BlockStart(file, 0) == |SIGNATURE|
    ensures BlockStart(file, |ReadFile(file).value.1| + 2) == |file|
  {
    hide ReadBlock, ReadRecords, ParseMetadata, Start;
    StartAtZero(file[|SIGNATURE|..]);
    FirstBlock(file[|SIGNATURE|..], 0);
    BodyTiled(OpenFile(file).value.0, OpenFile(file).value.1, 0);
  }

  // ----- single bytes -----

  lemma BytesDiffer(m: seq<byte>, n: seq<byte>, at: nat, width: nat)
    requires |m| == |n| && m != n && at + width <= |m|
    requires m[..at] == n[..at] && m[at + width..] == n[at + width..]
    ensures DifferWithin(m, n, 8 * at, 8 * width)
  {
    hide MessageBits;
    MessageBitsAppend(m[..at], m[at..]);
    MessageBitsAppend(n[..at], n[at..]);
    assert m == m[..at] + m[at..] && n == n[..at] + n[at..];
    MessageBitsAppend(m[..at + width], m[at + width..]);
    MessageBitsAppend(n[..at + width], n[at + width..]);
    assert m == m[..at + width] + m[at + width..] && n == n[..at + width] + n[at + width..];
  }

  /** Every position of an accepted file after the signature lies in one of its blocks. */
  lemma {:induction false} BlockAt(schemas: map<u64, Schema>, input: seq<byte>, count: nat, i: nat) returns (k: nat)
    requires count < TWO_64 - 1 && ReadRecords(schemas, input, count).complete && i < |input|
    ensures k <= |ReadRecords(schemas, input, count).records|
    ensures Start(input, k) <= i < Start(input, k + 1) && Start(input, k) + 20 <= Start(input, k + 1)
    decreases |input|
  {
    hide ReadBlock, ValidRecord, Decode, RecordFromValue, Number, Start;
    var b := ReadBlock(input, count + 1).value;
    FirstBlock(input, count + 1);
    StartAtZero(input);
    StartAtZero(b.rest);
    k := 0;
    if i >= Start(input, 1) {
      var later := BlockAt(schemas, b.rest, count + 1, i - (20 + |b.payload|));
      k := later + 1;
    }
  }

  lemma FileBlockAt(file: seq<byte>, i: nat) returns (k: nat)
    requires ReadFile(file).Some? && |SIGNATURE| <= i < |file|
    ensures k <= |ReadFile(file).value.1| + 1
    ensures BlockStart(file, k) <= i < BlockStart(file, k + 1) && BlockStart(file, k) + 20 <= BlockStart(file, k + 1)
  {
    hide ReadBlock, ReadRecords, ParseMetadata, Start;
    var input := file[|SIGNATURE|..];
    var b := ReadBlock(input, 0).value;
    FirstBlock(input, 0);
    StartAtZero(input);
    StartAtZero(b.rest);
    k := 0;
    if i - |SIGNATURE| >= Start(input, 1) {
      var later := BlockAt(OpenFile(file).value.0, b.rest, 0, i - |SIGNATURE| - (20 + |b.payload|));
      k := later + 1;
    }
  }

  /** Whatever single byte of an accepted file changes, the file is no longer accepted, unless the byte
      belongs to the size field of a block. */
  lemma ByteDamageNoticed(file: seq<byte>, i: nat, value: byte)
    requires ReadFile(file).Some? && i < |file| && value != file[i]
    requires forall k: nat :: k <= |ReadFile(file).value.1| + 1 ==>
      !(BlockStart(file, k) + 4 <= i < BlockStart(file, k) + 8)
    ensures ReadFile(file[i := value]).None?
  {
    hide ReadBlock, ReadRecords, ParseMetadata, Start, DifferWithin;
    var damaged := file[i := value];
    if i < |SIGNATURE| {
      assert damaged[..|SIGNATURE|][i] == value && file[..|SIGNATURE|][i] == file[i];
    } else {
      var k := FileBlockAt(file, i);
      var input, other := file[|SIGNATURE|..], damaged[|SIGNATURE|..];
      var s, e := Start(input, k), Start(input, k + 1);
      var j := i - |SIGNATURE| - s;
      assert input[s..e][j] == file[i] && other[s..e][j] == value;
      BytesDiffer(input[s..e], other[s..e], j, 1);
      FileDamageNoticed(file, damaged, k, 8 * j, 8);
    }
  }
}
