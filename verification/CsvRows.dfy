/** Rows of comma-separated fields: the row writer with its quoting rule, and the strict row reader. */
module CsvRows {
  import opened Bytes

  type Text = seq<byte>

  const QUOTE: byte := 34
  const COMMA: byte := 44
  const LF: byte := 10
  const CR: byte := 13
  const HASH: byte := 35

  const ROW_BYTES: nat := 32 * 1024 * 1024
  const ROW_FIELDS: nat := 4096
  const CHUNK: nat := 65536

  // ---------------------------------------------------------------- writing

  predicate Special(b: byte) {
    b == COMMA || b == QUOTE || b == LF || b == CR || b == HASH
  }

  predicate Plain(field: Text) {
    forall i :: 0 <= i < |field| ==> !Special(field[i])
  }

  function Doubled(field: Text): Text {
    if field == [] then []
    else (if field[0] == QUOTE then [QUOTE, QUOTE] else [field[0]]) + Doubled(field[1..])
  }

  /** A field as it stands in the file. */
  function Escaped(field: Text): Text {
    if Plain(field) then field else [QUOTE] + Doubled(field) + [QUOTE]
  }

  /** The fields with commas between them. */
  function Joined(fields: seq<Text>): Text {
    if fields == [] then []
    else if |fields| == 1 then Escaped(fields[0])
    else Escaped(fields[0]) + [COMMA] + Joined(fields[1..])
  }

  function RowForm(fields: seq<Text>): Text {
    Joined(fields) + [LF]
  }

  /** The rows the writer accepts. */
  predicate Writable(fields: seq<Text>) {
    |fields| <= ROW_FIELDS && |RowForm(fields)| <= ROW_BYTES
  }

  method CsvEscape(field: Text) returns (text: Text)
    ensures text == Escaped(field)
  {
    var plain := true;
    for i := 0 to |field|
      invariant plain <==> forall k :: 0 <= k < i ==> !Special(field[k])
    {
      plain := plain && !Special(field[i]);
    }
    if plain {
      return field;
    }
    text := [QUOTE];
    for i := 0 to |field|
      invariant text + Doubled(field[i..]) == [QUOTE] + Doubled(field)
    {
      assert field[i..][1..] == field[i + 1..];
      if field[i] == QUOTE {
        text := text + [QUOTE];
      }
      text := text + [field[i]];
    }
    text := text + [QUOTE];
  }

  function TotalSize(fields: seq<Text>): nat {
    if fields == [] then 0 else |fields[0]| + TotalSize(fields[1..])
  }

  lemma {:induction false} DoubledGrows(field: Text)
    ensures |Doubled(field)| >= |field|
  {
    if field != [] {
      DoubledGrows(field[1..]);
    }
  }

  lemma {:induction false} JoinedGrows(fields: seq<Text>)
    ensures |Joined(fields)| >= TotalSize(fields)
  {
    if fields != [] {
      DoubledGrows(fields[0]);
      JoinedGrows(fields[1..]);
    }
  }

  /** The separated tail of a row from field `i` on. */
  function Tail(fields: seq<Text>, i: nat): Text
    requires i <= |fields|
  {
    if i == |fields| then [] else (if i > 0 then [COMMA] else []) + Joined(fields[i..])
  }

  lemma TailStep(fields: seq<Text>, i: nat)
    requires i < |fields|
    ensures Tail(fields, i) == (if i > 0 then [COMMA] else []) + Escaped(fields[i]) + Tail(fields, i + 1)
  {
    assert fields[i..][1..] == fields[i + 1..];
  }

  method WriteChunks(stream: Text, text: Text) returns (written: Text)
    ensures written == stream + text
  {
    written := stream;
    var offset := 0;
    while offset < |text|
      invariant 0 <= offset <= |text|
      invariant written == stream + text[..offset]
    {
      var count := if |text| - offset < CHUNK then |text| - offset else CHUNK;
      written := written + text[offset..offset + count];
      assert text[..offset] + text[offset..offset + count] == text[..offset + count];
      offset := offset + count;
    }
    assert text[..|text|] == text;
  }

  /** Writes one row, field by field and in chunks; the stream receives the row's form exactly when the row
    * is within the limits, and never anything but a beginning of it. */
  method WriteCsvRow(stream: Text, fields: seq<Text>) returns (ok: bool, written: Text)
    ensures ok <==> Writable(fields)
    ensures ok ==> written == stream + RowForm(fields)
    ensures !ok ==> stream <= written <= stream + RowForm(fields)
  {
    hide Doubled, Escaped, Joined, Tail;
    written := stream;
    if |fields| > ROW_FIELDS {
      return false, written;
    }
    JoinedGrows(fields);
    var bytes := 0;
    for i := 0 to |fields|
      invariant bytes <= ROW_BYTES && bytes + TotalSize(fields[i..]) == TotalSize(fields)
    {
      assert fields[i..][1..] == fields[i + 1..];
      if |fields[i]| > ROW_BYTES - bytes {
        return false, written;
      }
      bytes := bytes + |fields[i]|;
    }
    bytes := 1;
    WholeTail(fields);
    for i := 0 to |fields|
      invariant written + Tail(fields, i) == stream + Joined(fields)
      invariant bytes == 1 + |written| - |stream| && bytes <= ROW_BYTES
      invariant stream <= written
    {
      TailStep(fields, i);
      ghost var start := written;
      if i > 0 {
        written := written + [COMMA];
      }
      var escaped := CsvEscape(fields[i]);
      var cost := |escaped| + if i > 0 then 1 else 0;
      if cost > ROW_BYTES - bytes {
        assert start + Tail(fields, i) == written + escaped + Tail(fields, i + 1);
        Assoc(written + escaped, Tail(fields, i + 1), [LF]);
        Assoc(written, escaped, Tail(fields, i + 1) + [LF]);
        Assoc(stream, Joined(fields), [LF]);
        return false, written;
      }
      bytes := bytes + cost;
      written := WriteChunks(written, escaped);
      assert written + Tail(fields, i + 1) == start + Tail(fields, i);
    }
    assert written + [] == written;
    Assoc(stream, Joined(fields), [LF]);
    written := written + [LF];
    ok := true;
  }

  lemma Assoc<T>(a: seq<T>, b: seq<T>, c: seq<T>)
    ensures a + b + c == a + (b + c)
  {
  }

  lemma WholeTail(fields: seq<Text>)
    ensures Tail(fields, 0) == Joined(fields) && Tail(fields, |fields|) == []
  {
    assert fields[0..] == fields;
  }

  // ---------------------------------------------------------------- reading

  datatype State = Start | Unquoted | Quoted | Closed

  /** The reader's input: bytes it took to look for a byte order mark and gave back, then the stream. */
  datatype Source = Source(prefix: Text, stream: Text)
  {
    function Flat(): Text {
      prefix + stream
    }

    function Get(): (r: (byte, Source))
      requires Flat() != []
      ensures Flat() == [r.0] + r.1.Flat()
    {
      if prefix != [] then (prefix[0], Source(prefix[1..], stream)) else (stream[0], Source([], stream[1..]))
    }

    /** Consumes a line feed that the stream has next; bytes given back are not looked at. */
    function SkipLf(): Source {
      if stream != [] && stream[0] == LF then Source(prefix, stream[1..]) else this
    }
  }

  datatype RowRead = NoMore | Refused | Got(fields: seq<Text>, rest: Source)

  datatype Limits = Limits(maxBytes: nat, maxFields: nat)

  const DEFAULTS := Limits(ROW_BYTES, ROW_FIELDS)

  /** No byte but the last of those given back is a carriage return. */
  predicate Safe(prefix: Text) {
    forall i :: 0 <= i < |prefix| - 1 ==> prefix[i] != CR
  }

  datatype Turn = Reject | EndRow(fields: seq<Text>, afterCr: bool) | Go(state: State, fields: seq<Text>, value: Text)

  /** One turn of the row state machine. */
  function Step(ch: byte, state: State, fields: seq<Text>, value: Text, bytes: nat, limits: Limits): (t: Turn)
    ensures t.EndRow? ==> t.fields == fields + [value] && (t.afterCr <==> ch == CR)
    ensures t.Go? ==> fields <= t.fields
  {
    if bytes + 1 > limits.maxBytes then Reject
    else if state.Quoted? then
      if ch == QUOTE then Go(Closed, fields, value) else Go(Quoted, fields, value + [ch])
    else if state.Closed? && ch == QUOTE then Go(Quoted, fields, value + [ch])
    else if ch == COMMA then
      if |fields| >= limits.maxFields then Reject else Go(Start, fields + [value], [])
    else if ch == LF || ch == CR then
      if |fields| >= limits.maxFields then Reject else EndRow(fields + [value], ch == CR)
    else if state.Closed? || (ch == QUOTE && !state.Start?) then Reject
    else if ch == QUOTE then Go(Quoted, fields, value)
    else Go(Unquoted, fields, value + [ch])
  }

  function Scan(source: Source, state: State, fields: seq<Text>, value: Text, bytes: nat, limits: Limits): RowRead
    decreases |source.Flat()|
  {
    if source.Flat() == [] then
      if state.Quoted? then Refused
      else if bytes == 0 then NoMore
      else if |fields| >= limits.maxFields then Refused
      else Got(fields + [value], source)
    else
      var (ch, next) := source.Get();
      match Step(ch, state, fields, value, bytes, limits)
      case Reject => Refused
      case EndRow(all, afterCr) => Got(all, if afterCr then next.SkipLf() else next)
      case Go(state', fields', value') => Scan(next, state', fields', value', bytes + 1, limits)
  }

  /** A row takes at least a byte and leaves an end of the input. */
  lemma {:induction false} ScanLeaves(source: Source, state: State, fields: seq<Text>, value: Text, bytes: nat,
                                      limits: Limits)
    ensures var r := Scan(source, state, fields, value, bytes, limits);
      r.Got? ==>
        && |r.rest.Flat()| + (if bytes == 0 then 1 else 0) <= |source.Flat()|
        && |r.rest.prefix| <= |source.prefix|
        && r.rest.prefix == source.prefix[|source.prefix| - |r.rest.prefix|..]
        && fields <= r.fields && |fields| < |r.fields|
    ensures Scan(source, state, fields, value, bytes, limits).NoMore? ==> bytes == 0
    decreases |source.Flat()|
  {
    hide Step;
    if source.Flat() != [] {
      var (ch, next) := source.Get();
      match Step(ch, state, fields, value, bytes, limits)
      case Go(state', fields', value') => ScanLeaves(next, state', fields', value', bytes + 1, limits);
      case _ =>
    }
  }

  function Next(source: Source, limits: Limits): RowRead {
    Scan(source, Start, [], [], 0, limits)
  }

  const MARK: Text := [0xEF, 0xBB, 0xBF]

  /** Opening a stream: a byte order mark is dropped, up to three bytes that are none are given back. */
  function Open(input: Text): Source {
    if input == [] || input[0] != 0xEF then Source([], input)
    else
      var n := if |input| < 3 then |input| else 3;
      Source(if input[..n] == MARK then [] else input[..n], input[n..])
  }

  class CsvRowReader {
    var prefix: Text
    var prefixOffset: nat
    var stream: Text
    const limits: Limits
    var failed: bool

    ghost predicate Valid()
      reads this
    {
      prefixOffset <= |prefix|
    }

    ghost function Left(): Source
      requires Valid()
      reads this
    {
      Source(prefix[prefixOffset..], stream)
    }

    constructor (input: Text, limits: Limits)
      requires limits.maxBytes > 0 && limits.maxFields > 0
      ensures Valid() && Left() == Open(input) && !failed && this.limits == limits
    {
      this.limits, failed, prefixOffset := limits, false, 0;
      prefix, stream := [], input;
      new;
      if stream != [] && stream[0] == 0xEF {
        for i := 0 to 3
          invariant i <= |input| && prefix == input[..i] && stream == input[i..]
          invariant prefixOffset == 0 && this.limits == limits && !failed
        {
          if stream == [] {
            break;
          }
          prefix := prefix + [stream[0]];
          stream := stream[1..];
        }
        if prefix == MARK {
          prefix := [];
        }
      }
    }

    /** Reads one row; after a refusal the reader stays failed. */
    method NextRow() returns (r: RowRead)
      requires Valid()
      modifies this
      ensures Valid()
      ensures old(failed) ==> r == Refused && failed && Left() == old(Left())
      ensures !old(failed) ==> r == Next(old(Left()), limits) && failed == r.Refused?
      ensures !old(failed) && r.Got? ==> Left() == r.rest
    {
      if failed {
        return Refused;
      }
      var state, value, bytes := Start, [], 0;
      var fields: seq<Text> := [];
      while true
        invariant Valid() && !failed
        invariant Scan(Left(), state, fields, value, bytes, limits) == Next(old(Left()), limits)
        decreases |Left().Flat()|
      {
        if prefixOffset == |prefix| && stream == [] {
          if state == Quoted {
            failed := true;
            return Refused;
          }
          if bytes == 0 {
            return NoMore;
          }
          if |fields| >= limits.maxFields {
            failed := true;
            return Refused;
          }
          return Got(fields + [value], Source([], stream));
        }
        var ch;
        ch := Take();
        bytes := bytes + 1;
        if bytes > limits.maxBytes {
          failed := true;
          return Refused;
        }
        if state == Quoted {
          if ch == QUOTE {
            state := Closed;
          } else {
            value := value + [ch];
          }
          continue;
        }
        if state == Closed && ch == QUOTE {
          value, state := value + [ch], Quoted;
          continue;
        }
        if ch == COMMA {
          if |fields| >= limits.maxFields {
            failed := true;
            return Refused;
          }
          fields, value, state := fields + [value], [], Start;
          continue;
        }
        if ch == LF || ch == CR {
          if ch == CR && stream != [] && stream[0] == LF {
            stream := stream[1..];
          }
          if |fields| >= limits.maxFields {
            failed := true;
            return Refused;
          }
          return Got(fields + [value], Source(prefix[prefixOffset..], stream));
        }
        if state == Closed || (ch == QUOTE && state != Start) {
          failed := true;
          return Refused;
        }
        if ch == QUOTE {
          state := Quoted;
        } else {
          state, value := Unquoted, value + [ch];
        }
      }
    }

    /** The next byte: first what was given back, then the stream. */
    method Take() returns (ch: byte)
      requires Valid() && Left().Flat() != []
      modifies `prefixOffset, `stream
      ensures Valid() && (ch, Left()) == old(Left()).Get()
    {
      if prefixOffset < |prefix| {
        ch := prefix[prefixOffset];
        prefixOffset := prefixOffset + 1;
      } else {
        ch := stream[0];
        stream := stream[1..];
      }
    }
  }

  // ---------------------------------------------------------------- one field

  lemma ScanStep(ch: byte, tail: Text, state: State, fields: seq<Text>, value: Text, bytes: nat, limits: Limits)
    ensures Scan(Source([], [ch] + tail), state, fields, value, bytes, limits)
         == match Step(ch, state, fields, value, bytes, limits)
            case Reject => Refused
            case EndRow(all, afterCr) => Got(all, if afterCr then Source([], tail).SkipLf() else Source([], tail))
            case Go(state', fields', value') => Scan(Source([], tail), state', fields', value', bytes + 1, limits)
  {
    hide Step;
    var all := [ch] + tail;
    assert all[0] == ch && all[1..] == tail;
    assert Source([], all).Flat() == all;
  }

  /** A stretch of ordinary bytes ends up in the value. */
  lemma {:induction false} ScanPlain(field: Text, tail: Text, state: State, fields: seq<Text>, value: Text, bytes: nat,
                                     limits: Limits)
    requires Plain(field) && (state.Start? || state.Unquoted?)
    ensures Scan(Source([], field + tail), state, fields, value, bytes, limits)
         == if field != [] && bytes + |field| > limits.maxBytes then Refused
            else Scan(Source([], tail), if field == [] then state else Unquoted, fields, value + field,
                      bytes + |field|, limits)
  {
    hide Scan;
    if field == [] {
      assert field + tail == tail && value + field == value;
    } else {
      var ch, rest := field[0], field[1..];
      assert !Special(ch);
      assert field + tail == [ch] + (rest + tail);
      ScanStep(ch, rest + tail, state, fields, value, bytes, limits);
      assert value + field == value + [ch] + rest;
      if bytes + 1 <= limits.maxBytes {
        ScanPlain(rest, tail, Unquoted, fields, value + [ch], bytes + 1, limits);
      }
    }
  }

  lemma ScanOne(ch: byte, tail: Text, state: State, fields: seq<Text>, value: Text, bytes: nat, limits: Limits)
    requires bytes + 1 <= limits.maxBytes
    ensures var all := Source([], [ch] + tail);
      && (state.Quoted? && ch != QUOTE ==>
           Scan(all, state, fields, value, bytes, limits)
           == Scan(Source([], tail), Quoted, fields, value + [ch], bytes + 1, limits))
      && (state.Quoted? && ch == QUOTE ==>
           Scan(all, state, fields, value, bytes, limits)
           == Scan(Source([], tail), Closed, fields, value, bytes + 1, limits))
      && (state.Closed? && ch == QUOTE ==>
           Scan(all, state, fields, value, bytes, limits)
           == Scan(Source([], tail), Quoted, fields, value + [ch], bytes + 1, limits))
      && (state.Start? && ch == QUOTE ==>
           Scan(all, state, fields, value, bytes, limits)
           == Scan(Source([], tail), Quoted, fields, value, bytes + 1, limits))
  {
    hide Scan;
    ScanStep(ch, tail, state, fields, value, bytes, limits);
  }

  /** A row that is too long is refused wherever that shows. */
  lemma {:induction false} ScanTooLong(text: Text, state: State, fields: seq<Text>, value: Text, bytes: nat,
                                       limits: Limits)
    requires text != [] && bytes == limits.maxBytes
    ensures Scan(Source([], text), state, fields, value, bytes, limits) == Refused
  {
    assert Source([], text).Flat() == text;
  }

  /** What stands between the quotes ends up in the value with its doubled quotes undone. */
  lemma {:induction false} ScanDoubled(field: Text, tail: Text, fields: seq<Text>, value: Text, bytes: nat,
                                       limits: Limits)
    requires bytes <= limits.maxBytes
    ensures Scan(Source([], Doubled(field) + [QUOTE] + tail), Quoted, fields, value, bytes, limits)
         == if bytes + |Doubled(field)| + 1 > limits.maxBytes then Refused
            else Scan(Source([], tail), Closed, fields, value + field, bytes + |Doubled(field)| + 1, limits)
  {
    hide Scan;
    var text := Doubled(field) + [QUOTE] + tail;
    if bytes == limits.maxBytes {
      ScanTooLong(text, Quoted, fields, value, bytes, limits);
    } else if field == [] {
      assert text == [QUOTE] + tail && value + field == value;
      ScanOne(QUOTE, tail, Quoted, fields, value, bytes, limits);
    } else {
      var ch, rest := field[0], field[1..];
      var more := Doubled(rest) + [QUOTE] + tail;
      assert value + field == value + [ch] + rest;
      if ch == QUOTE {
        assert text == [QUOTE] + ([QUOTE] + more);
        ScanOne(QUOTE, [QUOTE] + more, Quoted, fields, value, bytes, limits);
        if bytes + 1 == limits.maxBytes {
          ScanTooLong([QUOTE] + more, Closed, fields, value, bytes + 1, limits);
        } else {
          ScanOne(QUOTE, more, Closed, fields, value, bytes + 1, limits);
          ScanDoubled(rest, tail, fields, value + [ch], bytes + 2, limits);
        }
      } else {
        assert text == [ch] + more;
        ScanOne(ch, more, Quoted, fields, value, bytes, limits);
        ScanDoubled(rest, tail, fields, value + [ch], bytes + 1, limits);
      }
    }
  }

  /** The state after a whole field. */
  function FieldEnd(field: Text): State {
    if field == [] then Start else if Plain(field) then Unquoted else Closed
  }

  lemma ScanField(field: Text, tail: Text, fields: seq<Text>, bytes: nat, limits: Limits)
    requires bytes <= limits.maxBytes
    ensures Scan(Source([], Escaped(field) + tail), Start, fields, [], bytes, limits)
         == if bytes + |Escaped(field)| > limits.maxBytes then Refused
            else Scan(Source([], tail), FieldEnd(field), fields, field, bytes + |Escaped(field)|, limits)
  {
    hide Scan, Doubled, Special;
    assert [] + field == field;
    if Plain(field) {
      ScanPlain(field, tail, Start, fields, [], bytes, limits);
    } else {
      var inner := Doubled(field) + [QUOTE] + tail;
      assert Escaped(field) + tail == [QUOTE] + inner;
      if bytes == limits.maxBytes {
        ScanTooLong([QUOTE] + inner, Start, fields, [], bytes, limits);
      } else {
        ScanOne(QUOTE, inner, Start, fields, [], bytes, limits);
        ScanDoubled(field, tail, fields, [], bytes + 1, limits);
      }
    }
  }

  // ---------------------------------------------------------------- one row

  lemma ScanEnd(ch: byte, tail: Text, state: State, fields: seq<Text>, value: Text, bytes: nat, limits: Limits)
    requires !state.Quoted? && (ch == COMMA || ch == LF)
    ensures Scan(Source([], [ch] + tail), state, fields, value, bytes, limits)
         == if bytes + 1 > limits.maxBytes || |fields| >= limits.maxFields then Refused
            else if ch == COMMA then Scan(Source([], tail), Start, fields + [value], [], bytes + 1, limits)
            else Got(fields + [value], Source([], tail))
  {
    hide Scan;
    ScanStep(ch, tail, state, fields, value, bytes, limits);
  }

  lemma {:induction false} RowBack(fields: seq<Text>, tail: Text, done: seq<Text>, bytes: nat, limits: Limits)
    requires fields != [] && bytes <= limits.maxBytes
    ensures Scan(Source([], RowForm(fields) + tail), Start, done, [], bytes, limits)
         == if bytes + |RowForm(fields)| > limits.maxBytes || |done| + |fields| > limits.maxFields then Refused
            else Got(done + fields, Source([], tail))
    decreases |fields|
  {
    hide Scan, Escaped;
    var f, rest := fields[0], fields[1..];
    if rest == [] {
      assert fields == [f];
      assert RowForm(fields) + tail == Escaped(f) + ([LF] + tail);
      ScanField(f, [LF] + tail, done, bytes, limits);
      ScanEnd(LF, tail, FieldEnd(f), done, f, bytes + |Escaped(f)|, limits);
    } else {
      var more := RowForm(rest) + tail;
      assert RowForm(fields) + tail == Escaped(f) + ([COMMA] + more);
      ScanField(f, [COMMA] + more, done, bytes, limits);
      var at := bytes + |Escaped(f)|;
      if at <= limits.maxBytes {
        ScanEnd(COMMA, more, FieldEnd(f), done, f, at, limits);
        if at + 1 <= limits.maxBytes {
          RowBack(rest, tail, done + [f], at + 1, limits);
          assert done + [f] + rest == done + fields;
        }
      }
    }
  }

  /** Reading a row the writer wrote gives its fields back and leaves what follows, exactly when the row is
    * not longer and has no more fields than the reader allows. */
  lemma RowRoundTrip(fields: seq<Text>, tail: Text, limits: Limits)
    requires fields != []
    ensures Next(Source([], RowForm(fields) + tail), limits)
         == if |RowForm(fields)| > limits.maxBytes || |fields| > limits.maxFields then Refused
            else Got(fields, Source([], tail))
  {
    RowBack(fields, tail, [], 0, limits);
    assert [] + fields == fields;
  }

  // ---------------------------------------------------------------- bytes given back

  predicate SameRead(a: RowRead, b: RowRead) {
    match a
    case NoMore => b.NoMore?
    case Refused => b.Refused?
    case Got(fields, rest) => b.Got? && b.fields == fields && b.rest.Flat() == rest.Flat()
  }

  /** As long as the bytes given back are safe they read like the stream itself. */
  lemma {:induction false} PrefixSame(prefix: Text, stream: Text, state: State, fields: seq<Text>, value: Text,
                                      bytes: nat, limits: Limits)
    requires Safe(prefix)
    ensures SameRead(Scan(Source(prefix, stream), state, fields, value, bytes, limits),
                     Scan(Source([], prefix + stream), state, fields, value, bytes, limits))
    decreases |prefix|
  {
    if prefix == [] {
      assert prefix + stream == stream;
    } else {
      var ch, rest := prefix[0], prefix[1..];
      assert (prefix + stream)[0] == ch && (prefix + stream)[1..] == rest + stream;
      assert Safe(rest);
      var next, flat := Source(rest, stream), Source([], rest + stream);
      assert Source(prefix, stream).Get() == (ch, next);
      assert Source([], prefix + stream).Get() == (ch, flat);
      match Step(ch, state, fields, value, bytes, limits)
      case Go(state', fields', value') => PrefixSame(rest, stream, state', fields', value', bytes + 1, limits);
      case EndRow(all, afterCr) =>
        if rest == [] {
          assert flat == next;
        }
      case Reject =>
    }
  }

  /** Inputs whose first row the reader does not take from the stream as it stands: a carriage return comes
    * second among three bytes given back, so that the line feed is looked for one byte too late. */
  predicate Swallows(input: Text) {
    && |input| >= 3 && input[0] == 0xEF && input[1] == CR
    && ((input[2] == LF) != (|input| > 3 && input[3] == LF))
  }

  /** A first row of the byte EF alone, ended by a carriage return. */
  lemma TwoBytes(prefix: Text, stream: Text, limits: Limits)
    requires limits.maxBytes >= 2 && limits.maxFields >= 1
    requires [0xEF, CR] <= prefix || (prefix == [] && [0xEF, CR] <= stream)
    ensures Next(Source(prefix, stream), limits)
         == Got([[0xEF]], (if prefix == [] then Source([], stream[2..]) else Source(prefix[2..], stream)).SkipLf())
  {
    var source := Source(prefix, stream);
    var first := if prefix == [] then Source([], stream[1..]) else Source(prefix[1..], stream);
    var second := if prefix == [] then Source([], stream[2..]) else Source(prefix[2..], stream);
    assert source.Get() == (0xEF, first) && source.Flat() != [];
    assert first.Get() == (CR, second) && first.Flat() != [];
    assert [] + [0xEF as byte] == [0xEF];
    assert Step(0xEF, Start, [], [], 0, limits) == Go(Unquoted, [], [0xEF]);
    assert Step(CR, Unquoted, [], [0xEF], 1, limits) == EndRow([[0xEF]], true);
    assert Scan(first, Unquoted, [], [0xEF], 1, limits) == Got([[0xEF]], second.SkipLf());
  }

  lemma OpenTwo(input: Text, limits: Limits)
    requires |input| >= 2 && input[0] == 0xEF && input[1] == CR
    requires limits.maxBytes >= 2 && limits.maxFields >= 1
    ensures Next(Open(input), limits)
         == Got([[0xEF]], Source(if |input| > 2 then [input[2]] else [],
                                 if |input| > 3 then (if input[3] == LF then input[4..] else input[3..]) else []))
    ensures Next(Source([], input), limits)
         == Got([[0xEF]], Source([], if |input| > 2 && input[2] == LF then input[3..] else input[2..]))
  {
    var n := if |input| < 3 then |input| else 3;
    assert input[..n] == [0xEF, CR] + (if |input| > 2 then [input[2]] else []);
    assert Open(input) == Source(input[..n], input[n..]);
    TwoBytes(input[..n], input[n..], limits);
    TwoBytes([], input, limits);
    assert input == [0xEF, CR] + input[2..];
  }

  /** Opening a stream that has no byte order mark leaves its first row as it is, except in exactly the
    * inputs above; a reader that allows a row one byte refuses either way. */
  lemma OpenReads(input: Text, limits: Limits)
    requires !(MARK <= input)
    requires limits.maxBytes >= 1 && limits.maxFields >= 1
    ensures SameRead(Next(Open(input), limits), Next(Source([], input), limits))
      <==> limits.maxBytes == 1 || !Swallows(input)
  {
    var source := Open(input);
    if input != [] && input[0] == 0xEF {
      var n := if |input| < 3 then |input| else 3;
      assert source == Source(input[..n], input[n..]);
      assert input[..n] + input[n..] == input;
      if |input| >= 2 && input[1] == CR {
        if limits.maxBytes == 1 {
          OneByte(source, limits);
          OneByte(Source([], input), limits);
        } else {
          OpenTwo(input, limits);
          if |input| >= 3 {
            OpenTail(input);
          }
        }
      } else {
        PrefixSame(input[..n], input[n..], Start, [], [], 0, limits);
      }
    }
  }

  lemma OneByte(source: Source, limits: Limits)
    requires limits.maxBytes == 1 && [0xEF, CR] <= source.Flat()
    ensures Next(source, limits) == Refused
  {
    var (ch, next) := source.Get();
    assert ch == source.Flat()[0] == 0xEF && next.Flat() != [];
    assert Step(ch, Start, [], [], 0, limits) == Go(Unquoted, [], [] + [0xEF]);
    assert Step(next.Get().0, Unquoted, [], [] + [0xEF], 1, limits).Reject?;
    assert Scan(next, Unquoted, [], [] + [0xEF], 1, limits) == Refused;
  }

  lemma OpenTail(input: Text)
    requires |input| >= 3
    ensures var late := [input[2]] + if |input| > 3 then (if input[3] == LF then input[4..] else input[3..]) else [];
      late == (if input[2] == LF then input[3..] else input[2..])
      <==> (input[2] == LF) == (|input| > 3 && input[3] == LF)
  {
    assert input[2..] == [input[2]] + input[3..];
    if |input| > 3 {
      assert input[3..] == [input[3]] + input[4..];
    }
  }

  /** For instance here the reader takes the line feed that ends the second row. */
  lemma OpenSwallows()
    ensures var input: Text := [0xEF, CR, 65, LF];
      && Next(Open(input), DEFAULTS) == Got([[0xEF]], Source([65], []))
      && Next(Source([], input), DEFAULTS) == Got([[0xEF]], Source([], [65, LF]))
  {
    OpenTwo([0xEF, CR, 65, LF], DEFAULTS);
  }

  // ---------------------------------------------------------------- whole files

  /** All rows read until the input ends or is refused. */
  datatype Table = Table(rows: seq<seq<Text>>, complete: bool)

  function AllRows(source: Source, limits: Limits): Table
    decreases |source.Flat()|
  {
    ScanLeaves(source, Start, [], [], 0, limits);
    match Next(source, limits)
    case NoMore => Table([], true)
    case Refused => Table([], false)
    case Got(fields, rest) =>
      var later := AllRows(rest, limits);
      Table([fields] + later.rows, later.complete)
  }

  function Forms(rows: seq<seq<Text>>): Text {
    if rows == [] then [] else RowForm(rows[0]) + Forms(rows[1..])
  }

  predicate Readable(fields: seq<Text>, limits: Limits) {
    fields != [] && |RowForm(fields)| <= limits.maxBytes && |fields| <= limits.maxFields
  }

  lemma EmptyRow(tail: Text, limits: Limits)
    ensures RowForm([]) == [LF]
    ensures Next(Source([], [LF] + tail), limits)
         == if limits.maxBytes == 0 || limits.maxFields == 0 then Refused else Got([[]], Source([], tail))
  {
    ScanEnd(LF, tail, Start, [], [], 0, limits);
  }

  lemma {:induction false} RowsBack(rows: seq<seq<Text>>, limits: Limits)
    ensures AllRows(Source([], Forms(rows)), limits) == Table(rows, true)
      <==> forall r :: r in rows ==> Readable(r, limits)
    decreases |rows|
  {
    hide Scan, Joined;
    if rows == [] {
      NothingLeft(limits);
    } else {
      var tail := Forms(rows[1..]);
      RowsBack(rows[1..], limits);
      assert rows[0] in rows && rows == [rows[0]] + rows[1..];
      if rows[0] == [] {
        EmptyRow(tail, limits);
      } else {
        RowRoundTrip(rows[0], tail, limits);
      }
    }
  }

  lemma NothingLeft(limits: Limits)
    ensures Next(Source([], []), limits) == NoMore
  {
    assert Source([], []).Flat() == [];
  }

  lemma {:induction false} AllRowsFlat(source: Source, limits: Limits)
    requires Safe(source.prefix)
    ensures AllRows(source, limits) == AllRows(Source([], source.Flat()), limits)
    decreases |source.Flat()|
  {
    hide Scan;
    var plain := Source([], source.Flat());
    PrefixSame(source.prefix, source.stream, Start, [], [], 0, limits);
    ScanLeaves(source, Start, [], [], 0, limits);
    ScanLeaves(plain, Start, [], [], 0, limits);
    match Next(source, limits)
    case Got(fields, rest) =>
      AllRowsFlat(rest, limits);
      var flat := Next(plain, limits).rest;
      assert flat == Source([], rest.Flat());
    case _ =>
  }

  lemma {:induction false} RowStart(fields: seq<Text>)
    ensures RowForm(fields) != [] && RowForm(fields)[0] != CR
  {
    if fields != [] && fields[0] == [] {
      if |fields| > 1 {
        assert Joined(fields)[0] == COMMA;
      }
    }
  }

  /** The writer's bytes are never unsafe to give back. */
  lemma FormsSafe(rows: seq<seq<Text>>)
    ensures var text := Forms(rows);
      forall n :: 0 <= n <= 3 && n <= |text| && text != [] && text[0] == 0xEF ==> Safe(text[..n])
  {
    var text := Forms(rows);
    if text != [] && text[0] == 0xEF {
      SecondByte(rows);
    }
  }

  lemma SecondByte(rows: seq<seq<Text>>)
    requires Forms(rows) != [] && Forms(rows)[0] == 0xEF
    ensures |Forms(rows)| > 1 ==> Forms(rows)[1] != CR
  {
    hide Joined;
    var row, later := rows[0], Forms(rows[1..]);
    RowHead(row);
    assert row != [] && row[0] != [] && Plain(row[0]) && row[0][0] == 0xEF;
    assert RowForm(row)[0..] == RowForm(row);
    if |row[0]| > 1 {
      assert RowForm(row)[1] == row[0][1];
      assert !Special(row[0][1]);
    } else {
      assert RowForm(row)[1] == LF || RowForm(row)[1] == COMMA;
    }
  }

  /** How a row begins. */
  lemma RowHead(fields: seq<Text>)
    ensures fields == [] ==> RowForm(fields) == [LF]
    ensures fields != [] && !Plain(fields[0]) ==> RowForm(fields)[0] == QUOTE
    ensures fields != [] && Plain(fields[0]) ==>
      && |fields[0]| < |RowForm(fields)| && fields[0] <= RowForm(fields)
      && RowForm(fields)[|fields[0]|] == (if |fields| == 1 then LF else COMMA)
      && (|fields| == 1 ==> |RowForm(fields)| == |fields[0]| + 1)
  {
  }

  /** Reading back a written file gives exactly its rows, if and only if every row has a field and is within
    * the reader's limits and the file does not begin with the bytes of a byte order mark. */
  lemma FileRoundTrip(rows: seq<seq<Text>>, limits: Limits)
    ensures AllRows(Open(Forms(rows)), limits) == Table(rows, true)
      <==> (forall r :: r in rows ==> Readable(r, limits)) && !(MARK <= Forms(rows))
  {
    hide Scan, Joined, AllRows, Forms, Safe;
    var text := Forms(rows);
    if MARK <= text {
      MarkLost(rows, limits);
    } else {
      FormsSafe(rows);
      RowsBack(rows, limits);
      var source := Open(text);
      SafeEnds();
      assert source.Flat() == text;
      AllRowsFlat(source, limits);
    }
  }

  lemma SafeEnds()
    ensures Safe([])
  {
  }

  lemma MarkLost(rows: seq<seq<Text>>, limits: Limits)
    requires MARK <= Forms(rows)
    ensures AllRows(Open(Forms(rows)), limits) != Table(rows, true)
  {
    hide Scan, Joined;
    var text := Forms(rows);
    assert text[0] == 0xEF && text[1] == 0xBB && text[2] == 0xBF;
    assert text[..3] == MARK;
    var row, later := rows[0], Forms(rows[1..]);
    RowHead(row);
    var f := row[0];
    assert |f| >= 3 by {
      assert forall i :: 0 <= i < |RowForm(row)| ==> text[i] == RowForm(row)[i];
    }
    var cut := [f[3..]] + row[1..];
    assert Plain(f[3..]);
    CutFront(row, 3);
    assert text[3..] == RowForm(cut) + later;
    RowRoundTrip(cut, later, limits);
    assert |cut[0]| < |row[0]|;
  }

  lemma CutFront(row: seq<Text>, n: nat)
    requires row != [] && Plain(row[0]) && n <= |row[0]|
    ensures n <= |RowForm(row)| && RowForm(row)[n..] == RowForm([row[0][n..]] + row[1..])
  {
    assert Plain(row[0][n..]);
    var cut := [row[0][n..]] + row[1..];
    assert cut[1..] == row[1..];
  }

  // ---------------------------------------------------------------- whole tables after opening

  /** What has been read of the first field stays its beginning. */
  lemma {:induction false} ScanKeeps(source: Source, state: State, fields: seq<Text>, value: Text, bytes: nat,
                                     limits: Limits)
    ensures var r := Scan(source, state, fields, value, bytes, limits);
      r.Got? && fields == [] ==> r.fields != [] && value <= r.fields[0]
    decreases |source.Flat()|
  {
    if source.Flat() != [] {
      var (ch, next) := source.Get();
      match Step(ch, state, fields, value, bytes, limits)
      case Go(state', fields', value') =>
        ScanKeeps(next, state', fields', value', bytes + 1, limits);
        ScanLeaves(next, state', fields', value', bytes + 1, limits);
      case _ =>
    }
  }

  /** A row reads the same without its first field and the comma after it, if it may be as long and as wide. */
  lemma {:induction false} DropField(source: Source, state: State, f: Text, fields: seq<Text>, value: Text, bytes: nat,
                                     limits: Limits)
    requires source.Flat() != [] || bytes > 0
    ensures var r := Scan(source, state, [f] + fields, value, bytes + 1, limits);
      r.Got? ==> r.fields != [] && Scan(source, state, fields, value, bytes, limits) == Got(r.fields[1..], r.rest)
    decreases |source.Flat()|
  {
    assert [f] + fields + [value] == [f] + (fields + [value]);
    if source.Flat() != [] {
      var (ch, next) := source.Get();
      match Step(ch, state, fields, value, bytes, limits)
      case Go(state', fields', value') => DropField(next, state', f, fields', value', bytes + 1, limits);
      case _ =>
    }
  }

  /** The fields read so far with a line feed before the first. */
  function Fed(fields: seq<Text>): seq<Text> {
    if fields == [] then [] else [[LF] + fields[0]] + fields[1..]
  }

  function FedValue(fields: seq<Text>, value: Text): Text {
    if fields == [] then [LF] + value else value
  }

  /** One byte more in front of the first field shows in it, if the row is read at all. */
  lemma {:induction false} FeedShows(source: Source, state: State, fields: seq<Text>, value: Text, bytes: nat,
                                     limits: Limits)
    requires bytes > 0
    ensures var r := Scan(source, state, fields, value, bytes, limits);
      var fed := Scan(source, state, Fed(fields), FedValue(fields, value), bytes + 1, limits);
      && !r.NoMore?
      && (r.Refused? ==> fed.Refused?)
      && (r.Got? ==> fed.Refused? || (fed.Got? && fed.fields != [] && r.fields != [] && fed.fields[0] == [LF] + r.fields[0]))
    decreases |source.Flat()|
  {
    assert Fed(fields) + [FedValue(fields, value)] == Fed(fields + [value]);
    if source.Flat() != [] {
      var (ch, next) := source.Get();
      assert fields == [] ==> FedValue(fields, value) + [ch] == FedValue(fields, value + [ch]);
      match Step(ch, state, fields, value, bytes, limits)
      case Go(state', fields', value') => FeedShows(next, state', fields', value', bytes + 1, limits);
      case _ =>
    }
  }

  /** Whether losing the line feed between `c` and `rest` shows in the rows read. */
  predicate Shows(c: byte, rest: Text, limits: Limits) {
    if c == CR then rest != [] && rest[0] == LF
    else if c == QUOTE then !Next(Source([], [QUOTE] + rest), limits).Refused?
    else if c == COMMA then limits.maxFields > 1 && rest != []
    else rest != []
  }

  lemma EmptyFirst(tail: Text, limits: Limits)
    requires limits.maxBytes >= 1 && limits.maxFields >= 1
    ensures AllRows(Source([], [LF] + tail), limits)
         == Table([[[]]] + AllRows(Source([], tail), limits).rows, AllRows(Source([], tail), limits).complete)
  {
    hide Scan;
    EmptyRow(tail, limits);
  }

  lemma SeamReturn(rest: Text, limits: Limits)
    requires limits.maxBytes >= 1 && limits.maxFields >= 1
    ensures AllRows(Source([], [CR] + rest), limits) == AllRows(Source([], [CR, LF] + rest), limits)
      <==> !Shows(CR, rest, limits)
  {
    hide Scan;
    assert [CR, LF] + rest == [CR] + ([LF] + rest);
    ScanStep(CR, rest, Start, [], [], 0, limits);
    ScanStep(CR, [LF] + rest, Start, [], [], 0, limits);
    if rest != [] && rest[0] == LF {
      assert rest == [LF] + rest[1..];
      assert Source([], rest).SkipLf() == Source([], rest[1..]) && Source([], [LF] + rest).SkipLf() == Source([], rest);
      EmptyFirst(rest[1..], limits);
      assert |AllRows(Source([], [CR, LF] + rest), limits).rows| == |AllRows(Source([], [CR] + rest), limits).rows| + 1;
    }
  }

  lemma SeamQuote(rest: Text, limits: Limits)
    requires limits.maxBytes >= 2 && limits.maxFields >= 1
    ensures AllRows(Source([], [QUOTE] + rest), limits) == AllRows(Source([], [QUOTE, LF] + rest), limits)
      <==> !Shows(QUOTE, rest, limits)
  {
    hide Scan;
    assert [QUOTE, LF] + rest == [QUOTE] + ([LF] + rest) && [] + [LF] == [LF] + [];
    ScanOne(QUOTE, rest, Start, [], [], 0, limits);
    ScanOne(QUOTE, [LF] + rest, Start, [], [], 0, limits);
    ScanOne(LF, rest, Quoted, [], [], 1, limits);
    FeedShows(Source([], rest), Quoted, [], [], 1, limits);
    var a, b := AllRows(Source([], [QUOTE] + rest), limits), AllRows(Source([], [QUOTE, LF] + rest), limits);
    assert a.rows != [] && b.rows != [] ==> |b.rows[0][0]| == |a.rows[0][0]| + 1;
  }

  lemma SeamComma(rest: Text, limits: Limits)
    requires limits.maxBytes >= 2 && limits.maxFields >= 1
    ensures AllRows(Source([], [COMMA] + rest), limits) == AllRows(Source([], [COMMA, LF] + rest), limits)
      <==> !Shows(COMMA, rest, limits)
  {
    hide Scan;
    var empty: Text := [];
    assert [COMMA, LF] + rest == [COMMA] + ([LF] + rest) && [] + [empty] == [empty];
    ScanEnd(COMMA, rest, Start, [], [], 0, limits);
    ScanEnd(COMMA, [LF] + rest, Start, [], [], 0, limits);
    ScanEnd(LF, rest, Start, [empty], [], 1, limits);
    if limits.maxFields == 1 {
      ScanLeaves(Source([], rest), Start, [empty], [], 1, limits);
      TooWide(Source([], rest), Start, [empty], [], 1, limits);
    } else if rest == [] {
      ScanNothing(Start, [empty], [], 1, limits);
    } else {
      DropField(Source([], rest), Start, [], [], [], 0, limits);
      assert [empty] + [] == [empty];
      CommaTables(Source([], rest), limits, AllRows(Source([], [COMMA] + rest), limits));
      assert AllRows(Source([], [COMMA, LF] + rest), limits).rows == [[empty] + [empty]] + AllRows(Source([], rest), limits).rows;
    }
  }

  /** Of a table whose first row is `source` read on after a comma, no row can be spared. */
  lemma CommaTables(source: Source, limits: Limits, table: Table)
    requires var empty: Text := [];
      var r := Scan(source, Start, [empty], [], 1, limits);
      && (r.Got? ==> Next(source, limits).Got? && Next(source, limits).rest == r.rest
                     && table.rows == [r.fields] + AllRows(r.rest, limits).rows)
      && (!r.Got? ==> table.rows == [])
    ensures |table.rows| <= |AllRows(source, limits).rows|
  {
    hide Scan;
  }

  lemma {:induction false} TooWide(source: Source, state: State, fields: seq<Text>, value: Text, bytes: nat, limits: Limits)
    requires |fields| == limits.maxFields && bytes > 0
    ensures Scan(source, state, fields, value, bytes, limits) == Refused
    decreases |source.Flat()|
  {
    if source.Flat() != [] {
      var (ch, next) := source.Get();
      match Step(ch, state, fields, value, bytes, limits)
      case Go(state', fields', value') => TooWide(next, state', fields', value', bytes + 1, limits);
      case _ =>
    }
  }

  lemma SeamPlain(c: byte, rest: Text, limits: Limits)
    requires c != CR && c != LF && c != QUOTE && c != COMMA
    requires limits.maxBytes >= 2 && limits.maxFields >= 1
    ensures AllRows(Source([], [c] + rest), limits) == AllRows(Source([], [c, LF] + rest), limits)
      <==> !Shows(c, rest, limits)
  {
    hide Scan;
    assert [c, LF] + rest == [c] + ([LF] + rest) && [] + [c] == [c] && [] + [[c]] == [[c]];
    ScanStep(c, rest, Start, [], [], 0, limits);
    ScanStep(c, [LF] + rest, Start, [], [], 0, limits);
    ScanEnd(LF, rest, Unquoted, [], [c], 1, limits);
    if rest == [] {
      ScanNothing(Unquoted, [], [c], 1, limits);
    } else {
      var d, later := rest[0], rest[1..];
      assert rest == [d] + later;
      var a, b := AllRows(Source([], [c] + rest), limits), AllRows(Source([], [c, LF] + rest), limits);
      assert b.rows == [[[c]]] + AllRows(Source([], rest), limits).rows;
      if d == LF || d == CR {
        BlankFirst(d, later, c, limits);
        assert |b.rows| == |a.rows| + 1;
      } else {
        NotAlone(c, d, later, limits);
        assert b.rows[0] == [[c]] && (a.rows == [] || a.rows[0] != [[c]]);
      }
    }
  }

  /** A line end ends a row begun with `c`, and otherwise is a row of its own. */
  lemma BlankFirst(d: byte, later: Text, c: byte, limits: Limits)
    requires (d == LF || d == CR) && limits.maxBytes >= 2 && limits.maxFields >= 1
    ensures var rest := if d == CR then Source([], later).SkipLf() else Source([], later);
      && Scan(Source([], [d] + later), Unquoted, [], [c], 1, limits) == Got([[c]], rest)
      && AllRows(Source([], [d] + later), limits).rows == [[[]]] + AllRows(rest, limits).rows
  {
    hide Scan;
    ScanStep(d, later, Unquoted, [], [c], 1, limits);
    ScanStep(d, later, Start, [], [], 0, limits);
    var empty: Text := [];
    assert [] + [[c]] == [[c]] && [] + [empty] == [empty];
    assert Next(Source([], [d] + later), limits).Got? && Next(Source([], [d] + later), limits).fields == [empty];
  }

  /** A byte that ends no row either spoils the row or shows in it. */
  lemma NotAlone(c: byte, d: byte, later: Text, limits: Limits)
    requires d != LF && d != CR && limits.maxBytes >= 2 && limits.maxFields >= 1
    ensures var r := Scan(Source([], [d] + later), Unquoted, [], [c], 1, limits);
      r.Refused? || (r.Got? && r.fields != [[c]])
  {
    hide Scan;
    ScanStep(d, later, Unquoted, [], [c], 1, limits);
    assert [] + [[c]] == [[c]] && [c] + [d] == [c, d];
    if d == COMMA {
      ScanLeaves(Source([], later), Start, [[c]], [], 2, limits);
    } else if d != QUOTE {
      ScanLeaves(Source([], later), Unquoted, [], [c, d], 2, limits);
      ScanKeeps(Source([], later), Unquoted, [], [c, d], 2, limits);
    }
  }

  /** Whether the rows read after opening differ from those of the input as it stands. */
  predicate Garbled(input: Text, limits: Limits) {
    && limits.maxBytes >= 2 && Swallows(input)
    && (input[2] == LF || Shows(input[2], input[4..], limits))
  }

  /** Opening a stream that has no byte order mark leaves all its rows as they are, except in exactly the
    * inputs above. */
  lemma OpenAllRows(input: Text, limits: Limits)
    requires !(MARK <= input)
    requires limits.maxBytes >= 1 && limits.maxFields >= 1
    ensures AllRows(Open(input), limits) == AllRows(Source([], input), limits) <==> !Garbled(input, limits)
  {
    hide Scan, AllRows, Shows;
    var source := Open(input);
    if input != [] && input[0] == 0xEF {
      var n := if |input| < 3 then |input| else 3;
      assert source == Source(input[..n], input[n..]);
      assert input[..n] + input[n..] == input;
      if |input| < 2 || input[1] != CR {
        AllRowsFlat(source, limits);
      } else if limits.maxBytes == 1 {
        OneByte(source, limits);
        OneByte(Source([], input), limits);
        RefusedTable(source, limits);
        RefusedTable(Source([], input), limits);
      } else {
        OpenSecond(input, limits);
      }
    }
  }

  lemma RefusedTable(source: Source, limits: Limits)
    requires Next(source, limits).Refused?
    ensures AllRows(source, limits) == Table([], false)
  {
    hide Scan;
  }

  lemma GotTable(source: Source, limits: Limits)
    requires Next(source, limits).Got?
    ensures var r := Next(source, limits);
      && r.rest.Flat() != source.Flat()
      && AllRows(source, limits)
         == Table([r.fields] + AllRows(r.rest, limits).rows, AllRows(r.rest, limits).complete)
  {
    hide Scan;
    ScanLeaves(source, Start, [], [], 0, limits);
  }

  lemma OpenSecond(input: Text, limits: Limits)
    requires |input| >= 2 && input[0] == 0xEF && input[1] == CR
    requires limits.maxBytes >= 2 && limits.maxFields >= 1
    ensures AllRows(Open(input), limits) == AllRows(Source([], input), limits) <==> !Garbled(input, limits)
  {
    hide Scan, AllRows, Shows;
    OpenTwo(input, limits);
    GotTable(Open(input), limits);
    GotTable(Source([], input), limits);
    var late, flat := Next(Open(input), limits).rest, Next(Source([], input), limits).rest;
    AllRowsFlat(late, limits);
    assert AllRows(Open(input), limits) == AllRows(Source([], input), limits)
      <==> AllRows(late, limits) == AllRows(flat, limits) by {
      TableTail([[0xEF]], AllRows(late, limits), AllRows(flat, limits));
    }
    if |input| == 2 {
      assert late == flat;
    } else if !Swallows(input) {
      OpenTail(input);
      assert late.Flat() == flat.Flat();
    } else if input[2] == LF {
      assert late.Flat() == [LF] + input[3..];
      EmptyFirst(input[3..], limits);
    } else {
      var c, rest := input[2], input[4..];
      assert late.Flat() == [c] + rest;
      assert input[2..] == [c, LF] + rest;
      if c == CR {
        SeamReturn(rest, limits);
      } else if c == QUOTE {
        SeamQuote(rest, limits);
      } else if c == COMMA {
        SeamComma(rest, limits);
      } else {
        SeamPlain(c, rest, limits);
      }
    }
  }

  lemma TableTail(row: seq<Text>, a: Table, b: Table)
    ensures Table([row] + a.rows, a.complete) == Table([row] + b.rows, b.complete) <==> a == b
  {
    assert ([row] + a.rows)[1..] == a.rows && ([row] + b.rows)[1..] == b.rows;
  }

  // ---------------------------------------------------------------- cut files

  /** A row that ended before its input did is not changed by more input. */
  lemma {:induction false} ScanExtends(text: Text, more: Text, state: State, fields: seq<Text>, value: Text, bytes: nat,
                                       limits: Limits)
    ensures var r := Scan(Source([], text), state, fields, value, bytes, limits);
      r.Got? && r.rest.Flat() != [] ==>
        Scan(Source([], text + more), state, fields, value, bytes, limits)
        == Got(r.fields, Source([], r.rest.Flat() + more))
    decreases |text|
  {
    hide Step;
    if text == [] {
      assert Source([], text).Flat() == [];
    } else {
      var ch, rest := text[0], text[1..];
      assert text == [ch] + rest && text + more == [ch] + (rest + more);
      ScanStep(ch, rest, state, fields, value, bytes, limits);
      ScanStep(ch, rest + more, state, fields, value, bytes, limits);
      match Step(ch, state, fields, value, bytes, limits)
      case Go(state', fields', value') => ScanExtends(rest, more, state', fields', value', bytes + 1, limits);
      case _ =>
    }
  }

  /** What may be read of a row whose end is missing. */
  predicate Begun(part: seq<Text>, whole: seq<Text>) {
    && part != [] && whole != []
    && (part[0] == whole[0] || (|part| == 1 && part[0] <= whole[0]))
  }

  lemma ScanNothing(state: State, fields: seq<Text>, value: Text, bytes: nat, limits: Limits)
    requires !state.Quoted? && bytes > 0
    ensures Scan(Source([], []), state, fields, value, bytes, limits)
         == if |fields| >= limits.maxFields then Refused else Got(fields + [value], Source([], []))
  {
    assert Source([], []).Flat() == [];
  }

  /** What is read of a row cut short uses up the input. */
  lemma CutUsesAll(fields: seq<Text>, n: nat, limits: Limits)
    requires Readable(fields, limits) && n < |RowForm(fields)|
    ensures var r := Next(Source([], RowForm(fields)[..n]), limits);
      r.Got? ==> r.rest.Flat() == []
  {
    hide Scan, Joined;
    var form := RowForm(fields);
    assert form[..n] + form[n..] == form && form + [] == form;
    RowRoundTrip(fields, [], limits);
    ScanExtends(form[..n], form[n..], Start, [], [], 0, limits);
  }

  /** Whatever follows the first separator, the first field is kept. */
  lemma FirstKept(f: Text, rest: Text, limits: Limits)
    requires Plain(f) && |f| + 1 <= limits.maxBytes && limits.maxFields > 0
    ensures var r := Next(Source([], f + ([COMMA] + rest)), limits);
      r.Refused? || (r.Got? && r.fields != [] && r.fields[0] == f)
  {
    hide Scan;
    assert [] + f == f && [] + [f] == [f];
    ScanPlain(f, [COMMA] + rest, Start, [], [], 0, limits);
    ScanEnd(COMMA, rest, if f == [] then Start else Unquoted, [], f, |f|, limits);
    ScanLeaves(Source([], rest), Start, [f], [], |f| + 1, limits);
  }

  /** A row cut short is refused, or read as one that uses up the input and begins like the row. */
  lemma CutRow(fields: seq<Text>, n: nat, limits: Limits)
    requires Readable(fields, limits) && Plain(fields[0])
    requires 0 < n < |RowForm(fields)|
    ensures var r := Next(Source([], RowForm(fields)[..n]), limits);
      r.Refused? || (r.Got? && r.rest.Flat() == [] && Begun(r.fields, fields))
  {
    hide Scan, Joined, Next;
    var form, f := RowForm(fields), fields[0];
    var text := form[..n];
    CutUsesAll(fields, n, limits);
    RowHead(fields);
    if n <= |f| {
      assert text == f[..n];
      PlainAtEnd(text, limits);
    } else {
      var rest := text[|f| + 1..];
      assert text[|f|] == form[|f|] == COMMA;
      assert text == f + ([COMMA] + rest);
      FirstKept(f, rest, limits);
    }
  }

  /** A row of two plain fields cut short: a beginning of the first field, or all of it and a beginning of the
    * second. */
  lemma CutPair(a: Text, b: Text, n: nat, limits: Limits)
    requires Plain(a) && Plain(b) && a != [] && Readable([a, b], limits)
    requires 0 < n < |RowForm([a, b])|
    ensures RowForm([a, b]) == a + [COMMA] + b + [LF]
    ensures |a| < n ==> n - |a| - 1 <= |b|
    ensures Next(Source([], RowForm([a, b])[..n]), limits)
         == if n <= |a| then Got([a[..n]], Source([], [])) else Got([a, b[..n - |a| - 1]], Source([], []))
  {
    hide Scan, Joined;
    var form := RowForm([a, b]);
    PairForm(a, b);
    if n <= |a| {
      assert form[..n] == a[..n];
      PlainAtEnd(a[..n], limits);
    } else {
      var rest := b[..n - |a| - 1];
      CutPairText(a, b, n);
      PairAtEnd(a, rest, limits);
    }
  }

  lemma PairForm(a: Text, b: Text)
    requires Plain(a) && Plain(b)
    ensures RowForm([a, b]) == a + [COMMA] + b + [LF]
  {
    assert [a, b][1..] == [b];
    assert Joined([b]) == b;
    assert Joined([a, b]) == a + [COMMA] + b;
  }

  lemma CutPairText(a: Text, b: Text, n: nat)
    requires |a| < n < |a + [COMMA] + b + [LF]|
    ensures (a + [COMMA] + b + [LF])[..n] == a + ([COMMA] + b[..n - |a| - 1])
  {
  }

  lemma PlainAtEnd(text: Text, limits: Limits)
    requires Plain(text) && text != [] && |text| <= limits.maxBytes && limits.maxFields > 0
    ensures Next(Source([], text), limits) == Got([text], Source([], []))
  {
    hide Scan;
    assert text + [] == text && [] + text == text;
    ScanPlain(text, [], Start, [], [], 0, limits);
    ScanNothing(Unquoted, [], text, |text|, limits);
    assert [] + [text] == [text];
  }

  lemma PairAtEnd(a: Text, b: Text, limits: Limits)
    requires Plain(a) && Plain(b) && a != [] && |a| + 1 + |b| <= limits.maxBytes && limits.maxFields > 1
    ensures Next(Source([], a + ([COMMA] + b)), limits) == Got([a, b], Source([], []))
  {
    hide Scan;
    assert [] + a == a && [] + [a] == [a] && b + [] == b && [] + b == b;
    ScanPlain(a, [COMMA] + b, Start, [], [], 0, limits);
    ScanEnd(COMMA, b, Unquoted, [], a, |a|, limits);
    ScanPlain(b, [], Start, [a], [], |a| + 1, limits);
    ScanNothing(if b == [] then Start else Unquoted, [a], b, |a| + 1 + |b|, limits);
    assert [a] + [b] == [a, b];
  }

  /** Rows read so far, and then the outcome of the last attempt. */
  function Then(rows: seq<seq<Text>>, r: RowRead): Table {
    match r
    case NoMore => Table(rows, true)
    case Refused => Table(rows, false)
    case Got(fields, _) => Table(rows + [fields], true)
  }

  /** A file cut short reads as some of its rows and then whatever is left of the next one. */
  lemma {:induction false} CutTable(rows: seq<seq<Text>>, n: nat, limits: Limits) returns (k: nat, m: nat)
    requires forall r :: r in rows ==> Readable(r, limits) && Plain(r[0])
    requires n < |Forms(rows)|
    ensures k < |rows| && m < |RowForm(rows[k])|
    ensures AllRows(Source([], Forms(rows)[..n]), limits)
         == Then(rows[..k], Next(Source([], RowForm(rows[k])[..m]), limits))
    ensures n == |Forms(rows)| - 1 ==> k == |rows| - 1 && m == |RowForm(rows[k])| - 1
    ensures n < |Forms(rows)| - 1 ==> k < |rows| - 1 || m < |RowForm(rows[k])| - 1
    decreases |rows|
  {
    hide Scan, Joined;
    var form, later := RowForm(rows[0]), Forms(rows[1..]);
    assert rows[0] in rows;
    if n < |form| {
      k, m := 0, n;
      var text := form[..n];
      assert Forms(rows)[..n] == text && rows[..0] == [];
      if rows[1..] != [] {
        RowStart(rows[1]);
      }
      if n == 0 {
        NothingLeft(limits);
      } else {
        CutRow(rows[0], n, limits);
        OneRowLeft(text, limits);
      }
    } else {
      k, m := CutTable(rows[1..], n - |form|, limits);
      var rest := later[..n - |form|];
      assert Forms(rows)[..n] == form + rest;
      RowRoundTrip(rows[0], rest, limits);
      assert rows[..k + 1] == [rows[0]] + rows[1..][..k];
      k := k + 1;
    }
  }

  lemma OneRowLeft(text: Text, limits: Limits)
    requires var r := Next(Source([], text), limits); r.Refused? || (r.Got? && r.rest.Flat() == [])
    ensures AllRows(Source([], text), limits) == Then([], Next(Source([], text), limits))
  {
    hide Scan;
    var r := Next(Source([], text), limits);
    if r.Got? {
      assert r.rest == Source([], []);
      NothingLeft(limits);
    }
  }

  /** Whatever follows written rows is read after them. */
  lemma {:induction false} RowsThen(rows: seq<seq<Text>>, extra: Text, limits: Limits)
    requires forall r :: r in rows ==> Readable(r, limits)
    ensures var later := AllRows(Source([], extra), limits);
      AllRows(Source([], Forms(rows) + extra), limits) == Table(rows + later.rows, later.complete)
    ensures extra != [] ==>
      AllRows(Source([], extra), limits).rows != [] || !AllRows(Source([], extra), limits).complete
    decreases |rows|
  {
    hide Scan, Joined;
    SomethingLeft(extra, limits);
    if rows == [] {
      assert Forms(rows) + extra == extra;
    } else {
      RowsThen(rows[1..], extra, limits);
      assert rows[0] in rows && rows == [rows[0]] + rows[1..];
      Assoc(RowForm(rows[0]), Forms(rows[1..]), extra);
      RowRoundTrip(rows[0], Forms(rows[1..]) + extra, limits);
    }
  }

  lemma SomethingLeft(text: Text, limits: Limits)
    ensures text != [] ==> !Next(Source([], text), limits).NoMore?
  {
    if text != [] {
      var source := Source([], text);
      assert source.Flat() != [];
      var (ch, next) := source.Get();
      match Step(ch, Start, [], [], 0, limits)
      case Go(state, fields, value) => ScanLeaves(next, state, fields, value, 1, limits);
      case _ =>
    }
  }

  lemma {:induction false} EscapedBound(field: Text)
    ensures |Doubled(field)| <= 2 * |field|
  {
    if field != [] {
      EscapedBound(field[1..]);
    }
  }

  /** How long a row can get. */
  lemma {:induction false} RowBound(fields: seq<Text>)
    ensures |RowForm(fields)| <= 2 * TotalSize(fields) + 3 * |fields| + 1
  {
    if fields != [] {
      EscapedBound(fields[0]);
      RowBound(fields[1..]);
      if |fields| > 1 {
        assert RowForm(fields) == Escaped(fields[0]) + [COMMA] + RowForm(fields[1..]);
      }
    }
  }
}
