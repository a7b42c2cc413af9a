/** Rebuilding the parsed view from the retained log while live traffic goes on: the work is spread over many
  * pumps, and what arrives meanwhile is queued by position and caught up at the end. */
module HistoryRebuild {
  import opened Basics
  import opened Bytes

  /** What a log event or an arrival means to the parser. */
  datatype Input =
    | Data(outgoing: bool, bytes: seq<byte>)
    | ProfileSet(name: string, length: nat, channels: seq<string>)
    | ProfileClear(name: string)
    | Setup

  datatype Entry = Entry(position: nat, input: Input)

  /** A row of the transfer panel, which owns the bytes of an arrival. */
  datatype Row = Row(position: nat, outgoing: bool, bytes: seq<byte>)

  /** An arrival waiting to be caught up; of data only the place in the panel is kept. */
  datatype Following =
    | FollowData(outgoing: bool, position: nat, byteSize: nat, rowIndex: nat, rowFrontPosition: nat)
    | FollowProfile(input: Input)
  {
    function Size(): nat {
      if FollowData? then byteSize else 0
    }
  }

  datatype Task = Task(
    generation: nat, eventCursor: nat, byteOffset: nat, sourceCount: nat, firstPosition: nat,
    following: seq<Following>, followingBytes: nat)

  const EVENTS_PER_PUMP: nat := 256
  const BYTES_PER_PUMP: nat := 65536

  // ---------------------------------------------------------------- the parser's input

  /** What the parser is fed: bytes of one direction or the other, and profile changes. */
  datatype Item = Byte(outgoing: bool, value: byte) | Control(input: Input)

  function Marked(outgoing: bool, bytes: seq<byte>): (r: seq<Item>)
    ensures |r| == |bytes|
    ensures forall i :: 0 <= i < |r| ==> r[i] == Byte(outgoing, bytes[i])
  {
    seq(|bytes|, i requires 0 <= i < |bytes| => Byte(outgoing, bytes[i]))
  }

  function Items(input: Input): seq<Item> {
    match input
    case Data(outgoing, bytes) => Marked(outgoing, bytes)
    case Setup => []
    case _ => [Control(input)]
  }

  /** The items of the inputs in order. */
  function Stream(inputs: seq<Input>): seq<Item> {
    if inputs == [] then [] else Items(inputs[0]) + Stream(inputs[1..])
  }

  function Inputs(entries: seq<Entry>): (r: seq<Input>)
    ensures |r| == |entries| && forall i :: 0 <= i < |r| ==> r[i] == entries[i].input
  {
    seq(|entries|, i requires 0 <= i < |entries| => entries[i].input)
  }

  function Sizes(following: seq<Following>): nat {
    if following == [] then 0 else following[0].Size() + Sizes(following[1..])
  }

  function ByteCount(items: seq<Item>): nat {
    if items == [] then 0 else (if items[0].Byte? then 1 else 0) + ByteCount(items[1..])
  }

  lemma {:induction false} StreamSnoc(inputs: seq<Input>, more: Input)
    ensures Stream(inputs + [more]) == Stream(inputs) + Items(more)
  {
    hide Items;
    if inputs == [] {
      assert [more][1..] == [] && inputs + [more] == [more];
    } else {
      assert (inputs + [more])[1..] == inputs[1..] + [more];
      StreamSnoc(inputs[1..], more);
      Assoc(Items(inputs[0]), Stream(inputs[1..]), Items(more));
    }
  }

  lemma Assoc<T>(a: seq<T>, b: seq<T>, c: seq<T>)
    ensures a + b + c == a + (b + c)
  {
  }

  /** Every input reaches the parser in its place: a profile change as one control, data byte by byte in its
    * direction, and a plot setup not at all. */
  lemma StreamAt(inputs: seq<Input>, k: nat)
    requires k < |inputs|
    ensures var at, next, items := |Stream(inputs[..k])|, |Stream(inputs[..k + 1])|, Stream(inputs);
      && at <= next <= |items|
      && next - at == (if inputs[k].Data? then |inputs[k].bytes| else if inputs[k].Setup? then 0 else 1)
      && (inputs[k].ProfileSet? || inputs[k].ProfileClear? ==> items[at] == Control(inputs[k]))
      && (inputs[k].Data? ==>
            forall j :: 0 <= j < |inputs[k].bytes| ==> items[at + j] == Byte(inputs[k].outgoing, inputs[k].bytes[j]))
  {
    hide Stream;
    StreamSnoc(inputs[..k], inputs[k]);
    assert inputs[..k] + [inputs[k]] == inputs[..k + 1];
    StreamJoins(inputs[..k + 1], inputs[k + 1..]);
    assert inputs[..k + 1] + inputs[k + 1..] == inputs;
    ShiftedIndex(Stream(inputs[..k]), Items(inputs[k]), Stream(inputs[k + 1..]));
  }

  lemma {:induction false} StreamJoins(a: seq<Input>, b: seq<Input>)
    ensures Stream(a + b) == Stream(a) + Stream(b)
  {
    hide Items;
    if a == [] {
      assert a + b == b;
    } else {
      assert (a + b)[1..] == a[1..] + b;
      StreamJoins(a[1..], b);
      Assoc(Items(a[0]), Stream(a[1..]), Stream(b));
    }
  }

  lemma ShiftedIndex<T>(a: seq<T>, b: seq<T>, c: seq<T>)
    ensures forall i :: 0 <= i < |b| ==> (a + b + c)[|a| + i] == b[i]
    ensures b != [] ==> (a + b + c)[|a|] == b[0]
  {
  }

  lemma {:induction false} SizesSnoc(following: seq<Following>, more: Following)
    ensures Sizes(following + [more]) == Sizes(following) + more.Size()
  {
    if following == [] {
      assert [more][1..] == [] && following + [more] == [more];
    } else {
      assert (following + [more])[1..] == following[1..] + [more];
      SizesSnoc(following[1..], more);
    }
  }

  lemma {:induction false} BytesCounted(a: seq<Item>, b: seq<Item>)
    ensures ByteCount(a + b) == ByteCount(a) + ByteCount(b)
    ensures (forall i :: 0 <= i < |a| ==> a[i].Byte?) ==> ByteCount(a) == |a|
  {
    if a == [] {
      assert a + b == b;
    } else {
      assert (a + b)[1..] == a[1..] + b;
      BytesCounted(a[1..], b);
    }
  }

  /** The positions of the panel only ever grow. */
  predicate Increasing(rows: seq<Row>) {
    forall i, j :: 0 <= i < j < |rows| ==> rows[i].position < rows[j].position
  }

  /** The panel still has the row of an arrival where it was put. */
  predicate InPlace(f: Following, rows: seq<Row>) {
    f.FollowData? ==>
      && rows != [] && rows[0].position == f.rowFrontPosition
      && f.rowIndex < |rows| && rows[f.rowIndex].position == f.position && |rows[f.rowIndex].bytes| == f.byteSize
  }

  predicate IsProfile(input: Input) {
    input.ProfileSet? || input.ProfileClear?
  }

  /** What an arrival stood for when it was accepted; `known` remembers every row by its position. */
  ghost predicate StandsFor(f: Following, input: Input, known: map<nat, Row>) {
    match f
    case FollowProfile(control) => input == control && IsProfile(control)
    case FollowData(outgoing, position, byteSize, _, _) =>
      && input.Data? && input.outgoing == outgoing && |input.bytes| == byteSize
      && position in known && known[position] == Row(position, outgoing, input.bytes)
  }

  // ---------------------------------------------------------------- what holds between pumps

  /** The panel's rows are remembered under positions of their own. */
  ghost predicate PanelOk(rows: seq<Row>, known: map<nat, Row>, transferPosition: nat) {
    && Increasing(rows)
    && (forall i :: 0 <= i < |rows| ==> rows[i].position in known && known[rows[i].position] == rows[i])
    && (forall p :: p in known ==> p <= transferPosition)
  }

  /** Positions in the log come from the same counter as those of the panel. */
  ghost predicate LogOk(log: seq<Entry>, transferPosition: nat) {
    forall i :: 0 <= i < |log| ==> log[i].position <= transferPosition
  }

  /** The log still begins with what the task froze. */
  ghost predicate Intact(t: Task, log: seq<Entry>, frozen: seq<Input>) {
    && |frozen| <= |log| && Inputs(log[..|frozen|]) == frozen
    && (frozen != [] ==> log[0].position == t.firstPosition)
  }

  /** The pump's own test for a source that was replaced or cut. */
  predicate SourceGone(t: Task, log: seq<Entry>) {
    t.sourceCount > 0 && (log == [] || log[0].position != t.firstPosition || |log| < t.sourceCount)
  }

  /** The frozen front is still there until the log is replaced; from then on the log, if it has events again,
    * begins with one that is younger than the task. */
  ghost predicate SourceOk(t: Task, transferPosition: nat, log: seq<Entry>, frozen: seq<Input>, replaced: bool) {
    && t.sourceCount == |frozen| && t.firstPosition <= transferPosition
    && (!replaced ==> Intact(t, log, frozen))
    && (replaced ==> log == [] || log[0].position > t.firstPosition)
  }

  /** The place of an arrival holds exactly as long as the panel has lost no row since. */
  ghost predicate Held(f: Following, rows: seq<Row>, transferPosition: nat, lostThen: nat, lost: nat) {
    && lostThen <= lost
    && (f.FollowData? ==>
         && f.rowFrontPosition <= transferPosition
         && (lostThen == lost ==> InPlace(f, rows))
         && (lostThen < lost ==> rows == [] || rows[0].position > f.rowFrontPosition))
  }

  /** The queue holds the latest accepted arrivals, and knows how many bytes they have. */
  ghost predicate QueueOk(t: Task, accepted: seq<Input>, known: map<nat, Row>) {
    && |t.following| <= |accepted|
    && (forall i :: 0 <= i < |t.following| ==>
         StandsFor(t.following[i], accepted[|accepted| - |t.following| + i], known))
    && t.followingBytes == Sizes(t.following)
  }

  /** `lostAt` are the numbers of rows the panel had lost when the arrivals were accepted. */
  ghost predicate PlacesOk(t: Task, rows: seq<Row>, transferPosition: nat, lostAt: seq<nat>, lost: nat) {
    && |t.following| <= |lostAt|
    && forall i :: 0 <= i < |t.following| ==>
         Held(t.following[i], rows, transferPosition, lostAt[|lostAt| - |t.following| + i], lost)
  }

  /** The inputs still to be fed. */
  function Pending(t: Task, frozen: seq<Input>, accepted: seq<Input>): seq<Input>
    requires t.eventCursor <= |frozen| && |t.following| <= |accepted|
  {
    frozen[t.eventCursor..] + accepted[|accepted| - |t.following|..]
  }

  /** What was fed and what is pending make up the log and the arrivals, each item once and in order. */
  ghost predicate ProgressOk(t: Task, frozen: seq<Input>, accepted: seq<Input>, fed: seq<Item>) {
    && t.eventCursor <= |frozen| && |t.following| <= |accepted|
    && (t.eventCursor < |frozen| ==> |t.following| == |accepted|)
    && var pending := Pending(t, frozen, accepted);
       && (t.byteOffset > 0 ==> pending != [] && pending[0].Data? && t.byteOffset < |pending[0].bytes|)
       && t.byteOffset <= |Stream(pending)|
       && fed + Stream(pending)[t.byteOffset..] == Stream(frozen + accepted)
  }

  lemma SliceSnoc<T>(fed: seq<T>, rest: seq<T>, more: seq<T>, offset: nat)
    requires offset <= |rest|
    ensures fed + (rest + more)[offset..] == fed + rest[offset..] + more
  {
    assert (rest + more)[offset..] == rest[offset..] + more;
  }

  lemma TaskBegins(log: seq<Entry>, n: nat, generation: nat, transferPosition: nat, rows: seq<Row>,
                   known: map<nat, Row>, lost: nat)
    requires n <= |log| && LogOk(log, transferPosition)
    ensures var t := Task(generation, 0, 0, n, if log == [] then 0 else log[0].position, [], 0);
      var frozen := Inputs(log[..n]);
      && SourceOk(t, transferPosition, log, frozen, false)
      && QueueOk(t, [], known) && PlacesOk(t, rows, transferPosition, [], lost)
      && ProgressOk(t, frozen, [], [])
  {
    var frozen := Inputs(log[..n]);
    assert frozen[0..] + [] == frozen + [];
    assert [] + Stream(frozen) == Stream(frozen);
  }

  function Queued(t: Task, event: Following): Task {
    t.(following := t.following + [event], followingBytes := t.followingBytes + event.Size())
  }

  lemma QueueGrows(t: Task, event: Following, input: Input, accepted: seq<Input>, known: map<nat, Row>)
    requires QueueOk(t, accepted, known) && StandsFor(event, input, known)
    ensures QueueOk(Queued(t, event), accepted + [input], known)
  {
    hide StandsFor;
    SizesSnoc(t.following, event);
  }

  lemma PlacesGrow(t: Task, event: Following, rows: seq<Row>, transferPosition: nat, lostAt: seq<nat>, lost: nat)
    requires PlacesOk(t, rows, transferPosition, lostAt, lost) && Held(event, rows, transferPosition, lost, lost)
    ensures PlacesOk(Queued(t, event), rows, transferPosition, lostAt + [lost], lost)
  {
    hide Held;
  }

  lemma ProgressGrows(t: Task, event: Following, input: Input, frozen: seq<Input>, accepted: seq<Input>, fed: seq<Item>)
    requires ProgressOk(t, frozen, accepted, fed)
    ensures ProgressOk(Queued(t, event), frozen, accepted + [input], fed)
  {
    hide Stream, Items;
    var before := Pending(t, frozen, accepted);
    var u := Queued(t, event);
    StreamSnoc(before, input);
    StreamSnoc(frozen + accepted, input);
    Assoc(frozen, accepted, [input]);
    assert Pending(u, frozen, accepted + [input]) == before + [input];
    SliceSnoc(fed, Stream(before), Items(input), t.byteOffset);
  }

  lemma PanelGrows(rows: seq<Row>, known: map<nat, Row>, transferPosition: nat, row: Row)
    requires PanelOk(rows, known, transferPosition) && row.position == transferPosition + 1
    ensures PanelOk(rows + [row], known[row.position := row], transferPosition + 1)
  {
    forall i | 0 <= i < |rows| ensures rows[i].position <= transferPosition {
      assert rows[i].position in known;
    }
  }

  lemma QueueUnderRow(t: Task, accepted: seq<Input>, known: map<nat, Row>, row: Row)
    requires QueueOk(t, accepted, known) && row.position !in known
    ensures QueueOk(t, accepted, known[row.position := row])
  {
    var wider := known[row.position := row];
    forall i | 0 <= i < |t.following|
      ensures StandsFor(t.following[i], accepted[|accepted| - |t.following| + i], wider)
    {
      assert StandsFor(t.following[i], accepted[|accepted| - |t.following| + i], known);
    }
  }

  /** A row younger than all others disturbs no place. */
  lemma PlacesUnderRow(t: Task, rows: seq<Row>, transferPosition: nat, lostAt: seq<nat>, lost: nat, row: Row)
    requires PlacesOk(t, rows, transferPosition, lostAt, lost) && row.position > transferPosition
    ensures PlacesOk(t, rows + [row], row.position, lostAt, lost)
  {
    forall i | 0 <= i < |t.following|
      ensures Held(t.following[i], rows + [row], row.position, lostAt[|lostAt| - |t.following| + i], lost)
    {
      assert Held(t.following[i], rows, transferPosition, lostAt[|lostAt| - |t.following| + i], lost);
    }
  }

  function Newest(rows: seq<Row>, limit: nat): seq<Row> {
    if |rows| > limit then rows[|rows| - limit..] else rows
  }

  lemma PanelShrinks(rows: seq<Row>, known: map<nat, Row>, transferPosition: nat, limit: nat)
    requires PanelOk(rows, known, transferPosition)
    ensures PanelOk(Newest(rows, limit), known, transferPosition)
  {
  }

  /** Losing a row from the front unsettles every place there is. */
  lemma PlacesLost(t: Task, rows: seq<Row>, known: map<nat, Row>, transferPosition: nat, lostAt: seq<nat>, lost: nat,
                   limit: nat)
    requires PlacesOk(t, rows, transferPosition, lostAt, lost) && PanelOk(rows, known, transferPosition)
    requires limit < |rows|
    ensures PlacesOk(t, Newest(rows, limit), transferPosition, lostAt, lost + (|rows| - limit))
  {
    forall i | 0 <= i < |t.following|
      ensures Held(t.following[i], Newest(rows, limit), transferPosition, lostAt[|lostAt| - |t.following| + i],
                   lost + (|rows| - limit))
    {
      assert Held(t.following[i], rows, transferPosition, lostAt[|lostAt| - |t.following| + i], lost);
    }
  }

  /** An arrival stands for its row and finds it at the end of the panel. */
  lemma FollowsRow(event: Following, row: Row, rows: seq<Row>, known: map<nat, Row>, transferPosition: nat, lost: nat)
    requires row.position in known && known[row.position] == row && row.position <= transferPosition
    requires PanelOk(rows + [row], known, transferPosition)
    requires event == FollowData(row.outgoing, row.position, |row.bytes|, |rows|,
                                 if rows == [] then row.position else rows[0].position)
    ensures StandsFor(event, Data(row.outgoing, row.bytes), known)
    ensures Held(event, rows + [row], transferPosition, lost, lost)
  {
    assert rows != [] ==> (rows + [row])[0] == rows[0] && (rows + [row])[0].position in known;
  }

  lemma SourceGrows(t: Task, transferPosition: nat, log: seq<Entry>, frozen: seq<Input>, replaced: bool, entry: Entry)
    requires SourceOk(t, transferPosition, log, frozen, replaced) && entry.position > transferPosition
    ensures SourceOk(t, entry.position, log + [entry], frozen, replaced)
  {
    if !replaced {
      assert (log + [entry])[..|frozen|] == log[..|frozen|];
    }
  }

  /** A replaced log is always noticed, since what it holds is younger than the task; nothing else is. */
  lemma ReplacementNoticed(t: Task, transferPosition: nat, log: seq<Entry>, frozen: seq<Input>, replaced: bool)
    requires SourceOk(t, transferPosition, log, frozen, replaced)
    ensures SourceGone(t, log) <==> replaced && frozen != []
  {
  }

  // ---------------------------------------------------------------- feeding

  /** The next part of the input at the head goes to the parser. */
  lemma FeedPart(t: Task, frozen: seq<Input>, accepted: seq<Input>, fed: seq<Item>, amount: nat)
    requires ProgressOk(t, frozen, accepted, fed)
    requires Pending(t, frozen, accepted) != [] && Pending(t, frozen, accepted)[0].Data?
    requires t.byteOffset + amount < |Pending(t, frozen, accepted)[0].bytes|
    ensures var input := Pending(t, frozen, accepted)[0];
      ProgressOk(t.(byteOffset := t.byteOffset + amount), frozen, accepted,
        fed + Marked(input.outgoing, input.bytes[t.byteOffset..t.byteOffset + amount]))
  {
    hide Marked;
    var pending := Pending(t, frozen, accepted);
    var input := pending[0];
    var items, slice := Stream(pending), Marked(input.outgoing, input.bytes[t.byteOffset..t.byteOffset + amount]);
    HeadSlice(pending, t.byteOffset, amount);
    Assoc(fed, slice, items[t.byteOffset + amount..]);
  }

  lemma HeadSlice(pending: seq<Input>, offset: nat, amount: nat)
    requires pending != [] && pending[0].Data? && offset + amount <= |pending[0].bytes|
    ensures var items := Stream(pending);
      && offset + amount <= |items|
      && items[offset..] == Marked(pending[0].outgoing, pending[0].bytes[offset..offset + amount]) + items[offset + amount..]
  {
    var input := pending[0];
    var whole := Marked(input.outgoing, input.bytes);
    var part := Marked(input.outgoing, input.bytes[offset..offset + amount]);
    assert whole[offset..offset + amount] == part;
    assert Stream(pending) == whole + Stream(pending[1..]);
    assert Stream(pending)[offset..] == Stream(pending)[offset..offset + amount] + Stream(pending)[offset + amount..];
    assert Stream(pending)[offset..offset + amount] == whole[offset..offset + amount];
  }

  /** What is left of an input once `offset` bytes of it were fed. */
  function LeftOf(input: Input, offset: nat): seq<Item>
    requires offset > 0 ==> input.Data? && offset <= |input.bytes|
  {
    if offset > 0 then Marked(input.outgoing, input.bytes[offset..]) else Items(input)
  }

  function Advanced(t: Task): Task
    requires t.eventCursor >= t.sourceCount ==> t.following != [] && t.followingBytes >= t.following[0].Size()
  {
    if t.eventCursor < t.sourceCount then t.(byteOffset := 0, eventCursor := t.eventCursor + 1)
    else t.(byteOffset := 0, following := t.following[1..], followingBytes := t.followingBytes - t.following[0].Size())
  }

  /** The input at the head is finished with: the rest of it was fed. */
  lemma FeedRest(t: Task, frozen: seq<Input>, accepted: seq<Input>, fed: seq<Item>)
    requires ProgressOk(t, frozen, accepted, fed) && t.sourceCount == |frozen|
    requires t.eventCursor >= t.sourceCount ==> t.following != [] && t.followingBytes >= t.following[0].Size()
    ensures Pending(t, frozen, accepted) != []
    ensures ProgressOk(Advanced(t), frozen, accepted, fed + LeftOf(Pending(t, frozen, accepted)[0], t.byteOffset))
  {
    hide Stream, Items, LeftOf, Marked;
    var pending := Pending(t, frozen, accepted);
    PendingAdvances(t, frozen, accepted);
    RestItems(pending, t.byteOffset);
    var left, rest := LeftOf(pending[0], t.byteOffset), Stream(pending[1..]);
    Assoc(fed, left, rest);
    assert rest[0..] == rest;
  }

  lemma PendingAdvances(t: Task, frozen: seq<Input>, accepted: seq<Input>)
    requires t.eventCursor <= |frozen| && |t.following| <= |accepted| && t.sourceCount == |frozen|
    requires t.eventCursor < |frozen| ==> |t.following| == |accepted|
    requires t.eventCursor >= t.sourceCount ==> t.following != [] && t.followingBytes >= t.following[0].Size()
    ensures var pending, u := Pending(t, frozen, accepted), Advanced(t);
      && pending != [] && u.eventCursor <= |frozen| && |u.following| <= |accepted|
      && pending[1..] == Pending(u, frozen, accepted)
  {
    hide Following.Size;
    if t.eventCursor < |frozen| {
      DropFirst(frozen, t.eventCursor, accepted[|accepted| - |t.following|..]);
    } else {
      DropFirst(accepted, |accepted| - |t.following|, []);
      assert frozen[t.eventCursor..] == [];
      EmptyEnds(accepted[|accepted| - |t.following|..]);
      EmptyEnds(accepted[|accepted| - |t.following| + 1..]);
    }
  }

  lemma DropFirst<T>(a: seq<T>, i: nat, b: seq<T>)
    requires i < |a|
    ensures a[i..] + b != [] && (a[i..] + b)[1..] == a[i + 1..] + b
  {
  }

  lemma EmptyEnds<T>(a: seq<T>)
    ensures [] + a == a == a + []
  {
  }

  /** What is left of the head, and then the rest. */
  lemma RestItems(pending: seq<Input>, offset: nat)
    requires pending != [] && (offset > 0 ==> pending[0].Data? && offset < |pending[0].bytes|)
    ensures offset <= |Stream(pending)|
    ensures Stream(pending)[offset..] == LeftOf(pending[0], offset) + Stream(pending[1..])
  {
    if offset > 0 {
      var input := pending[0];
      var whole := Marked(input.outgoing, input.bytes);
      assert whole[offset..] == Marked(input.outgoing, input.bytes[offset..]);
      assert (whole + Stream(pending[1..]))[offset..] == whole[offset..] + Stream(pending[1..]);
    } else {
      assert Stream(pending)[0..] == Stream(pending);
    }
  }

  lemma QueueAdvances(t: Task, accepted: seq<Input>, known: map<nat, Row>)
    requires QueueOk(t, accepted, known)
    ensures t.following != [] ==> t.followingBytes >= t.following[0].Size()
    ensures t.eventCursor >= t.sourceCount ==> t.following == [] || QueueOk(Advanced(t), accepted, known)
    ensures t.eventCursor < t.sourceCount ==> QueueOk(Advanced(t), accepted, known)
  {
    hide StandsFor;
  }

  lemma PlacesAdvance(t: Task, rows: seq<Row>, transferPosition: nat, lostAt: seq<nat>, lost: nat)
    requires PlacesOk(t, rows, transferPosition, lostAt, lost)
    requires t.eventCursor >= t.sourceCount ==> t.following != [] && t.followingBytes >= t.following[0].Size()
    ensures PlacesOk(Advanced(t), rows, transferPosition, lostAt, lost)
  {
    hide Held;
  }

  /** The panel's row is what the arrival at the head of the queue stood for. */
  lemma RowOfHead(t: Task, frozen: seq<Input>, accepted: seq<Input>, fed: seq<Item>, rows: seq<Row>,
                  known: map<nat, Row>, transferPosition: nat)
    requires QueueOk(t, accepted, known) && ProgressOk(t, frozen, accepted, fed)
    requires PanelOk(rows, known, transferPosition)
    requires t.eventCursor >= |frozen| && t.following != []
    ensures var input := Pending(t, frozen, accepted)[0];
      match t.following[0]
      case FollowProfile(control) => input == control && IsProfile(control)
      case FollowData(outgoing, position, byteSize, rowIndex, front) =>
        && input.Data? && input.outgoing == outgoing
        && (InPlace(t.following[0], rows) ==> rows[rowIndex].bytes == input.bytes)
  {
    assert Pending(t, frozen, accepted)[0] == accepted[|accepted| - |t.following|];
    assert StandsFor(t.following[0], accepted[|accepted| - |t.following| + 0], known);
  }

  /** The input at the head, if there is one. */
  ghost function Head(t: Task, frozen: seq<Input>, accepted: seq<Input>): Input {
    if t.eventCursor <= |frozen| && |t.following| <= |accepted| && Pending(t, frozen, accepted) != []
    then Pending(t, frozen, accepted)[0] else Setup
  }

  /** The input at the head is `input`, and as much of it was fed as the task says. */
  ghost predicate Headed(t: Task, frozen: seq<Input>, accepted: seq<Input>, input: Input) {
    && t.eventCursor <= |frozen| && |t.following| <= |accepted|
    && var pending := Pending(t, frozen, accepted);
       && pending != [] && pending[0] == input
       && (t.byteOffset > 0 ==> input.Data? && t.byteOffset < |input.bytes|)
  }

  // ---------------------------------------------------------------- the slices a pump feeds

  /** The part of an input fed at one turn. */
  datatype Slice = Slice(input: Input, offset: nat, amount: nat)

  function SliceItems(slice: Slice): seq<Item> {
    if !slice.input.Data? then Items(slice.input)
    else if slice.offset + slice.amount > |slice.input.bytes| then []
    else Marked(slice.input.outgoing, slice.input.bytes[slice.offset..slice.offset + slice.amount])
  }

  function Sliced(slices: seq<Slice>): seq<Item> {
    if slices == [] then [] else Sliced(slices[..|slices| - 1]) + SliceItems(slices[|slices| - 1])
  }

  function Amounts(slices: seq<Slice>): nat {
    if slices == [] then 0 else Amounts(slices[..|slices| - 1]) + slices[|slices| - 1].amount
  }

  /** At most half of the parser's buffer for that direction, but always a byte. */
  predicate WithinHalf(amount: nat, outgoing: bool, capacityRx: nat, capacityTx: nat) {
    amount <= 1 || (outgoing && 2 * amount <= capacityTx) || (!outgoing && 2 * amount <= capacityRx)
  }

  /** A slice of data is as large as what is left of the input, the room and half the buffer allow. */
  predicate RightSize(slice: Slice, room: nat, capacityRx: nat, capacityTx: nat) {
    if !slice.input.Data? then slice.amount == 0
    else
      var outgoing, left := slice.input.outgoing, |slice.input.bytes| - slice.offset;
      && slice.amount <= left && slice.amount <= room && WithinHalf(slice.amount, outgoing, capacityRx, capacityTx)
      && (slice.amount == left || slice.amount == room
          || !WithinHalf(slice.amount + 1, outgoing, capacityRx, capacityTx))
  }

  /** The slices are all that was fed, each as large as it may be within the pump's budget. */
  ghost predicate SlicesOk(slices: seq<Slice>, before: seq<Item>, fed: seq<Item>, capacityRx: nat, capacityTx: nat) {
    && fed == before + Sliced(slices) && Amounts(slices) <= BYTES_PER_PUMP
    && forall i :: 0 <= i < |slices| ==>
         && Amounts(slices[..i]) <= BYTES_PER_PUMP
         && RightSize(slices[i], BYTES_PER_PUMP - Amounts(slices[..i]), capacityRx, capacityTx)
  }

  lemma SliceAdded(slices: seq<Slice>, before: seq<Item>, fed: seq<Item>, slice: Slice, capacityRx: nat, capacityTx: nat)
    requires SlicesOk(slices, before, fed, capacityRx, capacityTx)
    requires RightSize(slice, BYTES_PER_PUMP - Amounts(slices), capacityRx, capacityTx)
    requires slice.amount <= BYTES_PER_PUMP - Amounts(slices)
    ensures SlicesOk(slices + [slice], before, fed + SliceItems(slice), capacityRx, capacityTx)
  {
    hide RightSize, SliceItems, Sliced, Amounts;
    var more := slices + [slice];
    SlicesSnoc(slices, slice);
    Assoc(before, Sliced(slices), SliceItems(slice));
    forall i | 0 <= i < |more|
      ensures Amounts(more[..i]) <= BYTES_PER_PUMP
      ensures RightSize(more[i], BYTES_PER_PUMP - Amounts(more[..i]), capacityRx, capacityTx)
    {
      assert more[..i] == slices[..i];
      if i == |slices| {
        assert slices[..i] == slices;
      }
    }
  }

  lemma NoSlices(before: seq<Item>, capacityRx: nat, capacityTx: nat)
    ensures SlicesOk([], before, before, capacityRx, capacityTx) && Amounts([]) == 0
  {
  }

  lemma SlicesSnoc(slices: seq<Slice>, slice: Slice)
    ensures Sliced(slices + [slice]) == Sliced(slices) + SliceItems(slice)
    ensures Amounts(slices + [slice]) == Amounts(slices) + slice.amount
  {
    hide SliceItems;
    assert (slices + [slice])[..|slices|] == slices;
  }

  // ---------------------------------------------------------------- why a rebuild is given up

  datatype Reason = SourceReplaced | SourceCut | ArrivalLost | ProfileRefused

  function Refusal(input: Input, accepts: Input -> bool): Option<Reason> {
    if IsProfile(input) && !accepts(input) then Some(ProfileRefused) else None
  }

  function Obstacle(f: Following, rows: seq<Row>, accepts: Input -> bool): Option<Reason> {
    if f.FollowProfile? then Refusal(f.input, accepts)
    else if InPlace(f, rows) then None else Some(ArrivalLost)
  }

  function Refusals(inputs: seq<Input>, accepts: Input -> bool): (r: seq<Option<Reason>>)
    ensures |r| == |inputs| && forall i :: 0 <= i < |r| ==> r[i] == Refusal(inputs[i], accepts)
  {
    seq(|inputs|, i requires 0 <= i < |inputs| => Refusal(inputs[i], accepts))
  }

  function Obstacles(following: seq<Following>, rows: seq<Row>, accepts: Input -> bool): (r: seq<Option<Reason>>)
    ensures |r| == |following| && forall i :: 0 <= i < |r| ==> r[i] == Obstacle(following[i], rows, accepts)
  {
    seq(|following|, i requires 0 <= i < |following| => Obstacle(following[i], rows, accepts))
  }

  /** What stands in the way of each input still to be fed. */
  ghost function Ahead(t: Task, frozen: seq<Input>, rows: seq<Row>, accepts: Input -> bool): seq<Option<Reason>>
    requires t.eventCursor <= |frozen|
  {
    Refusals(frozen[t.eventCursor..], accepts) + Obstacles(t.following, rows, accepts)
  }

  lemma AheadAdvances(t: Task, frozen: seq<Input>, rows: seq<Row>, accepts: Input -> bool)
    requires t.eventCursor <= |frozen| == t.sourceCount
    requires t.eventCursor >= t.sourceCount ==> t.following != [] && t.followingBytes >= t.following[0].Size()
    ensures Ahead(t, frozen, rows, accepts) != []
    ensures Advanced(t).eventCursor <= |frozen|
    ensures Ahead(Advanced(t), frozen, rows, accepts) == Ahead(t, frozen, rows, accepts)[1..]
    ensures Ahead(t, frozen, rows, accepts)[0]
         == if t.eventCursor < |frozen| then Refusal(frozen[t.eventCursor], accepts)
            else Obstacle(t.following[0], rows, accepts)
  {
    hide Following.Size, Refusal, Obstacle;
    var u, all := Advanced(t), Ahead(t, frozen, rows, accepts);
    if t.eventCursor < |frozen| {
      assert Refusals(frozen[t.eventCursor..], accepts)[1..] == Refusals(frozen[u.eventCursor..], accepts);
    } else {
      assert frozen[t.eventCursor..] == [];
      assert Refusals(frozen[t.eventCursor..], accepts) == [];
      assert all == Obstacles(t.following, rows, accepts);
      assert Obstacles(t.following, rows, accepts)[1..] == Obstacles(u.following, rows, accepts);
    }
  }

  lemma AheadLength(t: Task, frozen: seq<Input>, rows: seq<Row>, accepts: Input -> bool)
    requires t.eventCursor <= |frozen|
    ensures |Ahead(t, frozen, rows, accepts)| == |frozen| - t.eventCursor + |t.following|
  {
  }

  /** An arrival is lost exactly when the panel dropped a row after accepting it. */
  lemma LostExactly(t: Task, rows: seq<Row>, transferPosition: nat, lostAt: seq<nat>, lost: nat, i: nat,
                    accepts: Input -> bool)
    requires PlacesOk(t, rows, transferPosition, lostAt, lost) && i < |t.following| && t.following[i].FollowData?
    ensures Obstacle(t.following[i], rows, accepts) == Some(ArrivalLost)
      <==> lostAt[|lostAt| - |t.following| + i] < lost
  {
    assert Held(t.following[i], rows, transferPosition, lostAt[|lostAt| - |t.following| + i], lost);
  }

  /** Inputs and items still to come. */
  ghost function ToDo(t: Task, frozen: seq<Input>, accepted: seq<Input>): int {
    if t.eventCursor <= |frozen| && |t.following| <= |accepted|
    then |Pending(t, frozen, accepted)| + |Stream(Pending(t, frozen, accepted))| - t.byteOffset else 0
  }

  /** Where the pump finds the input at the head. */
  lemma HeadThere(t: Task, frozen: seq<Input>, accepted: seq<Input>, fed: seq<Item>, log: seq<Entry>,
                  rows: seq<Row>, known: map<nat, Row>, transferPosition: nat)
    requires t.sourceCount == |frozen| && (frozen != [] ==> Intact(t, log, frozen))
    requires QueueOk(t, accepted, known) && ProgressOk(t, frozen, accepted, fed)
    requires PanelOk(rows, known, transferPosition)
    requires t.eventCursor < t.sourceCount || t.following != []
    ensures Headed(t, frozen, accepted, Head(t, frozen, accepted))
    ensures t.byteOffset > 0 ==>
      Head(t, frozen, accepted).Data? && t.byteOffset < |Head(t, frozen, accepted).bytes|
    ensures t.eventCursor < t.sourceCount ==>
      && t.eventCursor < |log| && log[t.eventCursor].input == Head(t, frozen, accepted)
      && frozen[t.eventCursor] == Head(t, frozen, accepted)
    ensures t.eventCursor >= t.sourceCount ==>
      match t.following[0]
      case FollowProfile(control) => Head(t, frozen, accepted) == control && IsProfile(control)
      case FollowData(outgoing, position, byteSize, rowIndex, front) =>
        InPlace(t.following[0], rows) ==> Head(t, frozen, accepted) == Data(outgoing, rows[rowIndex].bytes)
  {
    hide Stream;
    if t.eventCursor < t.sourceCount {
      assert Inputs(log[..|frozen|])[t.eventCursor] == log[..|frozen|][t.eventCursor].input;
    } else {
      RowOfHead(t, frozen, accepted, fed, rows, known, transferPosition);
    }
  }

  lemma LessToDo(t: Task, frozen: seq<Input>, accepted: seq<Input>, fed: seq<Item>, amount: nat)
    requires ProgressOk(t, frozen, accepted, fed)
    ensures amount > 0 ==>
      ToDo(t.(byteOffset := t.byteOffset + amount), frozen, accepted) < ToDo(t, frozen, accepted)
  {
  }

  lemma Done(t: Task, frozen: seq<Input>, accepted: seq<Input>, fed: seq<Item>)
    requires ProgressOk(t, frozen, accepted, fed) && t.sourceCount == |frozen|
    requires t.eventCursor >= t.sourceCount ==> t.following != [] && t.followingBytes >= t.following[0].Size()
    ensures ToDo(Advanced(t), frozen, accepted) < ToDo(t, frozen, accepted)
  {
    hide Items;
    var pending := Pending(t, frozen, accepted);
    PendingAdvances(t, frozen, accepted);
    if t.byteOffset > 0 {
      ItemsOfData(pending[0]);
    }
  }

  lemma ItemsOfData(input: Input)
    requires input.Data?
    ensures |Items(input)| == |input.bytes|
  {
  }

  lemma AdvancedTask(t: Task)
    requires t.eventCursor >= t.sourceCount ==> t.following != [] && t.followingBytes >= t.following[0].Size()
    ensures Advanced(t)
         == if t.eventCursor < t.sourceCount then t.(byteOffset := 0, eventCursor := t.eventCursor + 1)
            else t.(byteOffset := 0, following := t.following[1..],
                    followingBytes := t.followingBytes - t.following[0].Size())
  {
  }

  lemma SourceAdvances(t: Task, transferPosition: nat, log: seq<Entry>, frozen: seq<Input>, replaced: bool)
    requires SourceOk(t, transferPosition, log, frozen, replaced)
    requires t.eventCursor >= t.sourceCount ==> t.following != [] && t.followingBytes >= t.following[0].Size()
    ensures SourceOk(Advanced(t), transferPosition, log, frozen, replaced) && Advanced(t).generation == t.generation
  {
  }

  /** With nothing left to do everything was fed. */
  lemma AllFed(t: Task, frozen: seq<Input>, accepted: seq<Input>, fed: seq<Item>)
    requires t.sourceCount == |frozen| && ProgressOk(t, frozen, accepted, fed)
    requires t.eventCursor >= t.sourceCount && t.following == []
    ensures fed == Stream(frozen + accepted)
  {
    assert Pending(t, frozen, accepted) == [];
    assert fed + [] == fed;
  }

  lemma NothingCounted(fed: seq<Item>)
    ensures fed[|fed|..] == [] && ByteCount(fed[|fed|..]) == 0
  {
  }

  lemma CountedOn(first: seq<Item>, second: seq<Item>, third: seq<Item>)
    requires first <= second <= third
    ensures ByteCount(third[|first|..]) == ByteCount(second[|first|..]) + ByteCount(third[|second|..])
  {
    assert third[|first|..] == second[|first|..] + third[|second|..];
    BytesCounted(second[|first|..], third[|second|..]);
  }

  lemma SliceCounted(fed: seq<Item>, outgoing: bool, bytes: seq<byte>)
    ensures var more := fed + Marked(outgoing, bytes);
      fed <= more && ByteCount(more[|fed|..]) == |bytes|
  {
    var slice := Marked(outgoing, bytes);
    assert (fed + slice)[|fed|..] == slice;
    BytesCounted(slice, []);
  }

  lemma LeftCounted(fed: seq<Item>, input: Input, offset: nat)
    requires offset > 0 ==> input.Data? && offset <= |input.bytes|
    ensures var more := fed + LeftOf(input, offset);
      fed <= more && ByteCount(more[|fed|..]) == if input.Data? then |input.bytes| - offset else 0
  {
    var left := LeftOf(input, offset);
    assert (fed + left)[|fed|..] == left;
    if input.Data? {
      assert offset == 0 ==> input.bytes[0..] == input.bytes;
      BytesCounted(left, []);
    } else if left != [] {
      assert left[1..] == [];
    }
  }

  datatype Outcome = Idle | Running | Cancelled(reason: Reason) | Completed

  /** Everything said of positions stays true as the counter moves on. */
  lemma PanelLater(rows: seq<Row>, known: map<nat, Row>, log: seq<Entry>, transferPosition: nat, later: nat)
    requires PanelOk(rows, known, transferPosition) && LogOk(log, transferPosition) && transferPosition <= later
    ensures PanelOk(rows, known, later) && LogOk(log, later)
  {
  }

  lemma TaskLater(t: Task, rows: seq<Row>, log: seq<Entry>, frozen: seq<Input>, replaced: bool, lostAt: seq<nat>,
                  lost: nat, transferPosition: nat, later: nat)
    requires SourceOk(t, transferPosition, log, frozen, replaced) && transferPosition <= later
    requires PlacesOk(t, rows, transferPosition, lostAt, lost)
    ensures SourceOk(t, later, log, frozen, replaced) && PlacesOk(t, rows, later, lostAt, lost)
  {
    hide Intact;
    forall i | 0 <= i < |t.following|
      ensures Held(t.following[i], rows, later, lostAt[|lostAt| - |t.following| + i], lost)
    {
      assert Held(t.following[i], rows, transferPosition, lostAt[|lostAt| - |t.following| + i], lost);
    }
  }

  /** The part of the application that holds the log, the panel and the rebuild task. */
  class HistoryView {
    var log: seq<Entry>
    var rows: seq<Row>
    /** One counter gives log events and panel rows their positions. */
    var transferPosition: nat
    var liveGeneration: nat
    /** The generation of an imported source, which stands in for the live one. */
    var sourceKey: Option<nat>
    var task: Option<Task>

    /** The log when the task began, and every arrival accepted since. */
    ghost var frozen: seq<Input>
    ghost var accepted: seq<Input>
    /** All that the rebuild parser was given. */
    ghost var fed: seq<Item>
    ghost var known: map<nat, Row>
    /** Whether the log was replaced since the task began. */
    ghost var replaced: bool
    /** How many rows the panel has lost, now and when each arrival was accepted. */
    ghost var lost: nat
    ghost var lostAt: seq<nat>

    ghost predicate Valid()
      reads this
    {
      && PanelOk(rows, known, transferPosition) && LogOk(log, transferPosition)
      && (task.Some? ==>
           && SourceOk(task.value, transferPosition, log, frozen, replaced)
           && QueueOk(task.value, accepted, known)
           && PlacesOk(task.value, rows, transferPosition, lostAt, lost)
           && ProgressOk(task.value, frozen, accepted, fed))
    }

    constructor ()
      ensures Valid() && task == None && log == [] && rows == []
    {
      log, rows, transferPosition, liveGeneration, sourceKey, task := [], [], 0, 0, None, None;
      frozen, accepted, fed, known, replaced, lost, lostAt := [], [], [], map[], false, 0, [];
    }

    function HistorySwitchGeneration(): nat
      reads this
    {
      if sourceKey.Some? then sourceKey.value else liveGeneration
    }

    /** What stands in the way of each input the task has yet to feed. */
    ghost function Way(accepts: Input -> bool): seq<Option<Reason>>
      reads this
    {
      if task.Some? && task.value.eventCursor <= |frozen| then Ahead(task.value, frozen, rows, accepts) else []
    }

    /** What is queued is given up for good: a task begun later has another live generation. */
    method InvalidateHistorySwitchWork()
      requires Valid()
      modifies `task, `liveGeneration
      ensures Valid() && task == None && liveGeneration == old(liveGeneration) + 1
    {
      hide PanelOk, LogOk;
      liveGeneration := liveGeneration + 1;
      task := None;
    }

    /** Starts a rebuild over the first `upperBound` events of the log. */
    method BeginHistoryRebuild(upperBound: nat)
      requires Valid()
      modifies `task, `frozen, `accepted, `fed, `replaced, `lostAt
      ensures Valid() && task.Some? && task.value.generation == HistorySwitchGeneration()
      ensures frozen == Inputs(log[..if upperBound < |log| then upperBound else |log|])
      ensures accepted == [] && fed == [] && !replaced
    {
      hide PanelOk, LogOk, SourceOk, QueueOk, PlacesOk, ProgressOk;
      var sourceCount := if upperBound < |log| then upperBound else |log|;
      TaskBegins(log, sourceCount, HistorySwitchGeneration(), transferPosition, rows, known, lost);
      task := Some(Task(HistorySwitchGeneration(), 0, 0, sourceCount, if log == [] then 0 else log[0].position, [], 0));
      frozen, accepted, fed, replaced, lostAt := Inputs(log[..sourceCount]), [], [], false, [];
    }

    /** Queues an arrival, unless that would exceed the budget: then the whole task is given up. */
    method QueueHistoryFollowing(event: Following, ghost input: Input, limitBytes: nat, limitRows: nat)
      returns (queued: bool)
      requires Valid()
      requires task.Some? ==> StandsFor(event, input, known) && Held(event, rows, transferPosition, lost, lost)
      modifies `task, `accepted, `lostAt, `liveGeneration
      ensures Valid()
      ensures queued <==> old(task).Some? && Room(old(task).value, event.Size(), limitBytes, limitRows)
      ensures queued ==>
        && task == Some(Queued(old(task).value, event))
        && accepted == old(accepted) + [input] && lostAt == old(lostAt) + [lost]
      ensures !queued ==> task == None
      ensures liveGeneration == old(liveGeneration) + if old(task).Some? && !queued then 1 else 0
    {
      hide PanelOk, LogOk, SourceOk, QueueOk, PlacesOk, ProgressOk, StandsFor, Held;
      if task.None? {
        return false;
      }
      var t := task.value;
      BytesWaiting(t, accepted, known);
      if event.Size() > limitBytes || t.followingBytes > limitBytes - event.Size() || |t.following| >= limitRows {
        InvalidateHistorySwitchWork();
        return false;
      }
      QueueGrows(t, event, input, accepted, known);
      PlacesGrow(t, event, rows, transferPosition, lostAt, lost);
      ProgressGrows(t, event, input, frozen, accepted, fed);
      SourceQueued(t, event, transferPosition, log, frozen, replaced);
      task := Some(t.(followingBytes := t.followingBytes + event.Size(), following := t.following + [event]));
      accepted, lostAt := accepted + [input], lostAt + [lost];
      queued := true;
    }

    /** A received or sent chunk goes into the panel and, while a task runs, into its queue; the panel then
      * drops its oldest rows beyond `rowLimit`. */
    method AppendTransferRow(outgoing: bool, bytes: seq<byte>, limitBytes: nat, limitRows: nat, rowLimit: nat)
      requires Valid()
      modifies this
      ensures Valid()
      ensures log == old(log) && frozen == old(frozen) && fed == old(fed) && replaced == old(replaced)
      ensures transferPosition == old(transferPosition) + 1 && sourceKey == old(sourceKey)
      ensures rows == Newest(old(rows) + [Row(transferPosition, outgoing, bytes)], rowLimit)
      ensures lost == old(lost) + (|old(rows)| + 1 - |rows|)
      ensures task.Some? ==>
        accepted == old(accepted) + [Data(outgoing, bytes)] && lostAt == old(lostAt) + [old(lost)]
      ensures task.Some? <==> old(task).Some? && Room(old(task).value, |bytes|, limitBytes, limitRows)
    {
      hide PanelOk, LogOk, SourceOk, QueueOk, PlacesOk, ProgressOk, StandsFor, Held;
      ghost var before := rows;
      var event := FollowData(outgoing, transferPosition + 1, |bytes|, |rows|,
                              if rows == [] then transferPosition + 1 else rows[0].position);
      var row := AppendReceiveRow(outgoing, bytes);
      FollowsRow(event, row, before, known, transferPosition, lost);
      var queued := QueueHistoryFollowing(event, Data(outgoing, bytes), limitBytes, limitRows);
      TrimReceiveRows(rowLimit);
    }

    method AppendReceiveRow(outgoing: bool, bytes: seq<byte>) returns (row: Row)
      requires Valid()
      modifies `rows, `known, `transferPosition
      ensures Valid() && transferPosition == old(transferPosition) + 1
      ensures row == Row(transferPosition, outgoing, bytes)
      ensures rows == old(rows) + [row] && row.position in known && known[row.position] == row
    {
      hide LogOk, SourceOk, QueueOk, PlacesOk, ProgressOk;
      row := Row(transferPosition + 1, outgoing, bytes);
      PanelGrows(rows, known, transferPosition, row);
      PanelLater(rows, known, log, transferPosition, transferPosition + 1);
      if task.Some? {
        QueueUnderRow(task.value, accepted, known, row);
        TaskLater(task.value, rows, log, frozen, replaced, lostAt, lost, transferPosition, transferPosition + 1);
        PlacesUnderRow(task.value, rows, transferPosition, lostAt, lost, row);
      }
      transferPosition := transferPosition + 1;
      rows := rows + [row];
      known := known[row.position := row];
    }

    method TrimReceiveRows(limit: nat)
      requires Valid()
      modifies `rows, `lost
      ensures Valid() && rows == Newest(old(rows), limit)
      ensures lost == old(lost) + (|old(rows)| - |rows|)
    {
      hide PanelOk, LogOk, SourceOk, QueueOk, PlacesOk, ProgressOk;
      PanelShrinks(rows, known, transferPosition, limit);
      if |rows| > limit {
        if task.Some? {
          PlacesLost(task.value, rows, known, transferPosition, lostAt, lost, limit);
        }
        lost := lost + (|rows| - limit);
        rows := rows[|rows| - limit..];
      }
    }

    /** A profile change made by the running script. */
    method ApplyTransferFrameRuntimeProfileEvent(event: Input, limitBytes: nat, limitRows: nat)
      requires Valid() && IsProfile(event)
      modifies this
      ensures Valid()
      ensures log == old(log) && rows == old(rows) && lost == old(lost) && transferPosition == old(transferPosition)
      ensures frozen == old(frozen) && fed == old(fed) && replaced == old(replaced) && sourceKey == old(sourceKey)
      ensures task.Some? ==> accepted == old(accepted) + [event]
      ensures task.Some? <==> old(task).Some? && Room(old(task).value, 0, limitBytes, limitRows)
    {
      hide PanelOk, LogOk, SourceOk, QueueOk, PlacesOk, ProgressOk;
      var queued := QueueHistoryFollowing(FollowProfile(event), event, limitBytes, limitRows);
    }

    /** A live event goes to the end of the log; over the budget the log is cut to `kept`, whose events are among
      * those it had, and a running task is given up. */
    method AppendLogEvent(input: Input, overBudget: bool, kept: seq<Entry>)
      requires Valid() && forall i :: 0 <= i < |kept| ==> kept[i].position <= transferPosition + 1
      modifies `log, `transferPosition, `task, `liveGeneration
      ensures Valid() && transferPosition == old(transferPosition) + 1
      ensures overBudget ==> log == kept && task == None
      ensures !overBudget ==> log == old(log) + [Entry(transferPosition, input)] && task == old(task)
    {
      hide SourceOk, QueueOk, PlacesOk, ProgressOk, PanelOk;
      var entry := Entry(transferPosition + 1, input);
      PanelLater(rows, known, log, transferPosition, transferPosition + 1);
      if task.Some? {
        TaskLater(task.value, rows, log, frozen, replaced, lostAt, lost, transferPosition, transferPosition + 1);
        SourceGrows(task.value, transferPosition, log, frozen, replaced, entry);
      }
      transferPosition := transferPosition + 1;
      log := log + [entry];
      if overBudget {
        if task.Some? {
          InvalidateHistorySwitchWork();
        }
        log := kept;
      }
    }

    /** The log is emptied or other events take its place, under the same generation or another one; a running
      * task is not told. Each event gets the next position. */
    method ReplaceSource(inputs: seq<Input>, key: Option<nat>)
      requires Valid()
      modifies `log, `sourceKey, `transferPosition, `replaced
      ensures Valid() && sourceKey == key && Inputs(log) == inputs && replaced
      ensures transferPosition == old(transferPosition) + |inputs|
      ensures forall i :: 0 <= i < |log| ==> log[i].position == old(transferPosition) + 1 + i
    {
      hide PanelOk, SourceOk, QueueOk, PlacesOk, ProgressOk;
      ghost var start := transferPosition;
      var events: seq<Entry> := [];
      for i := 0 to |inputs|
        modifies `transferPosition
        invariant |events| == i && transferPosition == start + i
        invariant forall k :: 0 <= k < i ==> events[k] == Entry(start + 1 + k, inputs[k])
      {
        transferPosition := transferPosition + 1;
        events := events + [Entry(transferPosition, inputs[i])];
      }
      PanelLater(rows, known, log, start, transferPosition);
      if task.Some? {
        TaskLater(task.value, rows, log, frozen, replaced, lostAt, lost, start, transferPosition);
        SourceRenewed(task.value, start, transferPosition, log, frozen, replaced, events);
      }
      log, sourceKey, replaced := events, key, true;
    }

    /** One pump: feeds bounded slices until the pump's budget is used up or the source and the queue are
      * exhausted.  `turns` is when the time budget ends the pump, `accepts` whether the parser takes a
      * profile, and the capacities are those of its two buffers.  `passed` inputs are finished with in `taken`
      * turns. */
    method PumpHistoryRebuild(turns: nat, accepts: Input -> bool, capacityRx: nat, capacityTx: nat)
      returns (outcome: Outcome, ghost passed: nat, ghost taken: nat, ghost slices: seq<Slice>)
      requires Valid()
      modifies `task, `fed, `liveGeneration
      ensures Valid()
      ensures outcome.Idle? <==> old(task).None?
      ensures outcome == Cancelled(SourceReplaced) <==>
        old(task).Some? && old(task).value.generation != old(HistorySwitchGeneration())
      ensures outcome == Cancelled(SourceCut) <==>
        && old(task).Some? && old(task).value.generation == old(HistorySwitchGeneration())
        && replaced && frozen != []
      ensures forall reason :: reason == ArrivalLost || reason == ProfileRefused ==>
        (outcome == Cancelled(reason) <==>
          && GoesOn(old(task), old(HistorySwitchGeneration()), replaced, frozen)
          && InBudget(taken, turns, old(fed), fed)
          && passed < |old(Way(accepts))| && old(Way(accepts))[passed] == Some(reason))
      ensures outcome.Completed? ==>
        task == None && passed == |old(Way(accepts))| && fed == Stream(frozen + accepted)
      ensures outcome.Running? ==>
        && task.Some? && task.value.generation == old(task).value.generation
        && !InBudget(taken, turns, old(fed), fed)
        && passed < |old(Way(accepts))| && Way(accepts) == old(Way(accepts))[passed..]
        && (turns > 0 ==> ToDo(task.value, frozen, accepted) < ToDo(old(task).value, frozen, accepted))
      ensures passed <= |old(Way(accepts))| && forall i :: 0 <= i < passed ==> old(Way(accepts))[i] == None
      ensures outcome.Cancelled? ==> task == None && liveGeneration == old(liveGeneration) + 1
      ensures old(fed) <= fed && ByteCount(fed[|old(fed)|..]) <= 65536 && taken <= 256
      ensures SlicesOk(slices, old(fed), fed, capacityRx, capacityTx)
      ensures outcome.Idle? || outcome == Cancelled(SourceReplaced) || outcome == Cancelled(SourceCut) ==>
        fed == old(fed)
    {
      hide PanelOk, LogOk, SourceOk, QueueOk, PlacesOk, ProgressOk, Stream, ByteCount, Pending, ToDo, Ahead, SourceGone;
      hide Way, InBudget, SlicesOk;
      passed, taken, slices := 0, 0, [];
      NoSlices(fed, capacityRx, capacityTx);
      NothingCounted(fed);
      if task.None? {
        return Idle, 0, 0, [];
      }
      var t := task.value;
      if t.generation != HistorySwitchGeneration() {
        InvalidateHistorySwitchWork();
        return Cancelled(SourceReplaced), 0, 0, [];
      }
      ReplacementNoticed(t, transferPosition, log, frozen, replaced);
      if SourceGone(t, log) {
        InvalidateHistorySwitchWork();
        return Cancelled(SourceCut), 0, 0, [];
      }
      outcome, passed, taken, slices := FeedHistory(turns, accepts, capacityRx, capacityTx);
    }

    /** The pump's loop, over a source that is as it was. */
    method FeedHistory(turns: nat, accepts: Input -> bool, capacityRx: nat, capacityTx: nat)
      returns (outcome: Outcome, ghost passed: nat, ghost taken: nat, ghost slices: seq<Slice>)
      requires Valid() && task.Some? && (frozen != [] ==> !replaced)
      modifies `task, `fed, `liveGeneration
      ensures Valid() && !outcome.Idle?
      ensures outcome.Cancelled? ==>
        && (outcome.reason == ArrivalLost || outcome.reason == ProfileRefused)
        && InBudget(taken, turns, old(fed), fed)
        && passed < |old(Way(accepts))| && old(Way(accepts))[passed] == Some(outcome.reason)
        && task == None && liveGeneration == old(liveGeneration) + 1
      ensures outcome.Completed? ==>
        task == None && passed == |old(Way(accepts))| && fed == Stream(frozen + accepted)
      ensures outcome.Running? ==>
        && task.Some? && task.value.generation == old(task).value.generation
        && !InBudget(taken, turns, old(fed), fed)
        && passed < |old(Way(accepts))| && Way(accepts) == old(Way(accepts))[passed..]
        && (turns > 0 ==> ToDo(task.value, frozen, accepted) < ToDo(old(task).value, frozen, accepted))
      ensures passed <= |old(Way(accepts))| && forall i :: 0 <= i < passed ==> old(Way(accepts))[i] == None
      ensures old(fed) <= fed && ByteCount(fed[|old(fed)|..]) <= 65536 && taken <= 256
      ensures SlicesOk(slices, old(fed), fed, capacityRx, capacityTx)
    {
      hide PanelOk, LogOk, SourceOk, QueueOk, PlacesOk, ProgressOk, Stream, ByteCount, Pending, ToDo, Ahead,
           SlicesOk, RightSize, SliceItems, Amounts;
      NothingCounted(fed);
      NoSlices(fed, capacityRx, capacityTx);
      passed, taken, slices := 0, 0, [];
      var t := task.value;
      TaskParts(t, transferPosition, log, frozen, replaced, accepted, fed);
      ghost var way := Way(accepts);
      var events, bytes := 0, 0;
      while events < EVENTS_PER_PUMP && bytes < BYTES_PER_PUMP && events < turns
        invariant Valid() && task.Some?
        invariant task.value.generation == old(task).value.generation && liveGeneration == old(liveGeneration)
        invariant task.value.sourceCount == |frozen| && task.value.eventCursor <= |frozen|
        invariant bytes <= BYTES_PER_PUMP && events <= EVENTS_PER_PUMP
        invariant old(fed) <= fed && ByteCount(fed[|old(fed)|..]) == bytes
        invariant SlicesOk(slices, old(fed), fed, capacityRx, capacityTx) && Amounts(slices) == bytes
        invariant if events == 0 then task == old(task) && bytes == 0
          else ToDo(task.value, frozen, accepted) < ToDo(old(task).value, frozen, accepted)
        invariant taken == events && passed <= |way| && Way(accepts) == way[passed..]
        invariant forall i :: 0 <= i < passed ==> way[i] == None
        decreases EVENTS_PER_PUMP - events
      {
        t := task.value;
        if t.eventCursor >= t.sourceCount && t.following == [] {
          break;
        }
        ghost var before := fed;
        var amount, verdict;
        ghost var finished, slice;
        amount, verdict, finished, slice := Turn(accepts, BYTES_PER_PUMP - bytes, capacityRx, capacityTx);
        CountedOn(old(fed), before, fed);
        if verdict.Some? {
          assert fed == before;
          return Cancelled(verdict.value), passed, taken, slices;
        }
        SliceAdded(slices, old(fed), before, slice, capacityRx, capacityTx);
        SlicesSnoc(slices, slice);
        slices := slices + [slice];
        if finished {
          passed := passed + 1;
        }
        events, bytes := events + 1, bytes + amount;
        taken := events;
      }
      t := task.value;
      AheadLength(t, frozen, rows, accepts);
      if t.eventCursor < t.sourceCount || t.following != [] {
        return Running, passed, taken, slices;
      }
      AllFed(t, frozen, accepted, fed);
      task := None;
      outcome := Completed;
    }

    /** One turn of the pump: a slice of the input at the head, or all of a profile change. */
    method Turn(accepts: Input -> bool, room: nat, capacityRx: nat, capacityTx: nat)
      returns (amount: nat, verdict: Option<Reason>, ghost finished: bool, ghost slice: Slice)
      requires Valid() && task.Some? && (frozen != [] ==> !replaced)
      requires task.value.sourceCount == |frozen| && task.value.eventCursor <= |frozen|
      requires task.value.eventCursor < task.value.sourceCount || task.value.following != []
      modifies `task, `fed, `liveGeneration
      ensures Valid()
      ensures old(fed) <= fed && ByteCount(fed[|old(fed)|..]) == amount <= room
      ensures old(Way(accepts)) != [] && verdict == old(Way(accepts))[0]
      ensures verdict.None? ==>
        && task.Some? && task.value.generation == old(task).value.generation && liveGeneration == old(liveGeneration)
        && task.value.sourceCount == |frozen| && task.value.eventCursor <= |frozen|
        && slice.input == old(Head(task.value, frozen, accepted)) && slice.offset == old(task).value.byteOffset
        && slice.amount == amount && RightSize(slice, room, capacityRx, capacityTx)
        && fed == old(fed) + SliceItems(slice)
        && Way(accepts) == (if finished then old(Way(accepts))[1..] else old(Way(accepts)))
        && (room > 0 ==> ToDo(task.value, frozen, accepted) < ToDo(old(task).value, frozen, accepted))
      ensures verdict.Some? ==>
        && task == None && liveGeneration == old(liveGeneration) + 1 && fed == old(fed)
        && (verdict == Some(ArrivalLost) || verdict == Some(ProfileRefused))
    {
      hide PanelOk, LogOk, SourceOk, QueueOk, PlacesOk, ProgressOk, Stream, ByteCount, ToDo, Headed, Head, Inputs, Ahead,
           Advanced, SliceItems, LeftOf, RightSize;
      amount, verdict, finished, slice := 0, None, false, Slice(Setup, 0, 0);
      NothingCounted(fed);
      var t := task.value;
      StillIntact(t, transferPosition, log, frozen, replaced);
      HeadThere(t, frozen, accepted, fed, log, rows, known, transferPosition);
      QueueAdvances(t, accepted, known);
      AheadAdvances(t, frozen, rows, accepts);
      ghost var head := Head(t, frozen, accepted);
      var input: Input;
      if t.eventCursor < t.sourceCount {
        input := log[t.eventCursor].input;
      } else {
        var f := t.following[0];
        if f.FollowProfile? {
          input := f.input;
        } else {
          if rows == [] || rows[0].position != f.rowFrontPosition || f.rowIndex >= |rows|
             || rows[f.rowIndex].position != f.position || |rows[f.rowIndex].bytes| != f.byteSize {
            InvalidateHistorySwitchWork();
            return 0, Some(ArrivalLost), false, slice;
          }
          input := Data(f.outgoing, rows[f.rowIndex].bytes);
        }
      }
      assert input == head;
      slice := Slice(input, t.byteOffset, 0);
      if input.ProfileSet? || input.ProfileClear? {
        if !accepts(input) {
          InvalidateHistorySwitchWork();
          return 0, Some(ProfileRefused), false, slice;
        }
      } else if input.Data? {
        var capacity := if input.outgoing then capacityTx else capacityRx;
        amount := Smallest(|input.bytes| - t.byteOffset, room, if capacity / 2 < 1 then 1 else capacity / 2);
        slice := Slice(input, t.byteOffset, amount);
        SmallestFits(slice, room, capacityRx, capacityTx);
        if t.byteOffset + amount < |input.bytes| {
          FeedSlice(input, amount);
          AheadSame(t, amount, frozen, rows, accepts);
          return;
        }
      }
      LastSlice(slice, room, capacityRx, capacityTx);
      FinishHead(input);
      finished := true;
    }

    /** A slice that leaves some of the input at the head. */
    method FeedSlice(input: Input, amount: nat)
      requires Valid() && task.Some?
      requires Headed(task.value, frozen, accepted, input) && input.Data?
      requires task.value.byteOffset + amount < |input.bytes|
      modifies `task, `fed
      ensures Valid() && task == Some(old(task).value.(byteOffset := old(task).value.byteOffset + amount))
      ensures fed == old(fed) + SliceItems(Slice(input, old(task).value.byteOffset, amount))
      ensures old(fed) <= fed && ByteCount(fed[|old(fed)|..]) == amount
      ensures amount > 0 ==> ToDo(task.value, frozen, accepted) < ToDo(old(task).value, frozen, accepted)
    {
      hide PanelOk, LogOk, SourceOk, QueueOk, PlacesOk, ProgressOk, Stream, ByteCount, Marked, ToDo;
      var t := task.value;
      FeedPart(t, frozen, accepted, fed, amount);
      LessToDo(t, frozen, accepted, fed, amount);
      SliceCounted(fed, input.outgoing, input.bytes[t.byteOffset..t.byteOffset + amount]);
      OnlyOffset(t, amount, accepted, rows, known, transferPosition, log, frozen, replaced, lostAt, lost);
      fed := fed + Marked(input.outgoing, input.bytes[t.byteOffset..t.byteOffset + amount]);
      task := Some(t.(byteOffset := t.byteOffset + amount));
    }

    /** All that is left of the input at the head, and on to the next one. */
    method FinishHead(input: Input)
      requires Valid() && task.Some? && task.value.sourceCount == |frozen|
      requires Headed(task.value, frozen, accepted, input)
      requires task.value.eventCursor < task.value.sourceCount
        || (task.value.following != [] && task.value.followingBytes >= task.value.following[0].Size())
      modifies `task, `fed
      ensures Valid() && task == Some(Advanced(old(task).value))
      ensures old(fed) <= fed && fed == old(fed) + LeftOf(input, old(task).value.byteOffset)
      ensures ByteCount(fed[|old(fed)|..]) == if input.Data? then |input.bytes| - old(task).value.byteOffset else 0
      ensures ToDo(task.value, frozen, accepted) < ToDo(old(task).value, frozen, accepted)
      ensures task.value.generation == old(task).value.generation && task.value.sourceCount == |frozen|
    {
      hide PanelOk, LogOk, SourceOk, QueueOk, PlacesOk, ProgressOk, Stream, ByteCount, Marked, LeftOf, Advanced, ToDo;
      var t := task.value;
      QueueAdvances(t, accepted, known);
      PlacesAdvance(t, rows, transferPosition, lostAt, lost);
      FeedRest(t, frozen, accepted, fed);
      Done(t, frozen, accepted, fed);
      LeftCounted(fed, input, t.byteOffset);
      SourceAdvances(t, transferPosition, log, frozen, replaced);
      AdvancedTask(t);
      fed := fed + LeftOf(input, t.byteOffset);
      if t.eventCursor < t.sourceCount {
        task := Some(t.(byteOffset := 0, eventCursor := t.eventCursor + 1));
      } else {
        task := Some(t.(byteOffset := 0, following := t.following[1..],
                        followingBytes := t.followingBytes - t.following[0].Size()));
      }
    }

    /** An arrival that waits is lost exactly when the panel dropped a row after accepting it. */
    lemma ArrivalLostExactly(i: nat, accepts: Input -> bool)
      requires Valid() && task.Some? && i < |task.value.following| && task.value.following[i].FollowData?
      ensures task.value.eventCursor <= |frozen|
      ensures var k := |frozen| - task.value.eventCursor + i;
        && k < |Way(accepts)| && |task.value.following| <= |lostAt|
        && (Way(accepts)[k] == Some(ArrivalLost) <==> lostAt[|lostAt| - |task.value.following| + i] < lost)
    {
      hide PanelOk, LogOk, SourceOk, QueueOk, Stream, Obstacle, Refusal, Held;
      LostExactly(task.value, rows, transferPosition, lostAt, lost, i, accepts);
    }
  }

  lemma SourceQueued(t: Task, event: Following, transferPosition: nat, log: seq<Entry>, frozen: seq<Input>,
                     replaced: bool)
    requires SourceOk(t, transferPosition, log, frozen, replaced)
    ensures SourceOk(Queued(t, event), transferPosition, log, frozen, replaced)
  {
  }

  lemma SourceRenewed(t: Task, transferPosition: nat, later: nat, log: seq<Entry>, frozen: seq<Input>, replaced: bool,
                      events: seq<Entry>)
    requires SourceOk(t, transferPosition, log, frozen, replaced) && transferPosition <= later
    requires events != [] ==> events[0].position > transferPosition
    ensures SourceOk(t, later, events, frozen, true)
  {
  }

  lemma StillIntact(t: Task, transferPosition: nat, log: seq<Entry>, frozen: seq<Input>, replaced: bool)
    requires SourceOk(t, transferPosition, log, frozen, replaced) && (frozen != [] ==> !replaced)
    ensures frozen != [] ==> Intact(t, log, frozen)
  {
  }

  lemma TaskParts(t: Task, transferPosition: nat, log: seq<Entry>, frozen: seq<Input>, replaced: bool,
                  accepted: seq<Input>, fed: seq<Item>)
    requires SourceOk(t, transferPosition, log, frozen, replaced) && ProgressOk(t, frozen, accepted, fed)
    ensures t.sourceCount == |frozen| && t.eventCursor <= |frozen|
  {
  }

  lemma OnlyOffset(t: Task, amount: nat, accepted: seq<Input>, rows: seq<Row>, known: map<nat, Row>,
                   transferPosition: nat, log: seq<Entry>, frozen: seq<Input>, replaced: bool, lostAt: seq<nat>, lost: nat)
    requires SourceOk(t, transferPosition, log, frozen, replaced) && QueueOk(t, accepted, known)
    requires PlacesOk(t, rows, transferPosition, lostAt, lost)
    ensures var u := t.(byteOffset := t.byteOffset + amount);
      && SourceOk(u, transferPosition, log, frozen, replaced) && QueueOk(u, accepted, known)
      && PlacesOk(u, rows, transferPosition, lostAt, lost)
  {
    hide StandsFor, Held;
  }

  lemma AheadSame(t: Task, amount: nat, frozen: seq<Input>, rows: seq<Row>, accepts: Input -> bool)
    requires t.eventCursor <= |frozen|
    ensures Ahead(t.(byteOffset := t.byteOffset + amount), frozen, rows, accepts) == Ahead(t, frozen, rows, accepts)
  {
  }

  function Smallest(a: int, b: nat, c: nat): nat
    requires a >= 0
  {
    var m: nat := if a < b then a else b;
    if m < c then m else c
  }

  lemma SmallestFits(slice: Slice, room: nat, capacityRx: nat, capacityTx: nat)
    requires slice.input.Data? && slice.offset <= |slice.input.bytes|
    requires var half := (if slice.input.outgoing then capacityTx else capacityRx) / 2;
      slice.amount == Smallest(|slice.input.bytes| - slice.offset, room, if half < 1 then 1 else half)
    ensures RightSize(slice, room, capacityRx, capacityTx)
  {
  }

  /** The last slice of an input is all that is left of it. */
  lemma LastSlice(slice: Slice, room: nat, capacityRx: nat, capacityTx: nat)
    requires slice.offset > 0 ==> slice.input.Data? && slice.offset <= |slice.input.bytes|
    requires if slice.input.Data? then slice.offset + slice.amount == |slice.input.bytes| else slice.amount == 0
    ensures SliceItems(slice) == LeftOf(slice.input, slice.offset)
    ensures !slice.input.Data? ==> RightSize(slice, room, capacityRx, capacityTx)
  {
    if slice.input.Data? {
      assert slice.input.bytes[slice.offset..slice.offset + slice.amount] == slice.input.bytes[slice.offset..];
      assert slice.offset == 0 ==> slice.input.bytes[0..] == slice.input.bytes;
    }
  }

  /** The bytes that wait and those of another arrival are within the one limit, the arrivals within the other. */
  predicate Room(t: Task, size: nat, limitBytes: nat, limitRows: nat) {
    Sizes(t.following) + size <= limitBytes && |t.following| + 1 <= limitRows
  }

  lemma BytesWaiting(t: Task, accepted: seq<Input>, known: map<nat, Row>)
    requires QueueOk(t, accepted, known)
    ensures t.followingBytes == Sizes(t.following)
  {
  }

  /** The pump finds its source as it was. */
  ghost predicate GoesOn(task: Option<Task>, generation: nat, replaced: bool, frozen: seq<Input>) {
    task.Some? && task.value.generation == generation && !(replaced && frozen != [])
  }

  /** The pump could take another turn. */
  ghost predicate InBudget(taken: nat, turns: nat, before: seq<Item>, fed: seq<Item>) {
    && taken < EVENTS_PER_PUMP && taken < turns
    && before <= fed && ByteCount(fed[|before|..]) < BYTES_PER_PUMP
  }
}
