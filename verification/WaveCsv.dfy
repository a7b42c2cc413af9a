/** Waveforms as a wide table: one row for each time, one column for each channel.  The export merges
  * the channels through a priority queue; the reader takes the columns apart again. */
module WaveCsv {

  datatype Sample = Sample(time: real, value: real)

  /** A field of a row as the number reader sees it. */
  datatype Cell = Blank | Number(value: real) | Junk

  type Row = seq<Cell>

  datatype Range = Everything | Between(low: real, high: real)

  predicate Within(time: real, range: Range) {
    range.Between? ==> range.low <= time <= range.high
  }

  /** The samples of a channel that the range selects. */
  function Selected(samples: seq<Sample>, range: Range): seq<Sample> {
    if samples == [] then []
    else (if Within(samples[0].time, range) then [samples[0]] else []) + Selected(samples[1..], range)
  }

  /** A range selects the samples from its low to its high end, both included. */
  lemma {:induction false} SelectedMeans(samples: seq<Sample>, low: real, high: real, s: Sample)
    ensures s in Selected(samples, Between(low, high)) <==> s in samples && low <= s.time <= high
    ensures Selected(samples, Everything) == samples
  {
    if samples != [] {
      SelectedMeans(samples[1..], low, high, s);
      assert samples == [samples[0]] + samples[1..];
    }
  }

  function AllSelected(channels: seq<seq<Sample>>, range: Range): (r: seq<seq<Sample>>)
    ensures |r| == |channels|
    ensures forall c :: 0 <= c < |r| ==> r[c] == Selected(channels[c], range)
  {
    seq(|channels|, c requires 0 <= c < |channels| => Selected(channels[c], range))
  }

  // ---------------------------------------------------------------- the table, stated directly

  /** No channel starts before `t`, and one starts at it. */
  predicate First(t: real, channels: seq<seq<Sample>>) {
    && (forall c :: 0 <= c < |channels| && channels[c] != [] ==> t <= channels[c][0].time)
    && (exists c :: 0 <= c < |channels| && channels[c] != [] && channels[c][0].time == t)
  }

  predicate Exhausted(channels: seq<seq<Sample>>) {
    forall c :: 0 <= c < |channels| ==> channels[c] == []
  }

  lemma FirstExists(channels: seq<seq<Sample>>)
    requires !Exhausted(channels)
    ensures exists t :: First(t, channels)
  {
    var c :| 0 <= c < |channels| && channels[c] != [];
    var t := channels[c][0].time;
    for k := 0 to |channels|
      invariant exists c :: 0 <= c < |channels| && channels[c] != [] && channels[c][0].time == t
      invariant forall c :: 0 <= c < k && channels[c] != [] ==> t <= channels[c][0].time
    {
      if channels[k] != [] && channels[k][0].time < t {
        t := channels[k][0].time;
      }
    }
    assert First(t, channels);
  }

  lemma FirstUnique(t: real, u: real, channels: seq<seq<Sample>>)
    requires First(t, channels) && First(u, channels)
    ensures t == u
  {
  }

  predicate StartsAt(samples: seq<Sample>, t: real) {
    samples != [] && samples[0].time == t
  }

  /** A value for every channel whose next sample has time `t`. */
  function CellsAt(t: real, channels: seq<seq<Sample>>): (cells: seq<Cell>)
    ensures |cells| == |channels|
    ensures forall c :: 0 <= c < |channels| ==>
      cells[c] == if StartsAt(channels[c], t) then Number(channels[c][0].value) else Blank
  {
    seq(|channels|, c requires 0 <= c < |channels| =>
      if StartsAt(channels[c], t) then Number(channels[c][0].value) else Blank)
  }

  /** The row of time `t`. */
  function RowAt(t: real, channels: seq<seq<Sample>>): Row {
    [Number(t)] + CellsAt(t, channels)
  }

  /** The channels without the samples that went into the row. */
  function After(t: real, channels: seq<seq<Sample>>): (rest: seq<seq<Sample>>)
    ensures |rest| == |channels|
    ensures forall c :: 0 <= c < |channels| ==>
      rest[c] == if StartsAt(channels[c], t) then channels[c][1..] else channels[c]
  {
    seq(|channels|, c requires 0 <= c < |channels| =>
      if StartsAt(channels[c], t) then channels[c][1..] else channels[c])
  }

  function Size(channels: seq<seq<Sample>>): nat {
    if channels == [] then 0 else |channels[0]| + Size(channels[1..])
  }

  lemma {:induction false} SizeShrinks(fewer: seq<seq<Sample>>, more: seq<seq<Sample>>)
    requires |fewer| == |more|
    requires forall c :: 0 <= c < |more| ==> |fewer[c]| <= |more[c]|
    ensures Size(fewer) <= Size(more)
    ensures (exists c :: 0 <= c < |more| && |fewer[c]| < |more[c]|) ==> Size(fewer) < Size(more)
  {
    if more != [] {
      SizeShrinks(fewer[1..], more[1..]);
      if c :| 0 <= c < |more| && |fewer[c]| < |more[c]| {
        if c > 0 {
          assert |fewer[1..][c - 1]| < |more[1..][c - 1]|;
        }
      }
    }
  }

  lemma AfterShrinks(t: real, channels: seq<seq<Sample>>)
    requires First(t, channels)
    ensures Size(After(t, channels)) < Size(channels)
  {
    var c :| 0 <= c < |channels| && channels[c] != [] && channels[c][0].time == t;
    assert |After(t, channels)[c]| < |channels[c]|;
    SizeShrinks(After(t, channels), channels);
  }

  ghost function FirstTime(channels: seq<seq<Sample>>): (t: real)
    requires !Exhausted(channels)
    ensures First(t, channels)
  {
    FirstExists(channels);
    var t :| First(t, channels);
    t
  }

  /** The table: the row of the earliest time still to come, as often as there is one. */
  ghost function Merged(channels: seq<seq<Sample>>): (rows: seq<Row>)
    decreases Size(channels)
  {
    if Exhausted(channels) then []
    else
      var t := FirstTime(channels);
      AfterShrinks(t, channels);
      [RowAt(t, channels)] + Merged(After(t, channels))
  }

  lemma MergedStep(t: real, channels: seq<seq<Sample>>)
    requires First(t, channels)
    ensures Merged(channels) == [RowAt(t, channels)] + Merged(After(t, channels))
    ensures Size(After(t, channels)) < Size(channels)
  {
    AfterShrinks(t, channels);
    FirstUnique(t, FirstTime(channels), channels);
  }

  lemma MergedEnd(channels: seq<seq<Sample>>)
    ensures Merged(channels) == [] <==> Exhausted(channels)
  {
  }

  // ---------------------------------------------------------------- the export

  /** A sample waiting in the queue. */
  datatype Position = Position(time: real, channel: nat, sample: nat)

  predicate Earlier(a: Position, b: Position) {
    a.time < b.time || (a.time == b.time && a.channel < b.channel)
  }

  /** The priority queue: its positions, the top one first. */
  type Queue = seq<Position>

  predicate Ordered(q: Queue) {
    forall i, j :: 0 <= i < j < |q| ==> Earlier(q[i], q[j])
  }

  function Push(q: Queue, p: Position): Queue {
    if q == [] || Earlier(p, q[0]) then [p] + q else [q[0]] + Push(q[1..], p)
  }

  predicate Has(q: Queue, channel: nat) {
    exists i :: 0 <= i < |q| && q[i].channel == channel
  }

  lemma {:induction false} PushAdds(q: Queue, p: Position)
    ensures forall x :: x in Push(q, p) <==> x == p || x in q
    ensures Ordered(q) && !Has(q, p.channel) ==> Ordered(Push(q, p))
  {
    if q != [] && !Earlier(p, q[0]) {
      PushAdds(q[1..], p);
      var r := Push(q[1..], p);
      if Ordered(q) && !Has(q, p.channel) {
        forall i, j | 0 <= i < j < |[q[0]] + r| ensures Earlier(([q[0]] + r)[i], ([q[0]] + r)[j]) {
          if i == 0 {
            assert r[j - 1] in r;
          }
        }
      }
    }
  }

  /** The queued sample is the next one its channel still has to give. */
  ghost predicate Next(p: Position, channels: seq<seq<Sample>>, left: seq<seq<Sample>>, range: Range)
    requires |left| == |channels|
  {
    && p.channel < |channels| && p.sample < |channels[p.channel]|
    && p.time == channels[p.channel][p.sample].time
    && Within(p.time, range)
    && left[p.channel] == Selected(channels[p.channel][p.sample..], range)
  }

  ghost predicate Mirrors(q: Queue, channels: seq<seq<Sample>>, left: seq<seq<Sample>>, range: Range) {
    && |left| == |channels|
    && Ordered(q)
    && forall p :: p in q ==> Next(p, channels, left, range)
  }

  lemma NextHead(p: Position, channels: seq<seq<Sample>>, left: seq<seq<Sample>>, range: Range)
    requires |left| == |channels| && Next(p, channels, left, range)
    ensures left[p.channel] == [channels[p.channel][p.sample]] + Selected(channels[p.channel][p.sample + 1..], range)
    ensures left[p.channel] != [] && left[p.channel][0] == channels[p.channel][p.sample]
  {
    var rest := channels[p.channel][p.sample..];
    assert rest[1..] == channels[p.channel][p.sample + 1..];
  }

  /** Queues the next sample of a channel that the range selects. */
  method Enqueue(q: Queue, channels: seq<seq<Sample>>, range: Range, c: nat, from: nat,
                 ghost left: seq<seq<Sample>>) returns (r: Queue)
    requires c < |channels| && from <= |channels[c]|
    requires Mirrors(q, channels, left, range) && !Has(q, c)
    requires left[c] == Selected(channels[c][from..], range)
    ensures Mirrors(r, channels, left, range)
    ensures forall k: nat :: Has(r, k) <==> Has(q, k) || (k == c && left[c] != [])
  {
    var samples, i := channels[c], from;
    while i < |samples| && !Within(samples[i].time, range)
      invariant from <= i <= |samples|
      invariant left[c] == Selected(samples[i..], range)
    {
      assert samples[i..][1..] == samples[i + 1..];
      i := i + 1;
    }
    r := q;
    if i < |samples| {
      var p := Position(samples[i].time, c, i);
      assert Next(p, channels, left, range);
      NextHead(p, channels, left, range);
      PushAdds(q, p);
      r := Push(q, p);
      HasPushed(q, p);
    }
  }

  lemma HasPushed(q: Queue, p: Position)
    ensures forall k: nat :: Has(Push(q, p), k) <==> Has(q, k) || k == p.channel
  {
    PushAdds(q, p);
    var r := Push(q, p);
    assert p in r;
    forall k: nat | Has(q, k) ensures Has(r, k) {
      var i :| 0 <= i < |q| && q[i].channel == k;
      assert q[i] in r;
    }
    forall k: nat | Has(r, k) ensures Has(q, k) || k == p.channel {
      var i :| 0 <= i < |r| && r[i].channel == k;
      assert r[i] in r;
    }
  }

  /** No channel is queued twice. */
  lemma OnePerChannel(q: Queue, channels: seq<seq<Sample>>, left: seq<seq<Sample>>, range: Range)
    requires Mirrors(q, channels, left, range)
    ensures forall i, j :: 0 <= i < j < |q| ==> q[i].channel != q[j].channel
  {
    hide Selected, Within;
    forall i, j | 0 <= i < j < |q| ensures q[i].channel != q[j].channel {
      assert Earlier(q[i], q[j]);
      assert q[i] in q && q[j] in q;
      NextHead(q[i], channels, left, range);
      NextHead(q[j], channels, left, range);
    }
  }

  /** The time of the top of the queue is the earliest there is. */
  lemma TopIsFirst(q: Queue, channels: seq<seq<Sample>>, left: seq<seq<Sample>>, range: Range)
    requires Mirrors(q, channels, left, range)
    requires forall c :: 0 <= c < |left| && left[c] != [] ==> Has(q, c)
    ensures q == [] ==> Exhausted(left)
    ensures q != [] ==> !Exhausted(left) && q[0].time == FirstTime(left)
  {
    if q != [] {
      var t := q[0].time;
      forall c | 0 <= c < |left| && left[c] != [] ensures t <= left[c][0].time {
        var i :| 0 <= i < |q| && q[i].channel == c;
        NextHead(q[i], channels, left, range);
        assert i > 0 ==> Earlier(q[0], q[i]);
      }
      assert q[0] in q;
      NextHead(q[0], channels, left, range);
      assert First(t, left);
      FirstUnique(t, FirstTime(left), left);
    }
  }

  /** The row filled from the positions popped at time `t` is the row of that time. */
  lemma FilledRow(cells: seq<Cell>, q: Queue, k: nat, channels: seq<seq<Sample>>, left: seq<seq<Sample>>, range: Range,
                  t: real)
    requires Mirrors(q, channels, left, range) && k <= |q|
    requires forall c :: 0 <= c < |left| && left[c] != [] ==> Has(q, c)
    requires forall i :: 0 <= i < k ==> q[i].time == t
    requires forall i :: k <= i < |q| ==> q[i].time != t
    requires |cells| == |left|
    requires forall i :: 0 <= i < k ==>
      Next(q[i], channels, left, range)
      && cells[q[i].channel] == Number(channels[q[i].channel][q[i].sample].value)
    requires forall c :: 0 <= c < |left| && !Has(q[..k], c) ==> cells[c] == Blank
    ensures cells == CellsAt(t, left)
  {
    hide Selected, Ordered, Within;
    StartsHere(q, k, channels, left, range, t);
    forall c | 0 <= c < |left| ensures cells[c] == CellsAt(t, left)[c] {
      if Has(q[..k], c) {
        var i :| 0 <= i < k && q[..k][i].channel == c;
        NextHead(q[i], channels, left, range);
      }
    }
  }

  /** The channels popped at `t` are those whose next sample has that time. */
  lemma StartsHere(q: Queue, k: nat, channels: seq<seq<Sample>>, left: seq<seq<Sample>>, range: Range, t: real)
    requires Mirrors(q, channels, left, range) && k <= |q|
    requires forall c :: 0 <= c < |left| && left[c] != [] ==> Has(q, c)
    requires forall i :: 0 <= i < k ==> q[i].time == t
    requires forall i :: k <= i < |q| ==> q[i].time != t
    ensures forall c :: 0 <= c < |left| ==> (Has(q[..k], c) <==> StartsAt(left[c], t))
  {
    hide Selected, Ordered, Within;
    forall i | 0 <= i < k ensures Has(q[..k], q[i].channel) {
      assert q[..k][i].channel == q[i].channel;
    }
    forall c | 0 <= c < |left| ensures Has(q[..k], c) <==> StartsAt(left[c], t) {
      if Has(q[..k], c) {
        var i :| 0 <= i < k && q[..k][i].channel == c;
        NextHead(q[i], channels, left, range);
      } else if left[c] != [] {
        var i :| 0 <= i < |q| && q[i].channel == c;
        NextHead(q[i], channels, left, range);
      }
    }
  }

  lemma MergedSoFar(out: seq<Row>, t: real, left: seq<seq<Sample>>)
    ensures First(t, left) ==>
      && out + Merged(left) == out + [RowAt(t, left)] + Merged(After(t, left))
      && Size(After(t, left)) < Size(left)
  {
    hide Merged, Size;
    if First(t, left) {
      MergedStep(t, left);
    }
  }

  lemma NoneQueued(channels: seq<seq<Sample>>, left: seq<seq<Sample>>, range: Range)
    requires |left| == |channels|
    ensures Mirrors([], channels, left, range)
    ensures forall k: nat :: !Has([], k)
  {
  }

  /** The wide export: its rows are the table of the selected samples. */
  method EncodeWaveCsv(channels: seq<seq<Sample>>, range: Range) returns (out: seq<Row>)
    ensures out == Merged(AllSelected(channels, range))
  {
    hide Merged, Size, Selected, First, Exhausted, Next, Ordered;
    ghost var left := AllSelected(channels, range);
    NoneQueued(channels, left, range);
    var rows: Queue := [];
    for c := 0 to |channels|
      invariant Mirrors(rows, channels, left, range)
      invariant forall k: nat :: Has(rows, k) <==> k < c && left[k] != []
    {
      assert channels[c][0..] == channels[c];
      rows := Enqueue(rows, channels, range, c, 0, left);
    }
    out := [];
    while rows != []
      invariant Mirrors(rows, channels, left, range)
      invariant forall k :: 0 <= k < |left| && left[k] != [] ==> Has(rows, k)
      invariant out + Merged(left) == Merged(AllSelected(channels, range))
      decreases Size(left)
    {
      MergedSoFar(out, rows[0].time, left) by { TopIsFirst(rows, channels, left, range); }
      var row;
      row, rows, left := EncodeRow(rows, channels, range, left);
      out := out + [row];
    }
    TopIsFirst(rows, channels, left, range);
    MergedEnd(left);
  }

  /** One turn of the export: every position at the top time goes into one row and is replaced by the next
    * sample of its channel. */
  method EncodeRow(queue: Queue, channels: seq<seq<Sample>>, range: Range, ghost left: seq<seq<Sample>>)
    returns (row: Row, rows: Queue, ghost rest: seq<seq<Sample>>)
    requires queue != []
    requires Mirrors(queue, channels, left, range)
    requires forall k :: 0 <= k < |left| && left[k] != [] ==> Has(queue, k)
    ensures First(queue[0].time, left) && row == RowAt(queue[0].time, left) && rest == After(queue[0].time, left)
    ensures Mirrors(rows, channels, rest, range)
    ensures forall k :: 0 <= k < |rest| && rest[k] != [] ==> Has(rows, k)
  {
    hide Selected, Within, Ordered, Size, RowAt, After, Next;
    var time := queue[0].time;
    TopIsFirst(queue, channels, left, range);
    var consumed;
    row, rows, consumed := PopTime(queue, channels, range, left);
    rest := After(time, left);
    Popped(queue, |consumed|, channels, left, range, time);
    for j := 0 to |consumed|
      invariant Mirrors(rows, channels, rest, range)
      invariant forall i :: j <= i < |consumed| ==>
        !Has(rows, consumed[i].channel) && Refill(consumed[i], channels, rest, range)
      invariant forall c :: 0 <= c < |rest| && rest[c] != [] ==> Has(rows, c) || Has(consumed[j..], c)
    {
      NotAgain(consumed, j, queue);
      rows := Enqueue(rows, channels, range, consumed[j].channel, consumed[j].sample + 1, rest);
    }
  }

  lemma HasOneMore(q: Queue, p: Position)
    ensures forall c: nat :: Has(q + [p], c) <==> Has(q, c) || c == p.channel
    ensures forall c: nat :: !Has([], c)
  {
    assert (q + [p])[|q|].channel == p.channel;
    forall c: nat | Has(q, c) ensures Has(q + [p], c) {
      var i :| 0 <= i < |q| && q[i].channel == c;
      assert (q + [p])[i].channel == c;
    }
  }

  /** Past the last position of the top time all are later. */
  lemma LaterTimes(q: Queue, k: nat)
    requires Ordered(q) && 0 < |q| && k <= |q| && (k < |q| ==> q[k].time != q[0].time)
    ensures forall i :: k <= i < |q| ==> q[i].time != q[0].time
  {
    forall i | k <= i < |q| ensures q[i].time != q[0].time {
      assert k > 0 ==> Earlier(q[0], q[k]);
      assert i > k ==> Earlier(q[k], q[i]);
    }
  }

  /** The inner loop of the export: pops all positions at the top time and fills their cells. */
  method PopTime(queue: Queue, channels: seq<seq<Sample>>, range: Range, ghost left: seq<seq<Sample>>)
    returns (row: Row, rows: Queue, consumed: seq<Position>)
    requires queue != []
    requires Mirrors(queue, channels, left, range)
    requires forall k :: 0 <= k < |left| && left[k] != [] ==> Has(queue, k)
    ensures |consumed| <= |queue| && consumed == queue[..|consumed|] && rows == queue[|consumed|..]
    ensures forall p :: p in consumed ==> p.time == queue[0].time
    ensures forall p :: p in rows ==> p.time != queue[0].time
    ensures row == RowAt(queue[0].time, left)
  {
    hide Selected, Within, CellsAt, Ordered, Has;
    rows := queue;
    var time := rows[0].time;
    var cells: seq<Cell> := seq(|channels|, _ => Blank);
    consumed := [];
    OnePerChannel(queue, channels, left, range);
    while rows != [] && rows[0].time == time
      invariant |consumed| <= |queue| && consumed == queue[..|consumed|] && rows == queue[|consumed|..]
      invariant forall p :: p in consumed ==> p.time == time
      invariant |cells| == |channels|
      invariant forall p :: p in consumed ==>
        Next(p, channels, left, range) && cells[p.channel] == Number(channels[p.channel][p.sample].value)
      invariant forall c :: 0 <= c < |channels| && !Has(consumed, c) ==> cells[c] == Blank
      decreases |rows|
    {
      var position := rows[0];
      assert position == queue[|consumed|] && position in queue;
      rows := rows[1..];
      cells := cells[position.channel := Number(channels[position.channel][position.sample].value)];
      HasOneMore(consumed, position);
      consumed := consumed + [position];
    }
    ghost var k := |consumed|;
    LaterTimes(queue, k);
    FilledRow(cells, queue, k, channels, left, range, time);
    row := [Number(time)] + cells;
  }

  /** The channel of a popped position has the samples after it left. */
  ghost predicate Refill(p: Position, channels: seq<seq<Sample>>, rest: seq<seq<Sample>>, range: Range)
    requires |rest| == |channels|
  {
    && p.channel < |channels| && p.sample < |channels[p.channel]|
    && rest[p.channel] == Selected(channels[p.channel][p.sample + 1..], range)
  }

  lemma NotAgain(consumed: seq<Position>, j: nat, queue: Queue)
    requires j < |consumed| <= |queue| && consumed == queue[..|consumed|]
    requires forall a, b :: 0 <= a < b < |queue| ==> queue[a].channel != queue[b].channel
    ensures forall i :: j < i < |consumed| ==> consumed[i].channel != consumed[j].channel
    ensures forall c: nat :: Has(consumed[j..], c) <==> c == consumed[j].channel || Has(consumed[j + 1..], c)
  {
    var now, next := consumed[j..], consumed[j + 1..];
    assert now == [consumed[j]] + next;
    forall c: nat | Has(next, c) ensures Has(now, c) {
      var i :| 0 <= i < |next| && next[i].channel == c;
      assert now[i + 1].channel == c;
    }
    assert now[0].channel == consumed[j].channel;
  }

  /** What the queue and the popped positions mean once the row is out. */
  lemma Popped(q: Queue, k: nat, channels: seq<seq<Sample>>, left: seq<seq<Sample>>, range: Range, t: real)
    requires Mirrors(q, channels, left, range) && k <= |q|
    requires forall c :: 0 <= c < |left| && left[c] != [] ==> Has(q, c)
    requires forall i :: 0 <= i < k ==> q[i].time == t
    requires forall i :: k <= i < |q| ==> q[i].time != t
    ensures var rest := After(t, left);
      && Mirrors(q[k..], channels, rest, range)
      && (forall i :: 0 <= i < k ==> !Has(q[k..], q[i].channel) && Refill(q[i], channels, rest, range))
      && (forall c :: 0 <= c < |rest| && rest[c] != [] ==> Has(q[k..], c) || Has(q[..k], c))
    ensures forall a, b :: 0 <= a < b < |q| ==> q[a].channel != q[b].channel
  {
    var rest := After(t, left);
    OnePerChannel(q, channels, left, range);
    forall i | 0 <= i < |q|
      ensures i < k ==> Refill(q[i], channels, rest, range)
      ensures k <= i ==> Next(q[i], channels, rest, range)
    {
      NextHead(q[i], channels, left, range);
    }
    forall c: nat | Has(q, c) ensures Has(q[k..], c) || Has(q[..k], c) {
      var i :| 0 <= i < |q| && q[i].channel == c;
      if i < k {
        assert q[..k][i].channel == c;
      } else {
        assert q[k..][i - k].channel == c;
      }
    }
  }

  // ---------------------------------------------------------------- the reader

  /** A row may be shorter than the header; what is missing is blank. */
  function CellAt(row: Row, column: nat): Cell {
    if column < |row| then row[column] else Blank
  }

  /** The row has a time and nothing but numbers and blanks under the header. */
  predicate Readable(row: Row, width: nat, timeColumn: nat) {
    && CellAt(row, timeColumn).Number?
    && forall c :: 0 <= c < width && c != timeColumn ==> !CellAt(row, c).Junk?
  }

  /** The column of a channel: the header's columns in order, without the time. */
  function ColumnOf(channel: nat, timeColumn: nat): nat {
    if channel < timeColumn then channel else channel + 1
  }

  function Taken(row: Row, timeColumn: nat, column: nat): (s: seq<Sample>)
    ensures |s| <= 1
  {
    match CellAt(row, timeColumn)
    case Number(time) =>
      (match CellAt(row, column)
       case Number(value) => [Sample(time, value)]
       case _ => [])
    case _ => []
  }

  /** The samples below one column. */
  function Column(rows: seq<Row>, timeColumn: nat, column: nat): seq<Sample> {
    if rows == [] then [] else Taken(rows[0], timeColumn, column) + Column(rows[1..], timeColumn, column)
  }

  /** Reads one row into the channels. */
  method ReadRow(row: Row, width: nat, timeColumn: nat, channels: seq<seq<Sample>>)
    returns (ok: bool, read: seq<seq<Sample>>)
    requires timeColumn < width == |channels| + 1
    ensures ok <==> Readable(row, width, timeColumn)
    ensures |read| == |channels|
    ensures ok ==> forall ch :: 0 <= ch < |channels| ==>
      read[ch] == channels[ch] + Taken(row, timeColumn, ColumnOf(ch, timeColumn))
  {
    read := channels;
    if !CellAt(row, timeColumn).Number? {
      return false, read;
    }
    var time := CellAt(row, timeColumn).value;
    var channelIndex := 0;
    for column := 0 to width
      invariant channelIndex == if column <= timeColumn then column else column - 1
      invariant |read| == |channels|
      invariant forall c :: 0 <= c < column && c != timeColumn ==> !CellAt(row, c).Junk?
      invariant forall ch :: 0 <= ch < channelIndex ==>
        read[ch] == channels[ch] + Taken(row, timeColumn, ColumnOf(ch, timeColumn))
      invariant forall ch :: channelIndex <= ch < |channels| ==> read[ch] == channels[ch]
    {
      if column == timeColumn {
        continue;
      }
      assert ColumnOf(channelIndex, timeColumn) == column;
      var text := CellAt(row, column);
      if !text.Blank? {
        if text.Junk? {
          return false, read;
        }
        read := read[channelIndex := read[channelIndex] + [Sample(time, text.value)]];
      }
      channelIndex := channelIndex + 1;
    }
    ok := true;
  }

  ghost predicate AllReadable(rows: seq<Row>, width: nat, timeColumn: nat) {
    forall r :: r in rows ==> Readable(r, width, timeColumn)
  }

  /** Reads a whole wide table. */
  method ReadWaveCsvWideRows(rows: seq<Row>, width: nat, timeColumn: nat)
    returns (ok: bool, channels: seq<seq<Sample>>)
    requires timeColumn < width
    ensures ok <==> AllReadable(rows, width, timeColumn)
    ensures ok ==> |channels| == width - 1
    ensures ok ==> forall ch :: 0 <= ch < width - 1 ==>
      channels[ch] == Column(rows, timeColumn, ColumnOf(ch, timeColumn))
  {
    channels := seq(width - 1, _ => []);
    for i := 0 to |rows|
      invariant |channels| == width - 1
      invariant AllReadable(rows[..i], width, timeColumn)
      invariant forall ch :: 0 <= ch < width - 1 ==>
        channels[ch] + Column(rows[i..], timeColumn, ColumnOf(ch, timeColumn))
        == Column(rows, timeColumn, ColumnOf(ch, timeColumn))
    {
      assert rows[i..][1..] == rows[i + 1..];
      assert rows[..i + 1] == rows[..i] + [rows[i]];
      ok, channels := ReadRow(rows[i], width, timeColumn, channels);
      if !ok {
        assert rows[i] in rows;
        return;
      }
    }
    assert rows[..|rows|] == rows;
    ok := true;
  }

  // ---------------------------------------------------------------- the final sort

  predicate Sorted(s: seq<Sample>) {
    forall i, j :: 0 <= i < j < |s| ==> s[i].time <= s[j].time
  }

  /** Puts a sample behind all samples that are not later. */
  function Place(s: seq<Sample>, x: Sample): seq<Sample> {
    if s == [] || x.time < s[0].time then [x] + s else [s[0]] + Place(s[1..], x)
  }

  /** The stable sort by time. */
  function StableSorted(s: seq<Sample>): seq<Sample> {
    if s == [] then [] else Place(StableSorted(s[..|s| - 1]), s[|s| - 1])
  }

  /** The samples at one time, in their order. */
  function At(s: seq<Sample>, time: real): seq<Sample> {
    if s == [] then [] else (if s[0].time == time then [s[0]] else []) + At(s[1..], time)
  }

  lemma Assoc<T>(a: seq<T>, b: seq<T>, c: seq<T>)
    ensures a + b + c == a + (b + c)
  {
  }

  lemma {:induction false} AtConcat(a: seq<Sample>, b: seq<Sample>, time: real)
    ensures At(a + b, time) == At(a, time) + At(b, time)
  {
    if a == [] {
      assert a + b == b;
    } else {
      assert (a + b)[1..] == a[1..] + b;
      AtConcat(a[1..], b, time);
      Assoc(if a[0].time == time then [a[0]] else [], At(a[1..], time), At(b, time));
    }
  }

  lemma {:induction false} PlaceSorts(s: seq<Sample>, x: Sample)
    requires Sorted(s)
    ensures Sorted(Place(s, x))
    ensures forall y :: y in Place(s, x) ==> y == x || y in s
  {
    if s != [] && s[0].time <= x.time {
      var head, tail := s[0], s[1..];
      assert Sorted(tail);
      PlaceSorts(tail, x);
      var r := Place(tail, x);
      forall i, j | 0 <= i < j < |[head] + r| ensures ([head] + r)[i].time <= ([head] + r)[j].time {
        if i == 0 {
          assert r[j - 1] in r;
        }
      }
    }
  }

  lemma {:induction false} PlaceKeeps(s: seq<Sample>, x: Sample, time: real)
    requires Sorted(s)
    ensures At(Place(s, x), time) == At(s, time) + At([x], time)
  {
    assert [x][1..] == [];
    if s == [] {
    } else if x.time < s[0].time {
      assert ([x] + s)[1..] == s;
      if x.time == time {
        NoneAt(s, time);
      }
    } else {
      var head, tail := s[0], s[1..];
      assert Sorted(tail);
      PlaceKeeps(tail, x, time);
      assert ([head] + Place(tail, x))[1..] == Place(tail, x);
    }
  }

  lemma {:induction false} NoneAt(s: seq<Sample>, time: real)
    requires forall y :: y in s ==> y.time != time
    ensures At(s, time) == []
  {
    if s != [] {
      NoneAt(s[1..], time);
    }
  }

  lemma {:induction false} StableSortedAt(s: seq<Sample>, time: real)
    ensures Sorted(StableSorted(s))
    ensures At(StableSorted(s), time) == At(s, time)
  {
    if s != [] {
      var front, last := s[..|s| - 1], s[|s| - 1];
      StableSortedAt(front, time);
      PlaceSorts(StableSorted(front), last);
      PlaceKeeps(StableSorted(front), last, time);
      AtConcat(front, [last], time);
      assert front + [last] == s;
    }
  }

  lemma {:induction false} AtHead(s: seq<Sample>, time: real)
    ensures At(s, time) != [] ==> exists i :: 0 <= i < |s| && s[i].time == time
  {
    if s != [] && s[0].time != time {
      AtHead(s[1..], time);
    }
  }

  /** The two have the same samples at every time, in the same order. */
  ghost predicate SameAt(a: seq<Sample>, b: seq<Sample>) {
    forall time :: At(a, time) == At(b, time)
  }

  /** A sorted sequence is fixed by the samples it has at each time. */
  lemma {:induction false} SortedUnique(a: seq<Sample>, b: seq<Sample>)
    requires Sorted(a) && Sorted(b)
    requires SameAt(a, b)
    ensures a == b
  {
    var first := if b == [] then 0.0 else b[0].time;
    assert At(a, first) == At(b, first);
    if a != [] {
      assert At(a, a[0].time) == At(b, a[0].time);
      AtHead(b, a[0].time);
      assert At(a, b[0].time) == At(b, b[0].time);
      AtHead(a, b[0].time);
      assert a[0].time == b[0].time;
      assert At(a, a[0].time)[0] == a[0] && At(b, a[0].time)[0] == b[0];
      forall time ensures At(a[1..], time) == At(b[1..], time) {
        assert At(a, time) == At(b, time);
        var head := if a[0].time == time then [a[0]] else [];
        assert At(a[1..], time) == At(a, time)[|head|..];
        assert At(b[1..], time) == At(b, time)[|head|..];
      }
      SortedUnique(a[1..], b[1..]);
    }
  }

  /** The stable sort is the sorted sequence that keeps the order of samples of equal time, and there is
    * no other. */
  lemma StableSortedLaw(s: seq<Sample>, sorted: seq<Sample>)
    ensures sorted == StableSorted(s) <==> Sorted(sorted) && SameAt(sorted, s)
  {
    StableSame(s);
    if Sorted(sorted) && SameAt(sorted, s) {
      SameTrans(sorted, s, StableSorted(s));
      SortedUnique(sorted, StableSorted(s));
    }
  }

  lemma StableSame(s: seq<Sample>)
    ensures Sorted(StableSorted(s)) && SameAt(StableSorted(s), s)
  {
    forall time ensures At(StableSorted(s), time) == At(s, time) {
      StableSortedAt(s, time);
    }
    StableSortedAt(s, 0.0);
  }

  lemma SameTrans(a: seq<Sample>, b: seq<Sample>, c: seq<Sample>)
    requires SameAt(a, b) && SameAt(c, b)
    ensures SameAt(a, c)
  {
    hide At;
    forall time ensures At(a, time) == At(c, time) {
      assert At(a, time) == At(b, time);
      assert At(c, time) == At(b, time);
    }
  }

  // ---------------------------------------------------------------- the round trip

  /** Each column of the table holds exactly its channel, in the channel's own order. */
  lemma {:induction false} MergedColumn(channels: seq<seq<Sample>>, c: nat)
    requires c < |channels|
    ensures Column(Merged(channels), 0, c + 1) == channels[c]
    ensures AllReadable(Merged(channels), |channels| + 1, 0)
    decreases Size(channels)
  {
    hide Merged, Size, First, RowAt, After, Readable;
    MergedEnd(channels);
    if !Exhausted(channels) {
      var t := FirstTime(channels);
      MergedStep(t, channels);
      var row, rest := RowAt(t, channels), After(t, channels);
      MergedColumn(rest, c);
      ReadableRow(t, channels);
      FirstTaken(channels, t, c);
      assert ([row] + Merged(rest))[1..] == Merged(rest);
    }
  }

  /** What the row of the first time takes from a channel is what it no longer has. */
  lemma FirstTaken(channels: seq<seq<Sample>>, t: real, c: nat)
    requires c < |channels|
    ensures Taken(RowAt(t, channels), 0, c + 1) + After(t, channels)[c] == channels[c]
  {
    assert RowAt(t, channels)[c + 1] == CellsAt(t, channels)[c];
  }

  lemma ReadableRow(t: real, channels: seq<seq<Sample>>)
    ensures Readable(RowAt(t, channels), |channels| + 1, 0)
  {
    var row := RowAt(t, channels);
    forall c | 0 <= c < |channels| + 1 && c != 0 ensures !CellAt(row, c).Junk? {
      assert row[c] == CellsAt(t, channels)[c - 1];
    }
  }

  lemma {:induction false} SelectedSorted(s: seq<Sample>, range: Range)
    ensures Sorted(s) ==> Sorted(Selected(s, range))
    ensures forall x :: x in Selected(s, range) ==> x in s
    ensures range.Everything? ==> Selected(s, range) == s
  {
    if s != [] {
      var first, tail := s[0], s[1..];
      SelectedSorted(tail, range);
      assert s == [first] + tail;
      if Sorted(s) {
        FirstStays(first, tail, Selected(tail, range));
      }
    }
  }

  lemma FirstStays(first: Sample, tail: seq<Sample>, r: seq<Sample>)
    requires Sorted([first] + tail) && (Sorted(tail) ==> Sorted(r)) && forall x :: x in r ==> x in tail
    ensures Sorted(tail) && Sorted(r) && Sorted([first] + r)
  {
    var all := [first] + tail;
    assert forall i :: 0 <= i < |tail| ==> tail[i] == all[i + 1];
    forall i | 0 <= i < |r| ensures first.time <= r[i].time {
      assert r[i] in tail;
      var k :| 0 <= k < |tail| && tail[k] == r[i];
      assert all[0].time <= all[k + 1].time;
    }
  }

  /** Exporting and reading back gives every channel its selected samples, put into the order of time
    * without disturbing samples of equal time; a full export of ordered channels loses nothing at all. */
  lemma WideRoundTrip(channels: seq<seq<Sample>>, range: Range)
    ensures AllReadable(Merged(AllSelected(channels, range)), |channels| + 1, 0)
    ensures forall c :: 0 <= c < |channels| ==>
      var read := StableSorted(Column(Merged(AllSelected(channels, range)), 0, ColumnOf(c, 0)));
      && read == StableSorted(Selected(channels[c], range))
      && (Sorted(channels[c]) ==> read == Selected(channels[c], range))
      && (Sorted(channels[c]) && range.Everything? ==> read == channels[c])
  {
    hide Merged, Selected, StableSorted, Sorted, Readable;
    var chosen := AllSelected(channels, range);
    if channels == [] {
      MergedEnd(chosen);
    } else {
      MergedColumn(chosen, 0);
    }
    forall c | 0 <= c < |channels|
      ensures Column(Merged(chosen), 0, ColumnOf(c, 0)) == Selected(channels[c], range)
      ensures Sorted(channels[c]) ==> StableSorted(Selected(channels[c], range)) == Selected(channels[c], range)
      ensures range.Everything? ==> Selected(channels[c], range) == channels[c]
    {
      MergedColumn(chosen, c);
      SelectedSorted(channels[c], range);
      StableSortedLaw(Selected(channels[c], range), Selected(channels[c], range));
    }
  }

  predicate AllSorted(channels: seq<seq<Sample>>) {
    forall c :: 0 <= c < |channels| ==> Sorted(channels[c])
  }

  /** Of ordered channels the rows are in the order of time, and rows of equal time are filled from the
    * first one on: the n-th samples of one time, channel by channel, stand in the n-th row of that time. */
  lemma {:induction false} RowsInOrder(channels: seq<seq<Sample>>, i: nat, j: nat)
    requires AllSorted(channels)
    requires i < j < |Merged(channels)|
    ensures var rows := Merged(channels);
      && |rows[i]| == |rows[j]| == |channels| + 1
      && rows[i][0].Number? && rows[j][0].Number? && rows[i][0].value <= rows[j][0].value
      && (rows[i][0] == rows[j][0] ==>
           forall c :: 0 < c <= |channels| && rows[j][c].Number? ==> rows[i][c].Number?)
    decreases i
  {
    hide Merged, Size, First, RowAt, After;
    MergedEnd(channels);
    var t := FirstTime(channels);
    MergedStep(t, channels);
    var rest := After(t, channels);
    AfterSorted(t, channels);
    if i > 0 {
      RowsInOrder(rest, i - 1, j - 1);
    } else {
      RowFromChannel(rest, j - 1);
      FirstRow(channels, t);
      FirstAgain(channels, t, Merged(channels)[j][0]);
    }
  }

  /** A channel with a sample at the time of the first row, or any later one, is in order behind that row. */
  lemma FirstAgain(channels: seq<seq<Sample>>, t: real, time: Cell)
    requires AllSorted(channels) && First(t, channels)
    ensures forall c :: 0 <= c < |channels| && HasSampleAt(After(t, channels)[c], time) ==>
      && time.Number? && t <= time.value
      && (time == Number(t) ==> StartsAt(channels[c], t))
  {
    forall c | 0 <= c < |channels| && HasSampleAt(After(t, channels)[c], time)
      ensures time.Number? && t <= time.value && (time == Number(t) ==> StartsAt(channels[c], t))
    {
      var x: Sample :| x in After(t, channels)[c] && Number(x.time) == time;
      assert x in channels[c];
      var i :| 0 <= i < |channels[c]| && channels[c][i] == x;
      assert channels[c][0].time <= x.time;
    }
  }

  /** The cells of the first row. */
  lemma FirstRow(channels: seq<seq<Sample>>, t: real)
    requires First(t, channels)
    ensures var row := RowAt(t, channels);
      && |row| == |channels| + 1 && row[0] == Number(t)
      && (forall c :: 0 < c <= |channels| ==> (row[c].Number? <==> StartsAt(channels[c - 1], t)))
      && (forall c :: 0 < c <= |channels| && row[c].Number? ==> HasSampleAt(channels[c - 1], row[0]))
      && (exists c: nat :: c < |channels| && channels[c] != [] && HasSampleAt(channels[c], row[0]))
  {
    var row := RowAt(t, channels);
    forall c | 0 < c <= |channels|
      ensures row[c].Number? <==> StartsAt(channels[c - 1], t)
      ensures row[c].Number? ==> HasSampleAt(channels[c - 1], row[0])
    {
      assert row[c] == CellsAt(t, channels)[c - 1];
      if row[c].Number? {
        assert channels[c - 1][0] in channels[c - 1];
      }
    }
    var c: nat :| c < |channels| && channels[c] != [] && channels[c][0].time == t;
    assert channels[c][0] in channels[c];
  }

  lemma AfterSorted(t: real, channels: seq<seq<Sample>>)
    ensures AllSorted(channels) ==> AllSorted(After(t, channels))
    ensures forall c, time :: 0 <= c < |channels| && HasSampleAt(After(t, channels)[c], time) ==>
      channels[c] != [] && HasSampleAt(channels[c], time)
  {
  }

  predicate HasSampleAt(s: seq<Sample>, time: Cell) {
    exists x: Sample :: x in s && Number(x.time) == time
  }

  /** Every filled cell of a row stands for a sample of its channel at the row's time. */
  lemma {:induction false} RowFromChannel(channels: seq<seq<Sample>>, j: nat)
    requires j < |Merged(channels)|
    ensures var row := Merged(channels)[j];
      && |row| == |channels| + 1 && row[0].Number?
      && (exists c: nat :: c < |channels| && channels[c] != [] && HasSampleAt(channels[c], row[0]))
      && (forall c :: 0 < c <= |channels| && row[c].Number? ==>
           HasSampleAt(channels[c - 1], row[0]))
    decreases j
  {
    hide Merged, Size, First, RowAt, After, HasSampleAt;
    MergedEnd(channels);
    var t := FirstTime(channels);
    MergedStep(t, channels);
    var rest := After(t, channels);
    FirstRow(channels, t);
    if j > 0 {
      RowFromChannel(rest, j - 1);
      AfterSorted(t, channels);
    }
  }

  // ---------------------------------------------------------------- reading in batches

  function Empty(n: nat): (channels: seq<seq<Sample>>)
    ensures |channels| == n && forall c :: 0 <= c < n ==> channels[c] == []
  {
    seq(n, _ => [])
  }

  datatype Batch = Batch(channel: nat, samples: seq<Sample>)

  const BATCH_SAMPLES: nat := 8192

  /** What the batches delivered to one channel. */
  function Delivered(batches: seq<Batch>, channel: nat): seq<Sample> {
    if batches == [] then []
    else (if batches[0].channel == channel then batches[0].samples else []) + Delivered(batches[1..], channel)
  }

  lemma {:induction false} DeliveredConcat(a: seq<Batch>, b: seq<Batch>, channel: nat)
    ensures Delivered(a + b, channel) == Delivered(a, channel) + Delivered(b, channel)
  {
    if a == [] {
      assert a + b == b;
    } else {
      assert (a + b)[1..] == a[1..] + b;
      DeliveredConcat(a[1..], b, channel);
      Assoc(if a[0].channel == channel then a[0].samples else [], Delivered(a[1..], channel), Delivered(b, channel));
    }
  }

  lemma {:induction false} PartOfSize(channels: seq<seq<Sample>>, c: nat)
    requires c < |channels|
    ensures |channels[c]| <= Size(channels)
  {
    if c > 0 {
      PartOfSize(channels[1..], c - 1);
    }
  }

  predicate SmallBatches(batches: seq<Batch>) {
    forall b :: b in batches ==> 0 < |b.samples| <= BATCH_SAMPLES
  }

  /** Hands the collected samples on, one batch for each channel that has any. */
  method Flush(values: seq<seq<Sample>>, batches: seq<Batch>) returns (emptied: seq<seq<Sample>>, all: seq<Batch>)
    requires SmallBatches(batches)
    requires forall c :: 0 <= c < |values| ==> |values[c]| <= BATCH_SAMPLES
    ensures |emptied| == |values| && forall c :: 0 <= c < |values| ==> emptied[c] == []
    ensures SmallBatches(all)
    ensures forall c :: 0 <= c < |values| ==> Delivered(all, c) == Delivered(batches, c) + values[c]
  {
    emptied, all := values, batches;
    for c := 0 to |values|
      invariant |emptied| == |values|
      invariant forall k :: 0 <= k < c ==> emptied[k] == []
      invariant forall k :: c <= k < |values| ==> emptied[k] == values[k]
      invariant SmallBatches(all)
      invariant forall k :: 0 <= k < |values| ==>
        Delivered(all, k) == Delivered(batches, k) + (if k < c then values[k] else [])
    {
      if values[c] == [] {
        continue;
      }
      var batch := Batch(c, values[c]);
      forall k: nat ensures Delivered(all + [batch], k) == Delivered(all, k) + (if k == c then values[c] else []) {
        DeliveredConcat(all, [batch], k);
        assert [batch][1..] == [];
      }
      all := all + [batch];
      emptied := emptied[c := []];
    }
  }

  /** The time of the last sample a channel has received. */
  datatype Latest = Never | LastAt(time: real)

  function LatestOf(s: seq<Sample>): Latest {
    if s == [] then Never else LastAt(s[|s| - 1].time)
  }

  predicate GoesBack(last: Latest, values: seq<Sample>) {
    values != [] && last.LastAt? && values[|values| - 1].time < last.time
  }

  /** Checks that no channel went back in time with the latest row, and notes the new times. */
  method CheckTimes(values: seq<seq<Sample>>, last: seq<Latest>) returns (ok: bool, updated: seq<Latest>)
    requires |values| == |last|
    ensures ok <==> forall c :: 0 <= c < |values| ==> !GoesBack(last[c], values[c])
    ensures |updated| == |last|
    ensures ok ==> forall c :: 0 <= c < |values| ==>
      updated[c] == if values[c] == [] then last[c] else LatestOf(values[c])
  {
    updated := last;
    for c := 0 to |values|
      invariant |updated| == |last|
      invariant forall k :: 0 <= k < c ==> !GoesBack(last[k], values[k])
      invariant forall k :: 0 <= k < |values| ==>
        updated[k] == if k >= c || values[k] == [] then last[k] else LatestOf(values[k])
    {
      if values[c] != [] {
        if GoesBack(last[c], values[c]) {
          return false, updated;
        }
        updated := updated[c := LatestOf(values[c])];
      }
    }
    ok := true;
  }

  /** One more sample, or none, at the end of an ordered channel: it went back exactly when order is lost. */
  lemma OneMoreSample(sent: seq<Sample>, held: seq<Sample>, more: seq<Sample>)
    requires Sorted(sent + held) && |more| <= 1
    ensures Sorted(sent + held + more) <==> !GoesBack(LatestOf(sent + held), held + more)
    ensures !GoesBack(LatestOf(sent + held), held + more) ==>
      LatestOf(sent + held + more)
      == (if held + more == [] then LatestOf(sent + held) else LatestOf(held + more))
  {
    var seen := sent + held;
    if more == [] {
      assert seen + more == seen && held + more == held;
    } else {
      var all := seen + more;
      assert all[|seen|] == more[0];
      if seen != [] && Sorted(all) {
        assert all[|seen| - 1].time <= all[|seen|].time;
      }
      assert forall i :: 0 <= i < |seen| ==> all[i] == seen[i];
    }
  }

  lemma SortedFront(a: seq<Sample>, b: seq<Sample>)
    requires Sorted(a + b)
    ensures Sorted(a)
  {
    assert a == (a + b)[..|a|];
  }

  /** Where a streamed read stands before row `i`. */
  ghost predicate Streaming(rows: seq<Row>, i: nat, timeColumn: nat, batches: seq<Batch>, values: seq<seq<Sample>>,
                            last: seq<Latest>)
    requires i <= |rows|
  {
    && |last| == |values|
    && forall c :: 0 <= c < |values| ==>
      && Sorted(Delivered(batches, c) + values[c])
      && last[c] == LatestOf(Delivered(batches, c) + values[c])
      && Delivered(batches, c) + values[c] + Column(rows[i..], timeColumn, ColumnOf(c, timeColumn))
         == Column(rows, timeColumn, ColumnOf(c, timeColumn))
  }

  /** Taking a row keeps the read on course exactly when no channel goes back. */
  lemma RowTaken(rows: seq<Row>, i: nat, timeColumn: nat, batches: seq<Batch>, values: seq<seq<Sample>>,
                 last: seq<Latest>, more: seq<seq<Sample>>)
    requires i < |rows| && Streaming(rows, i, timeColumn, batches, values, last)
    requires |more| == |values|
    requires forall c :: 0 <= c < |values| ==>
      more[c] == values[c] + Taken(rows[i], timeColumn, ColumnOf(c, timeColumn))
    ensures forall c :: 0 <= c < |values| && GoesBack(last[c], more[c]) ==>
      !Sorted(Column(rows, timeColumn, ColumnOf(c, timeColumn)))
    ensures (forall c :: 0 <= c < |values| ==> !GoesBack(last[c], more[c])) ==>
      Streaming(rows, i + 1, timeColumn, batches, more,
        seq(|values|, c requires 0 <= c < |values| => if more[c] == [] then last[c] else LatestOf(more[c])))
  {
    hide Sorted, LatestOf, GoesBack, Taken;
    assert rows[i..][1..] == rows[i + 1..];
    forall c | 0 <= c < |values|
      ensures Delivered(batches, c) + more[c] + Column(rows[i + 1..], timeColumn, ColumnOf(c, timeColumn))
           == Column(rows, timeColumn, ColumnOf(c, timeColumn))
      ensures GoesBack(last[c], more[c]) ==> !Sorted(Column(rows, timeColumn, ColumnOf(c, timeColumn)))
      ensures !GoesBack(last[c], more[c]) ==>
        && Sorted(Delivered(batches, c) + more[c])
        && LatestOf(Delivered(batches, c) + more[c]) == if more[c] == [] then last[c] else LatestOf(more[c])
    {
      var sent, taken := Delivered(batches, c), Taken(rows[i], timeColumn, ColumnOf(c, timeColumn));
      var rest := Column(rows[i + 1..], timeColumn, ColumnOf(c, timeColumn));
      OneMoreSample(sent, values[c], taken);
      assert sent + values[c] + taken == sent + more[c];
      assert sent + values[c] + (taken + rest) == sent + more[c] + rest;
      if Sorted(Column(rows, timeColumn, ColumnOf(c, timeColumn))) {
        SortedFront(sent + more[c], rest);
      }
    }
  }

  /** Reads a table declared to be in the order of time row by row and hands the samples on in batches.  It
    * succeeds exactly when every row is readable and every column keeps that order; the batches then add up
    * to the columns, and none is larger than the import's budget for one. */
  method StreamWaveCsv(rows: seq<Row>, width: nat, timeColumn: nat) returns (ok: bool, batches: seq<Batch>)
    requires timeColumn < width
    ensures ok <==>
      && AllReadable(rows, width, timeColumn)
      && forall c :: 0 <= c < width - 1 ==> Sorted(Column(rows, timeColumn, ColumnOf(c, timeColumn)))
    ensures ok ==> forall c :: 0 <= c < width - 1 ==>
      Delivered(batches, c) == Column(rows, timeColumn, ColumnOf(c, timeColumn))
    ensures SmallBatches(batches)
  {
    hide Sorted, LatestOf, GoesBack, Taken, Column, Readable, Delivered, Size;
    var values: seq<seq<Sample>> := Empty(width - 1);
    var last: seq<Latest> := seq(width - 1, _ => Never);
    batches := [];
    StreamStart(rows, timeColumn, width - 1);
    for i := 0 to |rows|
      invariant |values| == width - 1
      invariant Streaming(rows, i, timeColumn, batches, values, last)
      invariant AllReadable(rows[..i], width, timeColumn)
      invariant Size(values) < BATCH_SAMPLES
      invariant SmallBatches(batches)
    {
      assert rows[..i + 1] == rows[..i] + [rows[i]];
      var before, times := values, last;
      ok, values := ReadRow(rows[i], width, timeColumn, before);
      if !ok {
        assert rows[i] in rows;
        return;
      }
      RowTaken(rows, i, timeColumn, batches, before, times, values);
      ok, last := CheckTimes(values, times);
      if !ok {
        return;
      }
      assert last == seq(|values|, c requires 0 <= c < |values| =>
        if values[c] == [] then times[c] else LatestOf(values[c]));
      BatchBound(before, values);
      if Size(values) >= BATCH_SAMPLES {
        ghost var held, sent := values, batches;
        values, batches := Flush(values, batches);
        StillStreaming(rows, i + 1, timeColumn, sent, held, batches, values, last);
      }
    }
    BatchBound(values, values);
    ghost var held, sent := values, batches;
    values, batches := Flush(values, batches);
    StreamEnd(rows, timeColumn, sent, held, last);
    assert rows[..|rows|] == rows;
    ok := true;
  }

  lemma StreamStart(rows: seq<Row>, timeColumn: nat, n: nat)
    ensures Streaming(rows, 0, timeColumn, [], Empty(n), seq(n, _ => Never))
    ensures Size(Empty(n)) == 0
  {
    assert rows[0..] == rows;
    SizeOfEmpty(n);
  }

  lemma {:induction false} SizeOfEmpty(n: nat)
    ensures Size(Empty(n)) == 0
  {
    if n > 0 {
      SizeOfEmpty(n - 1);
      assert Empty(n)[1..] == Empty(n - 1);
    }
  }

  lemma BatchBound(before: seq<seq<Sample>>, values: seq<seq<Sample>>)
    requires |before| == |values|
    requires forall c :: 0 <= c < |values| ==> |values[c]| <= |before[c]| + 1
    requires Size(before) < BATCH_SAMPLES
    ensures forall c :: 0 <= c < |values| ==> |values[c]| <= BATCH_SAMPLES
  {
    forall c | 0 <= c < |values| ensures |values[c]| <= BATCH_SAMPLES {
      PartOfSize(before, c);
    }
  }

  lemma StillStreaming(rows: seq<Row>, i: nat, timeColumn: nat, sent: seq<Batch>, held: seq<seq<Sample>>,
                       batches: seq<Batch>, values: seq<seq<Sample>>, last: seq<Latest>)
    requires i <= |rows| && Streaming(rows, i, timeColumn, sent, held, last)
    requires |values| == |held| && forall c :: 0 <= c < |values| ==> values[c] == []
    requires forall c :: 0 <= c < |values| ==> Delivered(batches, c) == Delivered(sent, c) + held[c]
    ensures Streaming(rows, i, timeColumn, batches, values, last)
    ensures Size(values) == 0
  {
    hide Sorted, LatestOf, Column, Delivered, Size;
    forall c | 0 <= c < |values| ensures Delivered(batches, c) + values[c] == Delivered(sent, c) + held[c] {
    }
    assert values == Empty(|values|);
    SizeOfEmpty(|values|);
  }

  lemma StreamEnd(rows: seq<Row>, timeColumn: nat, sent: seq<Batch>, held: seq<seq<Sample>>, last: seq<Latest>)
    requires Streaming(rows, |rows|, timeColumn, sent, held, last)
    ensures forall c :: 0 <= c < |held| ==>
      && Delivered(sent, c) + held[c] == Column(rows, timeColumn, ColumnOf(c, timeColumn))
      && Sorted(Column(rows, timeColumn, ColumnOf(c, timeColumn)))
  {
    hide Sorted, Delivered, LatestOf;
    assert rows[|rows|..] == [];
  }
}
