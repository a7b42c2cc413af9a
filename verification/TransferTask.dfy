/** Importing a data file in the background: events are packed into batches that fit the consumer's budget, and
  * a bounded queue hands the batches over. */
module TransferTask {
  import opened Basics
  import opened Bytes

  datatype Event = Event(control: bool, header: string, bytes: seq<byte>)

  datatype Batch =
    | Metadata
    | Samples(count: nat)
    | Single(event: Event)
    | Packed(events: seq<Event>)

  const BATCH_BYTES: nat := 65536
  const BATCH_EVENTS: nat := 256
  const BATCH_SAMPLES: nat := 8192

  // ---------------------------------------------------------------- what is delivered

  function EventsOf(b: Batch): seq<Event> {
    match b
    case Single(e) => [e]
    case Packed(events) => events
    case _ => []
  }

  /** The events of the batches in order. */
  function Delivered(batches: seq<Batch>): seq<Event> {
    if batches == [] then [] else EventsOf(batches[0]) + Delivered(batches[1..])
  }

  function Cost(e: Event): nat {
    if e.bytes == [] then 1 else |e.bytes|
  }

  function TotalCost(events: seq<Event>): nat {
    if events == [] then 0 else Cost(events[0]) + TotalCost(events[1..])
  }

  /** Whether a batch can be taken with a full budget for samples and bytes. */
  predicate FitsBudget(b: Batch, maxSamples: nat, maxBytes: nat) {
    (b.Samples? ==> b.count <= maxSamples) && (b.Packed? ==> TotalCost(b.events) <= maxBytes)
  }

  lemma Assoc<T>(a: seq<T>, b: seq<T>, c: seq<T>)
    ensures a + b + c == a + (b + c)
  {
  }

  lemma {:induction false} DeliveredSnoc(batches: seq<Batch>, b: Batch)
    ensures Delivered(batches + [b]) == Delivered(batches) + EventsOf(b)
  {
    if batches == [] {
      assert [b][1..] == [] && batches + [b] == [b];
    } else {
      assert (batches + [b])[1..] == batches[1..] + [b];
      DeliveredSnoc(batches[1..], b);
      Assoc(EventsOf(batches[0]), Delivered(batches[1..]), EventsOf(b));
    }
  }

  lemma {:induction false} CostSnoc(events: seq<Event>, e: Event)
    ensures TotalCost(events + [e]) == TotalCost(events) + Cost(e)
  {
    if events == [] {
      assert [e][1..] == [] && events + [e] == [e];
    } else {
      assert (events + [e])[1..] == events[1..] + [e];
      CostSnoc(events[1..], e);
    }
  }

  function Opt(e: Option<Event>): seq<Event> {
    if e.Some? then [e.value] else []
  }

  /** A call of the event callback. */
  datatype Call = Call(event: Event, continuation: bool)

  /** The events so far, with one more call: a continuation lengthens the event it continues. */
  function Heard(events: seq<Event>, c: Call): seq<Event> {
    if c.continuation && events != []
    then events[..|events| - 1] + [events[|events| - 1].(bytes := events[|events| - 1].bytes + c.event.bytes)]
    else events + [c.event]
  }

  // ---------------------------------------------------------------- packing

  /** The packing callbacks of one import; `sent` are the batches put into the queue. */
  class Packer {
    var pending: seq<Event>
    var pendingBytes: nat
    var streamedEvent: Option<Event>
    var sent: seq<Batch>
    /** The events the calls so far amount to. */
    ghost var heard: seq<Event>

    ghost predicate Valid()
      reads this
    {
      && heard == Delivered(sent) + Opt(streamedEvent) + pending
      && pendingBytes == TotalCost(pending) <= BATCH_BYTES && |pending| <= BATCH_EVENTS
      && (forall b :: b in sent ==> FitsBudget(b, BATCH_SAMPLES, BATCH_BYTES) && |EventsOf(b)| <= BATCH_EVENTS)
    }

    constructor ()
      ensures Valid() && heard == [] && sent == [] && pending == [] && streamedEvent == None
    {
      pending, pendingBytes, streamedEvent, sent, heard := [], 0, None, [], [];
    }

    method Push(b: Batch)
      modifies `sent
      ensures sent == old(sent) + [b] && Delivered(sent) == Delivered(old(sent)) + EventsOf(b)
    {
      DeliveredSnoc(sent, b);
      sent := sent + [b];
    }

    /** Sends the packed events, ahead of one that is being collected. */
    method Flush()
      requires Valid()
      modifies `pending, `pendingBytes, `sent, `heard
      ensures Valid() && pending == [] && Delivered(sent) == Delivered(old(sent)) + old(pending)
      ensures streamedEvent.None? ==> heard == old(heard) && Delivered(sent) == heard
      ensures old(pending) == [] ==> heard == old(heard) && sent == old(sent)
    {
      if pending == [] {
        return;
      }
      Push(Packed(pending));
      assert streamedEvent.None? ==> heard == Delivered(sent) + [] + [];
      pending, pendingBytes := [], 0;
      heard := Delivered(sent) + Opt(streamedEvent) + [];
    }

    /** Sends the event whose slices were collected. */
    method FlushStreamedEvent()
      requires Valid()
      modifies `streamedEvent, `sent
      ensures Valid() && streamedEvent == None
      ensures Delivered(sent) == Delivered(old(sent)) + Opt(old(streamedEvent))
    {
      if streamedEvent.None? {
        return;
      }
      Push(Single(streamedEvent.value));
      assert heard == Delivered(sent) + [] + pending;
      streamedEvent := None;
    }

    /** Takes one call.  In the calls a reader makes, where a continuation has an event to continue, nothing is
      * lost or reordered: what was sent, the collected event and the packed ones always make up all events
      * heard.  A continuation with nothing to continue becomes an event of its own, which goes ahead of the
      * packed ones. */
    method OnEvent(event: Event, continuation: bool)
      requires Valid()
      modifies this
      ensures Valid()
      ensures Proper(event, continuation, old(streamedEvent)) && (old(streamedEvent).Some? ==> old(pending) == []) ==>
        && heard == Heard(old(heard), Call(event, continuation))
        && (streamedEvent.Some? ==> pending == [])
      ensures continuation && !event.control && old(streamedEvent).None? ==>
        && heard == Delivered(old(sent)) + [event] + old(pending)
        && (heard == old(heard) + [event] <==> [event] + old(pending) == old(pending) + [event])
      ensures !(continuation && event.control) ==>
        (streamedEvent.Some? <==> !event.control && |event.bytes| == BATCH_BYTES)
    {
      hide Delivered, TotalCost;
      if !continuation {
        FlushStreamedEvent();
      }
      ghost var before := heard;
      if event.control {
        Flush();
        Push(Single(event));
        heard := Delivered(sent) + Opt(streamedEvent) + [];
        assert streamedEvent.None? ==> heard == before + [event];
        return;
      }
      if continuation {
        Continue(event);
        return;
      }
      if |event.bytes| == BATCH_BYTES {
        Flush();
        streamedEvent := Some(event);
        heard := heard + [event];
        assert heard == Delivered(sent) + [event] + [];
        return;
      }
      if |event.bytes| > BATCH_BYTES {
        Flush();
        Push(Single(event));
        heard := heard + [event];
        assert heard == Delivered(sent) + [] + [];
        return;
      }
      Pack(event);
    }

    /** A continuation goes to the collected event or begins one; a short slice ends it. */
    method Continue(event: Event)
      requires Valid() && !event.control
      modifies this
      ensures Valid() && pending == old(pending)
      ensures old(streamedEvent).Some? && old(pending) == [] ==> heard == Heard(old(heard), Call(event, true))
      ensures old(streamedEvent).None? ==>
        && heard == Delivered(old(sent)) + [event] + old(pending)
        && (heard == old(heard) + [event] <==> [event] + old(pending) == old(pending) + [event])
      ensures streamedEvent.Some? <==> |event.bytes| == BATCH_BYTES
    {
      hide Delivered, TotalCost;
      ghost var front := Delivered(sent);
      if streamedEvent.None? {
        AheadOfPacked(front, event, pending);
        streamedEvent := Some(event);
        heard := front + [event] + pending;
      } else {
        var longer := streamedEvent.value.(bytes := streamedEvent.value.bytes + event.bytes);
        assert pending == [] ==> heard == front + [streamedEvent.value] + [] && heard[..|heard| - 1] == front;
        heard := front + [longer] + pending;
        streamedEvent := Some(longer);
      }
      if |event.bytes| == BATCH_BYTES {
        return;
      }
      FlushStreamedEvent();
    }

    method Pack(event: Event)
      requires Valid() && streamedEvent.None? && |event.bytes| <= BATCH_BYTES
      modifies this
      ensures Valid() && streamedEvent.None? && heard == old(heard) + [event]
    {
      hide Delivered;
      var cost := Cost(event);
      if pendingBytes + cost > BATCH_BYTES || |pending| >= BATCH_EVENTS {
        Flush();
      }
      CostSnoc(pending, event);
      assert Delivered(sent) + [] + (pending + [event]) == Delivered(sent) + [] + pending + [event];
      pendingBytes := pendingBytes + cost;
      pending := pending + [event];
      heard := heard + [event];
    }
  }

  /** A call a reader makes: a continuation carries bytes for an event that is being collected. */
  predicate Proper(event: Event, continuation: bool, streamedEvent: Option<Event>) {
    continuation ==> !event.control && streamedEvent.Some?
  }

  lemma AheadOfPacked(front: seq<Event>, event: Event, pending: seq<Event>)
    ensures front + [event] + pending == front + [] + pending + [event] <==> [event] + pending == pending + [event]
  {
    assert front + [event] + pending == front + ([event] + pending);
    assert front + [] + pending + [event] == front + (pending + [event]);
    var a, b := [event] + pending, pending + [event];
    if front + a == front + b {
      assert a == (front + a)[|front|..] == (front + b)[|front|..] == b;
    }
  }

  // ---------------------------------------------------------------- whole imports

  /** As much of an event as its first `offset` bytes make up. */
  function SoFar(e: Event, offset: nat): seq<Event>
    requires offset <= |e.bytes|
  {
    if offset == 0 then [] else [e.(bytes := e.bytes[..offset])]
  }

  lemma HeardSlice(before: seq<Event>, e: Event, offset: nat, count: nat)
    requires 0 < count && offset + count <= |e.bytes|
    ensures Heard(before + SoFar(e, offset), Call(e.(bytes := e.bytes[offset..offset + count]), offset != 0))
         == before + SoFar(e, offset + count)
  {
    assert e.bytes[..offset] + e.bytes[offset..offset + count] == e.bytes[..offset + count];
    assert e.bytes[0..count] == e.bytes[..count];
    var events := before + SoFar(e, offset);
    if offset > 0 {
      assert events[..|events| - 1] == before;
    } else {
      assert events == before;
    }
  }

  /** A slice has full size unless it is the last and the size is no multiple of it. */
  lemma SliceSizes(size: nat, turns: nat, offset: nat, count: nat)
    requires offset == turns * BATCH_BYTES < size
    requires count == if size - offset < BATCH_BYTES then size - offset else BATCH_BYTES
    ensures offset + count < size ==> count == BATCH_BYTES && offset + count == (turns + 1) * BATCH_BYTES
    ensures offset + count == size ==> (count == BATCH_BYTES <==> size % BATCH_BYTES == 0)
  {
    if offset + count == size {
      if count == BATCH_BYTES {
        assert size == (turns + 1) * BATCH_BYTES;
      } else {
        assert size == turns * BATCH_BYTES + count;
      }
    }
  }

  /** Feeds the slices of one event from `offset` on. */
  method FeedSlices(p: Packer, e: Event)
    requires p.Valid() && !e.control && e.bytes != [] && (p.streamedEvent.Some? ==> p.pending == [])
    modifies p
    ensures p.Valid() && p.heard == old(p.heard) + [e] && (p.streamedEvent.Some? ==> p.pending == [])
    ensures p.streamedEvent.Some? <==> |e.bytes| % BATCH_BYTES == 0
  {
    hide Delivered, TotalCost, Heard, Cost;
    var offset := 0;
    ghost var turns, before := 0, p.heard;
    while offset < |e.bytes|
      invariant p.Valid() && offset <= |e.bytes| && (p.streamedEvent.Some? ==> p.pending == [])
      invariant p.heard == before + SoFar(e, offset)
      invariant offset < |e.bytes| ==> offset == turns * BATCH_BYTES
      invariant offset == |e.bytes| ==> p.streamedEvent.Some? == (|e.bytes| % BATCH_BYTES == 0)
      invariant 0 < offset < |e.bytes| ==> p.streamedEvent.Some?
    {
      var count := if |e.bytes| - offset < BATCH_BYTES then |e.bytes| - offset else BATCH_BYTES;
      var slice := e.(bytes := e.bytes[offset..offset + count]);
      HeardSlice(before, e, offset, count);
      SliceSizes(|e.bytes|, turns, offset, count);
      p.OnEvent(slice, offset != 0);
      offset := offset + count;
      turns := turns + 1;
    }
    assert e.bytes[..|e.bytes|] == e.bytes;
  }

  /** A record file or the capture of a session: every event is delivered once, in order, whatever its size. */
  method ImportRecording(events: seq<Event>) returns (batches: seq<Batch>)
    ensures Delivered(batches) == events
    ensures forall b :: b in batches ==> FitsBudget(b, 8192, 65536) && |EventsOf(b)| <= 256
  {
    var p := new Packer();
    for i := 0 to |events|
      invariant p.Valid() && fresh(p) && p.heard == events[..i]
      invariant p.streamedEvent.Some? ==> p.pending == []
    {
      assert events[..i + 1] == events[..i] + [events[i]];
      if events[i].control || events[i].bytes == [] {
        p.OnEvent(events[i], false);
      } else {
        FeedSlices(p, events[i]);
      }
    }
    assert events[..|events|] == events;
    p.FlushStreamedEvent();
    p.Flush();
    batches := p.sent;
  }

  /** Whether the last event has exactly the size at which the packer waits for a continuation. */
  predicate EndsOnSliceSize(events: seq<Event>) {
    events != [] && !events[|events| - 1].control && |events[|events| - 1].bytes| == BATCH_BYTES
  }

  /** An event table in text form gives whole events and ends without asking for the collected one.  Every
    * event is delivered if and only if the last one does not have exactly the size of a slice; otherwise
    * just that one is lost. */
  method ImportEventTable(events: seq<Event>) returns (batches: seq<Batch>)
    ensures Delivered(batches) == events <==> !EndsOnSliceSize(events)
    ensures EndsOnSliceSize(events) ==> Delivered(batches) == events[..|events| - 1]
    ensures forall b :: b in batches ==> FitsBudget(b, 8192, 65536) && |EventsOf(b)| <= 256
  {
    hide Delivered, TotalCost, Heard;
    var p := new Packer();
    for i := 0 to |events|
      invariant p.Valid() && fresh(p) && p.heard == events[..i]
      invariant p.streamedEvent.Some? ==> p.pending == []
      invariant p.streamedEvent.Some? <==> EndsOnSliceSize(events[..i])
    {
      HeardWhole(events, i);
      p.OnEvent(events[i], false);
    }
    assert events[..|events|] == events;
    p.Flush();
    batches := p.sent;
    AllButOpen(events, Delivered(batches), p.streamedEvent);
  }

  /** One event of the size of a slice is such a table: nothing of it is delivered. */
  method ImportSliceSizedTable(header: string) returns (table: seq<Event>, batches: seq<Batch>)
    ensures table == [Event(false, header, seq(BATCH_BYTES, _ => 0))]
    ensures Delivered(batches) == [] && Delivered(batches) != table
  {
    hide Delivered;
    table := [Event(false, header, seq(BATCH_BYTES, _ => 0))];
    batches := ImportEventTable(table);
  }

  lemma HeardWhole(events: seq<Event>, i: nat)
    requires i < |events|
    ensures Heard(events[..i], Call(events[i], false)) == events[..i + 1]
    ensures EndsOnSliceSize(events[..i + 1]) <==> !events[i].control && |events[i].bytes| == BATCH_BYTES
  {
    assert events[..i + 1] == events[..i] + [events[i]];
  }

  lemma AllButOpen(events: seq<Event>, delivered: seq<Event>, open: Option<Event>)
    requires events == delivered + Opt(open) + []
    ensures open.None? ==> delivered == events
    ensures open.Some? ==> events != [] && delivered == events[..|events| - 1] && delivered != events
  {
  }

  // ---------------------------------------------------------------- the queue

  const QUEUE_BATCHES: nat := 4

  datatype Pushing = Waits | Stopped | Accepted

  /** The state the importing thread and the main loop share; each method is one critical section. */
  class ImportQueue {
    var batches: seq<Batch>
    var active: bool
    var complete: bool
    var canceled: bool
    var failed: bool
    var confirmed: bool
    var awaitingConfirmation: bool
    var stopRequested: bool

    ghost var pushed: seq<Batch>
    ghost var taken: seq<Batch>
    /** Whether waiting batches were thrown away. */
    ghost var cleared: bool

    ghost predicate Valid()
      reads this
    {
      && |batches| <= QUEUE_BATCHES
      && (!cleared ==> pushed == taken + batches)
      && (cleared ==> canceled || failed)
      && (complete ==> (active <==> batches != []))
      && (pushed != [] ==> confirmed && pushed[0].Metadata?)
      && (forall b :: b in batches ==> FitsBudget(b, BATCH_SAMPLES, BATCH_BYTES))
    }

    /** With no cancellation and no error the batches taken are always the first of those pushed, and once the
      * finished import is inactive they are all of them. */
    lemma TakenInOrder()
      requires Valid() && !canceled && !failed
      ensures taken <= pushed && |pushed| <= |taken| + QUEUE_BATCHES
      ensures complete && !active ==> taken == pushed
    {
    }

    constructor StartImport()
      ensures Valid() && active && !complete && !canceled && !failed && pushed == [] && taken == []
      ensures !confirmed && !awaitingConfirmation && !stopRequested
    {
      batches, pushed, taken := [], [], [];
      active, complete, canceled, failed := true, false, false, false;
      confirmed, awaitingConfirmation, stopRequested, cleared := false, false, false, false;
    }

    /** The reader has found out what the file holds, and asks for confirmation. */
    method Announce()
      requires Valid() && !complete
      modifies `awaitingConfirmation
      ensures Valid() && awaitingConfirmation
    {
      awaitingConfirmation := true;
    }

    /** The importing thread waits for the confirmation; only then does the first batch, the metadata, go into
      * the queue. */
    method PushMetadata() returns (r: Pushing)
      requires Valid() && !complete && pushed == []
      modifies `batches, `pushed
      ensures Valid()
      ensures r.Accepted? ==> confirmed && !stopRequested && pushed == [Metadata] && batches == old(batches) + [Metadata]
      ensures r.Stopped? <==> stopRequested
      ensures r.Waits? <==> !stopRequested && (!confirmed || |old(batches)| == QUEUE_BATCHES)
      ensures !r.Accepted? ==> batches == old(batches) && pushed == []
    {
      if !confirmed {
        return if stopRequested then Stopped else Waits;
      }
      r := Push(Metadata);
    }

    /** The importing thread offers a batch; it waits while four are in the queue. */
    method Push(batch: Batch) returns (r: Pushing)
      requires Valid() && !complete && FitsBudget(batch, BATCH_SAMPLES, BATCH_BYTES)
      requires pushed == [] ==> confirmed && batch.Metadata?
      modifies `batches, `pushed
      ensures Valid()
      ensures r.Stopped? <==> stopRequested
      ensures r.Waits? <==> !stopRequested && |old(batches)| == QUEUE_BATCHES
      ensures r.Accepted? ==> batches == old(batches) + [batch] && pushed == old(pushed) + [batch]
      ensures !r.Accepted? ==> batches == old(batches) && pushed == old(pushed)
    {
      if stopRequested {
        return Stopped;
      }
      if |batches| >= QUEUE_BATCHES {
        return Waits;
      }
      batches := batches + [batch];
      pushed := pushed + [batch];
      r := Accepted;
    }

    /** The importing thread is done. */
    method Finish(error: bool, stopped: bool)
      requires Valid() && !complete
      modifies this
      ensures Valid() && complete && !awaitingConfirmation
      ensures failed == (old(failed) || error) && canceled == (old(canceled) || stopped)
      ensures pushed == old(pushed) && taken == old(taken)
      ensures batches == (if failed || canceled then [] else old(batches))
      ensures active <==> batches != []
    {
      failed := failed || error;
      canceled := stopped || canceled;
      complete := true;
      awaitingConfirmation := false;
      if canceled || failed {
        batches := [];
        cleared := true;
      }
      active := batches != [];
    }

    /** The main loop takes the first batch if its budget allows. */
    method Take(maxSamples: nat, maxBytes: nat) returns (batch: Option<Batch>)
      requires Valid()
      modifies `batches, `taken, `active
      ensures Valid()
      ensures batch.Some? <==> old(batches) != [] && FitsBudget(old(batches)[0], maxSamples, maxBytes)
      ensures old(batches) != [] && maxSamples >= BATCH_SAMPLES && maxBytes >= BATCH_BYTES ==> batch.Some?
      ensures batch.Some? ==>
        && [batch.value] + batches == old(batches) && taken == old(taken) + [batch.value]
        && active == (old(active) && !(complete && batches == []))
      ensures batch.None? ==> batches == old(batches) && taken == old(taken) && active == old(active)
    {
      if batches == [] {
        return None;
      }
      var first := batches[0];
      assert first in batches;
      if first.Samples? && first.count > maxSamples {
        return None;
      }
      if first.Packed? {
        var eventBytes := 0;
        for i := 0 to |first.events|
          invariant eventBytes + TotalCost(first.events[i..]) == TotalCost(first.events)
        {
          assert first.events[i..][1..] == first.events[i + 1..];
          eventBytes := eventBytes + if |first.events[i].bytes| < 1 then 1 else |first.events[i].bytes|;
        }
        if eventBytes > maxBytes {
          return None;
        }
      }
      assert taken + batches == taken + [first] + batches[1..];
      batches := batches[1..];
      taken := taken + [first];
      if batches == [] && complete {
        active := false;
      }
      batch := Some(first);
    }

    method Cancel()
      requires Valid()
      modifies this
      ensures Valid() && pushed == old(pushed) && taken == old(taken) && complete == old(complete)
      ensures !old(active) ==> unchanged(this)
      ensures old(active) ==> canceled && batches == [] && stopRequested == old(stopRequested) && (complete ==> !active)
    {
      if !active {
        return;
      }
      canceled := true;
      batches := [];
      cleared := true;
      if complete {
        active := false;
      }
    }

    /** A cancellation asks the importing thread to stop only after it left the critical section; until then
      * that thread may still push. */
    method RequestStop()
      requires Valid()
      modifies `stopRequested
      ensures Valid() && stopRequested
    {
      stopRequested := true;
    }

    method Confirm()
      requires Valid()
      modifies `confirmed, `awaitingConfirmation
      ensures Valid() && confirmed && !awaitingConfirmation
    {
      confirmed, awaitingConfirmation := true, false;
    }

    /** Before the confirmation the queue has seen nothing, and the first batch it sees is the metadata. */
    lemma NothingUnconfirmed()
      requires Valid() && !canceled && !failed
      ensures !confirmed ==> pushed == [] && taken == [] && batches == []
      ensures taken != [] ==> taken[0].Metadata?
    {
    }
  }

  // ---------------------------------------------------------------- both threads

  /** An import that goes on: nobody cancelled it. */
  ghost predicate Running(q: ImportQueue)
    reads q
  {
    q.Valid() && !q.complete && !q.canceled && !q.failed && !q.stopRequested && q.active && q.confirmed
  }

  /** The main loop comes by `times` times with a fresh budget. */
  method Consume(q: ImportQueue, times: nat)
    requires Running(q)
    modifies q`batches, q`taken, q`active
    ensures Running(q) && |q.batches| == |old(q.batches)| - Min(times, |old(q.batches)|)
  {
    for i := 0 to times
      invariant Running(q) && |q.batches| == |old(q.batches)| - Min(i, |old(q.batches)|)
    {
      var batch := q.Take(BATCH_SAMPLES, BATCH_BYTES);
    }
  }

  /** One batch on its way into the queue; each time the queue is full the thread waits until the main loop has
    * come by. */
  method PushThrough(q: ImportQueue, batch: Batch)
    requires Running(q) && FitsBudget(batch, BATCH_SAMPLES, BATCH_BYTES) && (q.pushed == [] ==> batch.Metadata?)
    modifies q`batches, q`taken, q`active, q`pushed
    ensures Running(q) && q.pushed == old(q.pushed) + [batch]
  {
    var r := q.Push(batch);
    if r.Waits? {
      Consume(q, 1);
      r := q.Push(batch);
    }
  }

  lemma {:induction false} DeliveredConcat(a: seq<Batch>, b: seq<Batch>)
    ensures Delivered(a + b) == Delivered(a) + Delivered(b)
  {
    if a == [] {
      assert a + b == b;
    } else {
      assert (a + b)[1..] == a[1..] + b;
      DeliveredConcat(a[1..], b);
      Assoc(EventsOf(a[0]), Delivered(a[1..]), Delivered(b));
    }
  }

  /** From the first batch to the last: whenever the main loop comes by between the batches, `comes` times after
    * each, it has in the end been given what was pushed, and the import is over. */
  method HandAllOver(batches: seq<Batch>, comes: nat -> nat) returns (q: ImportQueue)
    requires forall b :: b in batches ==> FitsBudget(b, BATCH_SAMPLES, BATCH_BYTES)
    ensures fresh(q) && q.Valid() && q.complete && !q.active && !q.canceled && !q.failed
    ensures q.taken == [Metadata] + batches && Delivered(q.taken) == Delivered(batches)
  {
    hide TotalCost;
    q := new ImportQueue.StartImport();
    q.Announce();
    q.Confirm();
    PushThrough(q, Metadata);
    for i := 0 to |batches|
      invariant Running(q) && fresh(q) && q.pushed == [Metadata] + batches[..i]
    {
      Consume(q, comes(i));
      assert batches[..i + 1] == batches[..i] + [batches[i]];
      PushThrough(q, batches[i]);
    }
    assert batches[..|batches|] == batches;
    q.Finish(false, false);
    while q.active
      invariant q.Valid() && fresh(q) && q.complete && !q.canceled && !q.failed
      invariant q.pushed == [Metadata] + batches
      decreases |q.batches|
    {
      var batch := q.Take(BATCH_SAMPLES, BATCH_BYTES);
    }
    q.TakenInOrder();
    DeliveredConcat([Metadata], batches);
    assert Delivered([Metadata]) == [] + [] && [] + Delivered(batches) == Delivered(batches);
  }

  /** The main loop is given every event of a recording once, in the file's order. */
  method RunRecordingImport(events: seq<Event>, comes: nat -> nat) returns (q: ImportQueue)
    ensures fresh(q) && q.Valid() && q.complete && !q.active && Delivered(q.taken) == events
  {
    hide Delivered, TotalCost;
    var batches := ImportRecording(events);
    q := HandAllOver(batches, comes);
  }

  /** Of an event table it is given every event exactly when the last is not of the size of a slice. */
  method RunEventTableImport(events: seq<Event>, comes: nat -> nat) returns (q: ImportQueue)
    ensures fresh(q) && q.Valid() && q.complete && !q.active
    ensures Delivered(q.taken) == events <==> !EndsOnSliceSize(events)
    ensures EndsOnSliceSize(events) ==> Delivered(q.taken) == events[..|events| - 1]
  {
    hide Delivered, TotalCost;
    var batches := ImportEventTable(events);
    q := HandAllOver(batches, comes);
  }
}
