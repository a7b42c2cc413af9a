/** Draining received bytes: each pump hands a bounded number of them to the script worker, the raw capture
  * and the transfer panel, as far as the worker has room. */
module RxFanout {
  import opened Basics
  import opened Bytes

  datatype Context = Context(connectionId: nat, readyForIo: bool)

  datatype Event =
    | Received(context: Context, bytes: seq<byte>)
    | Opened(context: Context)
    | Closed(context: Context)
    | Other

  /** Received bytes that wait to be processed; those before `offset` are done. */
  datatype Chunk = Chunk(context: Context, bytes: seq<byte>, offset: nat)

  /** What a consumer of received bytes is given at a time. */
  datatype Delivery = Delivery(connectionId: nat, bytes: seq<byte>)

  const EVENTS_PER_PUMP: nat := 256

  // ---------------------------------------------------------------- the account

  /** A received byte with its connection. */
  datatype Tag = Tag(connectionId: nat, value: byte)

  /** What became of a byte: handed on, or discarded. */
  datatype Fate = Fate(tag: Tag, kept: bool)

  function Tagged(connectionId: nat, bytes: seq<byte>): (r: seq<Tag>)
    ensures |r| == |bytes| && forall i :: 0 <= i < |r| ==> r[i] == Tag(connectionId, bytes[i])
  {
    seq(|bytes|, i requires 0 <= i < |bytes| => Tag(connectionId, bytes[i]))
  }

  function Fates(tags: seq<Tag>, kept: bool): (r: seq<Fate>)
    ensures |r| == |tags| && forall i :: 0 <= i < |r| ==> r[i] == Fate(tags[i], kept)
  {
    seq(|tags|, i requires 0 <= i < |tags| => Fate(tags[i], kept))
  }

  function Origin(fates: seq<Fate>): (r: seq<Tag>)
    ensures |r| == |fates| && forall i :: 0 <= i < |r| ==> r[i] == fates[i].tag
  {
    seq(|fates|, i requires 0 <= i < |fates| => fates[i].tag)
  }

  function Kept(fates: seq<Fate>): seq<Tag> {
    if fates == [] then [] else (if fates[0].kept then [fates[0].tag] else []) + Kept(fates[1..])
  }

  function OfEvents(events: seq<Event>): seq<Tag> {
    if events == [] then []
    else (if events[0].Received? then Tagged(events[0].context.connectionId, events[0].bytes) else [])
         + OfEvents(events[1..])
  }

  function Left(chunk: Chunk): seq<Tag>
    requires chunk.offset <= |chunk.bytes|
  {
    Tagged(chunk.context.connectionId, chunk.bytes[chunk.offset..])
  }

  predicate Sound(chunks: seq<Chunk>) {
    forall i :: 0 <= i < |chunks| ==> chunks[i].offset < |chunks[i].bytes|
  }

  function OfChunks(chunks: seq<Chunk>): seq<Tag>
    requires Sound(chunks)
  {
    if chunks == [] then [] else Left(chunks[0]) + OfChunks(chunks[1..])
  }

  function OfDeliveries(deliveries: seq<Delivery>): seq<Tag> {
    if deliveries == [] then []
    else Tagged(deliveries[0].connectionId, deliveries[0].bytes) + OfDeliveries(deliveries[1..])
  }

  lemma Assoc<T>(a: seq<T>, b: seq<T>, c: seq<T>)
    ensures a + b + c == a + (b + c)
  {
  }

  lemma {:induction false} KeptConcat(a: seq<Fate>, b: seq<Fate>)
    ensures Kept(a + b) == Kept(a) + Kept(b)
  {
    if a == [] {
      assert a + b == b;
    } else {
      assert (a + b)[1..] == a[1..] + b;
      KeptConcat(a[1..], b);
      Assoc(if a[0].kept then [a[0].tag] else [], Kept(a[1..]), Kept(b));
    }
  }

  lemma {:induction false} KeptFates(tags: seq<Tag>, kept: bool)
    ensures Kept(Fates(tags, kept)) == if kept then tags else []
  {
    if tags != [] {
      KeptFates(tags[1..], kept);
      assert Fates(tags, kept)[1..] == Fates(tags[1..], kept);
    }
  }

  lemma {:induction false} DeliveriesSnoc(deliveries: seq<Delivery>, d: Delivery)
    ensures OfDeliveries(deliveries + [d]) == OfDeliveries(deliveries) + Tagged(d.connectionId, d.bytes)
  {
    if deliveries == [] {
      assert [d][1..] == [] && deliveries + [d] == [d];
    } else {
      assert (deliveries + [d])[1..] == deliveries[1..] + [d];
      DeliveriesSnoc(deliveries[1..], d);
      Assoc(Tagged(deliveries[0].connectionId, deliveries[0].bytes), OfDeliveries(deliveries[1..]),
            Tagged(d.connectionId, d.bytes));
    }
  }

  lemma {:induction false} EventsConcat(a: seq<Event>, b: seq<Event>)
    ensures OfEvents(a + b) == OfEvents(a) + OfEvents(b)
  {
    if a == [] {
      assert a + b == b;
    } else {
      assert (a + b)[1..] == a[1..] + b;
      EventsConcat(a[1..], b);
      Assoc(if a[0].Received? then Tagged(a[0].context.connectionId, a[0].bytes) else [], OfEvents(a[1..]), OfEvents(b));
    }
  }

  lemma {:induction false} ChunksSnoc(chunks: seq<Chunk>, c: Chunk)
    requires Sound(chunks) && c.offset < |c.bytes|
    ensures Sound(chunks + [c]) && OfChunks(chunks + [c]) == OfChunks(chunks) + Left(c)
  {
    assert Sound(chunks + [c]);
    if chunks == [] {
      assert [c][1..] == [] && chunks + [c] == [c];
    } else {
      assert (chunks + [c])[1..] == chunks[1..] + [c];
      ChunksSnoc(chunks[1..], c);
      Assoc(Left(chunks[0]), OfChunks(chunks[1..]), Left(c));
    }
  }

  /** Every byte received is in one place: it was handed on or discarded, or it waits in a chunk or an event;
    * and that is their order. */
  ghost predicate Accounted(received: seq<Tag>, processed: seq<Fate>, chunks: seq<Chunk>, events: seq<Event>) {
    Sound(chunks) && received == Origin(processed) + OfChunks(chunks) + OfEvents(events)
  }

  /** The three consumers were given the same bytes in the same portions: those that were kept. */
  ghost predicate Agree(worker: seq<Delivery>, capture: seq<Delivery>, panel: seq<Delivery>, processed: seq<Fate>) {
    worker == capture == panel && OfDeliveries(worker) == Kept(processed)
  }

  // ---------------------------------------------------------------- single steps

  function Shorter(chunks: seq<Chunk>, n: nat): seq<Chunk>
    requires chunks != []
  {
    if chunks[0].offset + n >= |chunks[0].bytes| then chunks[1..]
    else [chunks[0].(offset := chunks[0].offset + n)] + chunks[1..]
  }

  /** Taking `n` bytes off the first chunk. */
  lemma ChunkTaken(received: seq<Tag>, processed: seq<Fate>, chunks: seq<Chunk>, events: seq<Event>, n: nat, kept: bool)
    requires Accounted(received, processed, chunks, events)
    requires chunks != [] && n <= |chunks[0].bytes| - chunks[0].offset
    ensures var c := chunks[0];
      Accounted(received, processed + Fates(Tagged(c.context.connectionId, c.bytes[c.offset..c.offset + n]), kept),
                Shorter(chunks, n), events)
  {
    hide OfEvents, OfChunks, Origin, Fates, Tagged;
    var taken := Tagged(chunks[0].context.connectionId, chunks[0].bytes[chunks[0].offset..chunks[0].offset + n]);
    ChunkSplit(chunks, n);
    OriginGrows(processed, taken, kept);
    Assoc(Origin(processed), taken, OfChunks(Shorter(chunks, n)));
  }

  lemma ChunkSplit(chunks: seq<Chunk>, n: nat)
    requires Sound(chunks) && chunks != [] && n <= |chunks[0].bytes| - chunks[0].offset
    ensures var c, after := chunks[0], Shorter(chunks, n);
      && Sound(after)
      && OfChunks(chunks) == Tagged(c.context.connectionId, c.bytes[c.offset..c.offset + n]) + OfChunks(after)
  {
    hide Tagged, OfChunks, Left;
    var c, rest := chunks[0], chunks[1..];
    var id := c.context.connectionId;
    var taken, more := Tagged(id, c.bytes[c.offset..c.offset + n]), Tagged(id, c.bytes[c.offset + n..]);
    ChunksHead(chunks);
    LeftSplit(c, n);
    if c.offset + n >= |c.bytes| {
      NoTags(id);
      assert c.bytes[c.offset + n..] == [] && taken + more == taken;
    } else {
      var after := [c.(offset := c.offset + n)] + rest;
      assert after[1..] == rest && Sound(after);
      ChunksHead(after);
      LeftMore(c, n);
      Assoc(taken, more, OfChunks(rest));
    }
  }

  lemma ChunksHead(chunks: seq<Chunk>)
    requires Sound(chunks) && chunks != []
    ensures Sound(chunks[1..]) && OfChunks(chunks) == Left(chunks[0]) + OfChunks(chunks[1..])
  {
  }

  lemma LeftMore(c: Chunk, n: nat)
    requires c.offset + n <= |c.bytes|
    ensures Left(c.(offset := c.offset + n)) == Tagged(c.context.connectionId, c.bytes[c.offset + n..])
  {
  }

  lemma NoTags(id: nat)
    ensures Tagged(id, []) == []
  {
  }

  lemma LeftSplit(c: Chunk, n: nat)
    requires c.offset + n <= |c.bytes|
    ensures var id := c.context.connectionId;
      Left(c) == Tagged(id, c.bytes[c.offset..c.offset + n]) + Tagged(id, c.bytes[c.offset + n..])
  {
  }

  lemma OriginGrows(processed: seq<Fate>, tags: seq<Tag>, kept: bool)
    ensures Origin(processed + Fates(tags, kept)) == Origin(processed) + tags
  {
  }

  function Without(events: seq<Event>, n: nat): seq<Event>
    requires events != [] && events[0].Received? && n <= |events[0].bytes|
  {
    if n == |events[0].bytes| then events[1..] else [events[0].(bytes := events[0].bytes[n..])] + events[1..]
  }

  /** Taking `n` bytes off the first event, when no chunk is before it. */
  lemma EventTaken(received: seq<Tag>, processed: seq<Fate>, events: seq<Event>, n: nat, kept: bool)
    requires Accounted(received, processed, [], events)
    requires events != [] && events[0].Received? && n <= |events[0].bytes|
    ensures Accounted(received, processed + Fates(Tagged(events[0].context.connectionId, events[0].bytes[..n]), kept), [],
                      Without(events, n))
  {
    hide OfEvents, Origin, Fates, Tagged;
    var taken := Tagged(events[0].context.connectionId, events[0].bytes[..n]);
    EventSplit(events, n);
    OriginGrows(processed, taken, kept);
    Assoc(Origin(processed), taken, OfEvents(Without(events, n)));
    assert Origin(processed) + [] == Origin(processed);
    assert (Origin(processed) + taken) + [] == Origin(processed) + taken;
  }

  lemma EventSplit(events: seq<Event>, n: nat)
    requires events != [] && events[0].Received? && n <= |events[0].bytes|
    ensures OfEvents(events)
         == Tagged(events[0].context.connectionId, events[0].bytes[..n]) + OfEvents(Without(events, n))
  {
    var e, rest := events[0], events[1..];
    var id := e.context.connectionId;
    var taken, after := Tagged(id, e.bytes[..n]), Without(events, n);
    var more := Tagged(id, e.bytes[n..]);
    assert Tagged(id, e.bytes) == taken + more;
    if n == |e.bytes| {
      assert more == [] && taken + more == taken;
    } else {
      assert after[1..] == rest;
      Assoc(taken, more, OfEvents(rest));
    }
  }

  /** The first event's bytes become a chunk, when there is no other. */
  lemma EventQueued(received: seq<Tag>, processed: seq<Fate>, events: seq<Event>)
    requires Accounted(received, processed, [], events)
    requires events != [] && events[0].Received? && events[0].bytes != []
    ensures Accounted(received, processed, [Chunk(events[0].context, events[0].bytes, 0)], events[1..])
  {
    var c := Chunk(events[0].context, events[0].bytes, 0);
    assert c.bytes[0..] == c.bytes && [c][1..] == [];
    assert OfChunks([c]) == Left(c) + [];
    assert Origin(processed) + [] == Origin(processed);
    Assoc(Origin(processed), Left(c), OfEvents(events[1..]));
  }

  lemma EventDropped(received: seq<Tag>, processed: seq<Fate>, chunks: seq<Chunk>, events: seq<Event>)
    requires Accounted(received, processed, chunks, events)
    requires events != [] && (events[0].Received? ==> events[0].bytes == [])
    ensures Accounted(received, processed, chunks, events[1..])
  {
    assert [] + OfEvents(events[1..]) == OfEvents(events[1..]);
    assert OfEvents(events) == OfEvents(events[1..]);
  }

  lemma Delivered(worker: seq<Delivery>, capture: seq<Delivery>, panel: seq<Delivery>, processed: seq<Fate>, d: Delivery)
    requires Agree(worker, capture, panel, processed)
    ensures Agree(worker + [d], capture + [d], panel + [d], processed + Fates(Tagged(d.connectionId, d.bytes), true))
  {
    DeliveriesSnoc(worker, d);
    KeptFates(Tagged(d.connectionId, d.bytes), true);
    KeptConcat(processed, Fates(Tagged(d.connectionId, d.bytes), true));
  }

  lemma Dropped(worker: seq<Delivery>, capture: seq<Delivery>, panel: seq<Delivery>, processed: seq<Fate>, tags: seq<Tag>)
    requires Agree(worker, capture, panel, processed)
    ensures Agree(worker, capture, panel, processed + Fates(tags, false))
  {
    KeptFates(tags, false);
    KeptConcat(processed, Fates(tags, false));
  }

  // ---------------------------------------------------------------- the pump

  datatype View = View(events: seq<Event>, chunks: seq<Chunk>, active: Option<nat>, processed: seq<Fate>)

  /** What a turn makes of a view: whether the pump goes on, whether it counts as an event, and its bytes. */
  datatype Turn = Turn(view: View, more: bool, counted: bool, bytes: nat)

  datatype Pumped = Pumped(view: View, events: nat, bytes: nat)

  /** Bytes of a live connection that is not the active one reach nobody. */
  predicate Stale(active: Option<nat>, context: Context) {
    context.readyForIo && active != Some(context.connectionId)
  }

  /** How many of the bytes offered are used up; only the worker may refuse some. */
  function Taken(offered: nat, room: nat, active: Option<nat>, context: Context, workerEnabled: bool): nat {
    if workerEnabled && context.readyForIo && !Stale(active, context) then Min(offered, room) else offered
  }

  function ActiveAfter(active: Option<nat>, event: Event): Option<nat> {
    if event.Opened? && event.context.readyForIo then Some(event.context.connectionId)
    else if event.Closed? && active == Some(event.context.connectionId) then None
    else active
  }

  /** Up to `budget` bytes of the first chunk are used up. */
  function ChunkTurn(v: View, workerEnabled: bool, budget: nat, room: nat): Turn
    requires v.chunks != [] && Sound(v.chunks)
  {
    var c := v.chunks[0];
    var n := Taken(Min(|c.bytes| - c.offset, budget), room, v.active, c.context, workerEnabled);
    if n == 0 then Turn(v, false, false, 0)
    else
      var tags := Tagged(c.context.connectionId, c.bytes[c.offset..c.offset + n]);
      Turn(v.(chunks := Shorter(v.chunks, n), processed := v.processed + Fates(tags, !Stale(v.active, c.context))),
           true, true, n)
  }

  /** Up to `budget` bytes of the first event go straight to the worker; stale ones go at once. */
  function LiveTurn(v: View, workerEnabled: bool, budget: nat, room: nat): Turn
    requires v.events != [] && v.events[0].Received?
  {
    var e := v.events[0];
    if Stale(v.active, e.context) then
      var tags := Tagged(e.context.connectionId, e.bytes);
      Turn(v.(events := v.events[1..], processed := v.processed + Fates(tags, false)), true, true, 0)
    else
      var n := Taken(Min(|e.bytes|, budget), room, v.active, e.context, workerEnabled);
      if n == 0 then Turn(v, false, false, 0)
      else
        var tags := Tagged(e.context.connectionId, e.bytes[..n]);
        Turn(v.(events := Without(v.events, n), processed := v.processed + Fates(tags, true)), true, true, n)
  }

  /** Waiting chunks come before events; bytes that do not go straight to the worker become a chunk first. */
  function OneTurn(v: View, workerEnabled: bool, budget: nat, room: nat): Turn
    requires Sound(v.chunks)
  {
    if v.chunks != [] then ChunkTurn(v, workerEnabled, budget, room)
    else if v.events == [] then Turn(v, false, false, 0)
    else
      var e, rest := v.events[0], v.events[1..];
      if !e.Received? then Turn(v.(events := rest, active := ActiveAfter(v.active, e)), true, true, 0)
      else if e.bytes == [] then Turn(v.(events := rest), true, true, 0)
      else if workerEnabled && e.context.readyForIo then LiveTurn(v, workerEnabled, budget, room)
      else Turn(v.(events := rest, chunks := [Chunk(e.context, e.bytes, 0)]), true, false, 0)
  }

  /** Turns until nothing more can be done, or the events, the time or the bytes of a pump are used up. */
  ghost function Pump(v: View, workerEnabled: bool, budget: nat, count: nat, turns: nat, room: nat -> nat): Pumped
    requires Sound(v.chunks)
    decreases EVENTS_PER_PUMP - Min(count, EVENTS_PER_PUMP), |v.events|
  {
    if count >= EVENTS_PER_PUMP || count >= turns then Pumped(v, count, 0)
    else
      TurnSound(v, workerEnabled, budget, room(count));
      var t := OneTurn(v, workerEnabled, budget, room(count));
      if !t.more then Pumped(v, count, 0)
      else
        var rest := Pump(t.view, workerEnabled, budget - t.bytes, if t.counted then count + 1 else count, turns, room);
        rest.(bytes := t.bytes + rest.bytes)
  }

  lemma TurnSound(v: View, workerEnabled: bool, budget: nat, room: nat)
    requires Sound(v.chunks)
    ensures var t := OneTurn(v, workerEnabled, budget, room);
      && Sound(t.view.chunks) && t.bytes <= budget
      && (t.more && !t.counted ==> |t.view.events| < |v.events|)
      && (!t.more ==> t.view == v && t.bytes == 0)
      && (!t.more && budget > 0 && room > 0 ==> v.chunks == [] && v.events == [])
  {
    hide Tagged, Fates;
  }

  /** A turn keeps the account of received bytes, and what it is done with stays done with. */
  lemma TurnAccounts(received: seq<Tag>, v: View, workerEnabled: bool, budget: nat, room: nat)
    requires Accounted(received, v.processed, v.chunks, v.events)
    ensures var t := OneTurn(v, workerEnabled, budget, room).view;
      && Accounted(received, t.processed, t.chunks, t.events)
      && Kept(v.processed) <= Kept(t.processed)
  {
    hide Tagged, Fates, Kept, OfChunks, OfEvents, Origin;
    if v.chunks != [] {
      var c := v.chunks[0];
      var n := Taken(Min(|c.bytes| - c.offset, budget), room, v.active, c.context, workerEnabled);
      ChunkTaken(received, v.processed, v.chunks, v.events, n, !Stale(v.active, c.context));
      KeptConcat(v.processed, Fates(Tagged(c.context.connectionId, c.bytes[c.offset..c.offset + n]),
                                    !Stale(v.active, c.context)));
    } else if v.events != [] {
      var e := v.events[0];
      if !e.Received? || e.bytes == [] {
        EventDropped(received, v.processed, v.chunks, v.events);
      } else if !(workerEnabled && e.context.readyForIo) {
        EventQueued(received, v.processed, v.events);
      } else {
        var stale := Stale(v.active, e.context);
        var n := if stale then |e.bytes| else Taken(Min(|e.bytes|, budget), room, v.active, e.context, workerEnabled);
        EventTaken(received, v.processed, v.events, n, !stale);
        KeptConcat(v.processed, Fates(Tagged(e.context.connectionId, e.bytes[..n]), !stale));
        assert e.bytes[..|e.bytes|] == e.bytes;
      }
    }
  }

  /** A pump stops early for nothing but its limits: short of them, and with a worker that always has some room,
    * it leaves nothing waiting. */
  lemma {:induction false} PumpDrains(v: View, workerEnabled: bool, budget: nat, count: nat, turns: nat,
                                      room: nat -> nat)
    requires Sound(v.chunks) && forall t :: room(t) > 0
    ensures var p := Pump(v, workerEnabled, budget, count, turns, room);
      && p.bytes <= budget
      && (p.events < EVENTS_PER_PUMP && p.events < turns && p.bytes < budget ==>
            p.view.chunks == [] && p.view.events == [])
    decreases EVENTS_PER_PUMP - Min(count, EVENTS_PER_PUMP), |v.events|
  {
    hide OneTurn;
    if count < EVENTS_PER_PUMP && count < turns {
      TurnSound(v, workerEnabled, budget, room(count));
      var t := OneTurn(v, workerEnabled, budget, room(count));
      if t.more {
        PumpDrains(t.view, workerEnabled, budget - t.bytes, if t.counted then count + 1 else count, turns, room);
      }
    }
  }

  // ---------------------------------------------------------------- the active connection

  predicate Readies(event: Event) {
    event.Opened? && event.context.readyForIo
  }

  predicate Ends(event: Event, id: nat) {
    event.Closed? && event.context.connectionId == id
  }

  /** Of the connections that became ready, `id` is the last, with event `k`, and it was not closed since. */
  predicate OpenSince(handled: seq<Event>, id: nat, k: nat) {
    && k < |handled| && Readies(handled[k]) && handled[k].context.connectionId == id
    && forall m :: k < m < |handled| ==> !Readies(handled[m]) && !Ends(handled[m], id)
  }

  ghost predicate Connected(active: Option<nat>, handled: seq<Event>) {
    forall id: nat :: active == Some(id) <==> exists k: nat :: OpenSince(handled, id, k)
  }

  lemma OneMoreEvent(handled: seq<Event>, event: Event, id: nat, k: nat)
    ensures OpenSince(handled + [event], id, k) <==>
      if k == |handled| then Readies(event) && event.context.connectionId == id
      else OpenSince(handled, id, k) && !Readies(event) && !Ends(event, id)
    ensures OpenSince(handled, id, k) ==> k < |handled|
  {
    var more := handled + [event];
    assert forall m :: 0 <= m < |handled| ==> more[m] == handled[m];
    assert more[|handled|] == event;
  }

  lemma ConnectedAfter(active: Option<nat>, handled: seq<Event>, event: Event)
    requires Connected(active, handled)
    ensures Connected(ActiveAfter(active, event), handled + [event])
  {
    hide OpenSince;
    var more := handled + [event];
    forall id: nat
      ensures ActiveAfter(active, event) == Some(id) <==> exists k: nat :: OpenSince(more, id, k)
    {
      OneMoreEvent(handled, event, id, |handled|);
      if k: nat :| OpenSince(more, id, k) {
        OneMoreEvent(handled, event, id, k);
      }
      if k: nat :| OpenSince(handled, id, k) {
        OneMoreEvent(handled, event, id, k);
      }
    }
  }

  /** Whose bytes are next. */
  function NextContext(v: View): Context {
    if v.chunks != [] then v.chunks[0].context
    else if v.events != [] && v.events[0].Received? then v.events[0].context
    else Context(0, false)
  }

  /** Of the bytes used up at a turn those of a connection that is not live are all kept, and those of a live one
    * exactly if it was the last to become ready and was not closed since. */
  ghost predicate RightFates(v: View, processed: seq<Fate>, handled: seq<Event>) {
    && v.processed <= processed
    && forall i :: |v.processed| <= i < |processed| ==>
         var next := NextContext(v);
         && processed[i].tag.connectionId == next.connectionId
         && (processed[i].kept <==> (next.readyForIo ==> exists k: nat :: OpenSince(handled, next.connectionId, k)))
  }

  lemma TurnFates(v: View, workerEnabled: bool, budget: nat, room: nat, handled: seq<Event>)
    requires Sound(v.chunks) && Connected(v.active, handled)
    ensures RightFates(v, OneTurn(v, workerEnabled, budget, room).view.processed, handled)
  {
    hide OpenSince, Taken, Shorter, Without;
    StaleMeans(v.active, NextContext(v), handled);
  }

  lemma StaleMeans(active: Option<nat>, context: Context, handled: seq<Event>)
    requires Connected(active, handled)
    ensures Stale(active, context)
      <==> context.readyForIo && !exists k: nat :: OpenSince(handled, context.connectionId, k)
  {
    hide OpenSince;
  }

  // ---------------------------------------------------------------- the receiver

  class Receiver {
    var events: seq<Event>
    var chunks: seq<Chunk>
    var activeConnection: Option<nat>
    const workerEnabled: bool

    /** What the three consumers were given. */
    var worker: seq<Delivery>
    var capture: seq<Delivery>
    var panel: seq<Delivery>

    ghost var received: seq<Tag>
    ghost var processed: seq<Fate>
    /** The events about connections that took effect since the transport was last opened or closed from here. */
    ghost var handled: seq<Event>

    ghost predicate Valid()
      reads this
    {
      && Accounted(received, processed, chunks, events) && Agree(worker, capture, panel, processed)
      && Connected(activeConnection, handled)
    }

    ghost function State(): View
      reads this
    {
      View(events, chunks, activeConnection, processed)
    }

    constructor (workerEnabled: bool)
      ensures Valid() && received == [] && processed == [] && this.workerEnabled == workerEnabled
    {
      this.workerEnabled := workerEnabled;
      events, chunks, activeConnection := [], [], None;
      worker, capture, panel, received, processed := [], [], [], [], [];
      handled := [];
    }

    /** The transport's events join the queue. */
    method PullTransportEventsFromTransport(more: seq<Event>)
      requires Valid()
      modifies `events, `received
      ensures Valid() && received == old(received) + OfEvents(more) && events == old(events) + more
    {
      hide Origin, OfChunks, Agree, Connected;
      EventsConcat(events, more);
      Assoc(Origin(processed) + OfChunks(chunks), OfEvents(events), OfEvents(more));
      events := events + more;
      received := received + OfEvents(more);
    }

    predicate Inactive(context: Context)
      reads this
    {
      Stale(activeConnection, context)
    }

    /** Offers up to `maxBytes` bytes of a live connection to the consumers.  `room` is how many the worker
      * takes.  Bytes of a connection that is not active are used up without reaching anybody. */
    method TryProcessLiveRxBytes(context: Context, bytes: seq<byte>, maxBytes: nat, room: nat) returns (accepted: nat)
      requires Agree(worker, capture, panel, processed) && context.readyForIo
      modifies `worker, `capture, `panel, `processed, `activeConnection
      ensures Agree(worker, capture, panel, processed)
      ensures accepted == Taken(Min(|bytes|, maxBytes), room, old(activeConnection), context, workerEnabled)
      ensures processed == old(processed)
        + Fates(Tagged(context.connectionId, bytes[..accepted]), !old(Inactive(context)))
      ensures old(Inactive(context)) ==> worker == old(worker)
      ensures accepted == 0 ==> worker == old(worker)
      ensures old(worker) <= worker
      ensures activeConnection == old(activeConnection)
    {
      hide Agree, Fates, Tagged;
      if bytes == [] || maxBytes == 0 {
        NothingTaken(processed, context.connectionId, bytes, !Inactive(context));
        return 0;
      }
      var receiveLimit := if |bytes| < maxBytes then |bytes| else maxBytes;
      if Inactive(context) {
        Dropped(worker, capture, panel, processed, Tagged(context.connectionId, bytes[..receiveLimit]));
        processed := processed + Fates(Tagged(context.connectionId, bytes[..receiveLimit]), false);
        return receiveLimit;
      }
      if !workerEnabled {
        accepted := receiveLimit;
      } else {
        accepted := if room < receiveLimit then room else receiveLimit;
        if accepted == 0 {
          NothingTaken(processed, context.connectionId, bytes, true);
          return;
        }
      }
      var portion := Delivery(context.connectionId, bytes[..accepted]);
      Delivered(worker, capture, panel, processed, portion);
      worker := worker + [portion];
      capture := capture + [portion];
      activeConnection := Some(context.connectionId);
      panel := panel + [portion];
      processed := processed + Fates(Tagged(portion.connectionId, portion.bytes), true);
    }

    /** Hands on a whole portion, waiting for no worker. */
    method ProcessTransportBytesEvent(context: Context, bytes: seq<byte>)
      requires Agree(worker, capture, panel, processed) && bytes != []
      requires workerEnabled ==> !context.readyForIo
      modifies `worker, `capture, `panel, `processed, `activeConnection
      ensures Agree(worker, capture, panel, processed)
      ensures processed == old(processed)
        + Fates(Tagged(context.connectionId, bytes), !old(Inactive(context)))
      ensures old(worker) <= worker
      ensures activeConnection == old(activeConnection)
    {
      hide Agree, Fates, Tagged;
      if context.readyForIo {
        var accepted := TryProcessLiveRxBytes(context, bytes, |bytes|, 0);
        assert accepted == |bytes|;
        assert bytes[..|bytes|] == bytes;
        return;
      }
      var portion := Delivery(context.connectionId, bytes);
      Delivered(worker, capture, panel, processed, portion);
      capture := capture + [portion];
      worker := worker + [portion];
      panel := panel + [portion];
      processed := processed + Fates(Tagged(context.connectionId, bytes), true);
    }

    /** Processes at most `maxBytes` bytes of the first chunk; what the worker refuses stays. */
    method ProcessPendingRxBytes(maxBytes: nat, room: nat)
      requires Valid()
      modifies `worker, `capture, `panel, `processed, `activeConnection, `chunks
      ensures Valid()
      ensures old(processed) <= processed && |processed| - |old(processed)| <= maxBytes
      ensures old(worker) <= worker
      ensures |old(OfAll(chunks))| - |OfAll(chunks)| == |processed| - |old(processed)|
      ensures old(chunks) == [] ==> State() == old(State())
      ensures old(chunks) != [] ==>
        var t := ChunkTurn(old(State()), workerEnabled, maxBytes, room);
        State() == t.view && t.bytes == |processed| - |old(processed)|
    {
      hide Connected, Agree, Accounted, Fates, Tagged, OfAll, Origin, OfEvents, OfChunks, Kept;
      if chunks == [] || maxBytes == 0 {
        return;
      }
      SoundChunks(received, processed, chunks, events);
      var pending := chunks[0];
      var remaining := |pending.bytes| - pending.offset;
      var chunkSize := if remaining < maxBytes then remaining else maxBytes;
      var bytes := pending.bytes[pending.offset..pending.offset + chunkSize];
      ghost var before, kept := processed, !Inactive(pending.context);
      var acceptedBytes := Hand(pending.context, bytes, room);
      SliceOfSlice(pending.bytes, pending.offset, chunkSize, acceptedBytes);
      ChunkTaken(received, before, chunks, events, acceptedBytes, kept);
      ChunkSizes(chunks, acceptedBytes);
      TagCount(before, pending, acceptedBytes, kept);
      if acceptedBytes == 0 {
        NothingTaken(before, pending.context.connectionId, bytes, kept);
        return;
      }
      pending := pending.(offset := pending.offset + acceptedBytes);
      chunks := if pending.offset >= |pending.bytes| then chunks[1..] else [pending] + chunks[1..];
    }

    /** The worker's room is asked for only on its own path. */
    method Hand(context: Context, bytes: seq<byte>, room: nat) returns (acceptedBytes: nat)
      requires Agree(worker, capture, panel, processed) && bytes != []
      modifies `worker, `capture, `panel, `processed, `activeConnection
      ensures Agree(worker, capture, panel, processed)
      ensures acceptedBytes == Taken(|bytes|, room, old(activeConnection), context, workerEnabled)
      ensures processed == old(processed)
        + Fates(Tagged(context.connectionId, bytes[..acceptedBytes]), !old(Inactive(context)))
      ensures old(worker) <= worker && activeConnection == old(activeConnection)
    {
      hide Agree, Fates, Tagged;
      acceptedBytes := |bytes|;
      if workerEnabled && context.readyForIo {
        acceptedBytes := TryProcessLiveRxBytes(context, bytes, |bytes|, room);
      } else {
        ProcessTransportBytesEvent(context, bytes);
        assert bytes[..|bytes|] == bytes;
      }
    }

    /** The active connection is the one that became ready last, unless it was closed since. */
    method ProcessTransportEvent(event: Event)
      requires !event.Received? && Connected(activeConnection, handled)
      modifies `activeConnection, `handled
      ensures handled == old(handled) + [event] && Connected(activeConnection, handled)
      ensures activeConnection == ActiveAfter(old(activeConnection), event)
    {
      ConnectedAfter(activeConnection, handled, event);
      handled := handled + [event];
      if event.Opened? {
        if event.context.readyForIo {
          activeConnection := Some(event.context.connectionId);
        }
      } else if event.Closed? {
        if activeConnection == Some(event.context.connectionId) {
          activeConnection := None;
        }
      }
    }

    /** The transport is being opened or closed from this side: no connection is active until one is ready. */
    method ForgetConnection()
      requires Valid()
      modifies `activeConnection, `handled
      ensures Valid() && activeConnection == None && handled == []
    {
      activeConnection, handled := None, [];
    }

    /** One pump.  `turns` is when its time budget ends it, `room` how much the worker takes at each turn.
      * No more than `maxRxBytes` bytes are handed on. */
    method DrainTransportEventQueues(maxRxBytes: nat, turns: nat, room: nat -> nat)
      returns (processedEvents: nat, processedRxBytes: nat)
      requires Valid()
      modifies `worker, `capture, `panel, `processed, `activeConnection, `handled, `chunks, `events
      ensures Valid()
      ensures old(processed) <= processed && old(worker) <= worker && old(handled) <= handled
      ensures |Kept(processed)| - |Kept(old(processed))| <= processedRxBytes <= maxRxBytes
      ensures processedEvents <= 256
      ensures Pumped(State(), processedEvents, processedRxBytes)
           == Pump(old(State()), workerEnabled, maxRxBytes, 0, turns, room)
    {
      hide Connected, Agree, Accounted, Fates, Tagged, Kept, OneTurn;
      processedEvents, processedRxBytes := 0, 0;
      SoundChunks(received, processed, chunks, events);
      ghost var all := Pump(State(), workerEnabled, maxRxBytes, 0, turns, room);
      while processedEvents < EVENTS_PER_PUMP && processedEvents < turns
        invariant Valid() && Sound(chunks)
        invariant old(processed) <= processed && old(worker) <= worker && old(handled) <= handled
        invariant |Kept(processed)| - |Kept(old(processed))| <= processedRxBytes <= maxRxBytes
        invariant processedEvents <= EVENTS_PER_PUMP
        invariant var rest := Pump(State(), workerEnabled, maxRxBytes - processedRxBytes, processedEvents, turns, room);
          all == rest.(bytes := processedRxBytes + rest.bytes)
        decreases EVENTS_PER_PUMP - processedEvents, |events|
      {
        TurnSound(State(), workerEnabled, maxRxBytes - processedRxBytes, room(processedEvents));
        var more, counted, bytes := DrainOne(maxRxBytes - processedRxBytes, room(processedEvents));
        if !more {
          break;
        }
        processedRxBytes := processedRxBytes + bytes;
        if counted {
          processedEvents := processedEvents + 1;
        }
      }
    }

    /** One turn of the pump: the first chunk, or else the first event. */
    method DrainOne(budget: nat, room: nat) returns (more: bool, counted: bool, bytes: nat)
      requires Valid() && Sound(chunks)
      modifies `worker, `capture, `panel, `processed, `activeConnection, `handled, `chunks, `events
      ensures handled == old(handled)
        + (if old(chunks) == [] && old(events) != [] && !old(events)[0].Received? then [old(events)[0]] else [])
      ensures Valid() && Sound(chunks)
      ensures old(processed) <= processed && old(worker) <= worker
      ensures |Kept(processed)| - |Kept(old(processed))| <= bytes <= budget
      ensures RightFates(old(State()), processed, old(handled))
      ensures Turn(State(), more, counted, bytes) == OneTurn(old(State()), workerEnabled, budget, room)
    {
      hide Connected, Agree, Accounted, Fates, Tagged, Kept, RightFates;
      TurnFates(State(), workerEnabled, budget, room, handled);
      more, counted, bytes := false, false, 0;
      if chunks != [] {
        if budget == 0 {
          return;
        }
        ghost var before := processed;
        var count := PendingRxByteCount();
        ProcessPendingRxBytes(budget, room);
        SoundChunks(received, processed, chunks, events);
        var after := PendingRxByteCount();
        KeptGrows(before, processed);
        return count != after, count != after, count - after;
      }
      if events == [] {
        return;
      }
      var event := events[0];
      if !event.Received? {
        EventDropped(received, processed, chunks, events);
        events := events[1..];
        ProcessTransportEvent(event);
        return true, true, 0;
      }
      if event.bytes == [] {
        EventDropped(received, processed, chunks, events);
        events := events[1..];
        return true, true, 0;
      }
      if workerEnabled && event.context.readyForIo {
        more, bytes := DrainLive(event, budget, room);
        SoundChunks(received, processed, chunks, events);
        counted := more;
        return;
      }
      EventQueued(received, processed, events);
      assert chunks + [Chunk(event.context, event.bytes, 0)] == [Chunk(event.context, event.bytes, 0)];
      events, chunks := events[1..], chunks + [Chunk(event.context, event.bytes, 0)];
      more := true;
    }

    /** The worker's own path: bytes go to it straight from the event. */
    method DrainLive(event: Event, budget: nat, room: nat) returns (more: bool, bytes: nat)
      requires Valid() && chunks == [] && events != [] && event == events[0]
      requires event.Received? && event.bytes != [] && event.context.readyForIo
      modifies `worker, `capture, `panel, `processed, `activeConnection, `events
      ensures Valid()
      ensures old(processed) <= processed && old(worker) <= worker
      ensures |Kept(processed)| - |Kept(old(processed))| <= bytes <= budget
      ensures Turn(State(), more, more, bytes) == LiveTurn(old(State()), workerEnabled, budget, room)
    {
      hide Connected, Agree, Accounted, Fates, Tagged, Kept;
      ghost var before := processed;
      more, bytes := false, 0;
      if Inactive(event.context) {
        ghost var tags := Tagged(event.context.connectionId, event.bytes);
        Dropped(worker, capture, panel, processed, tags);
        EventTaken(received, processed, events, |event.bytes|, false);
        assert event.bytes[..|event.bytes|] == event.bytes;
        NoneKept(processed, tags);
        processed := processed + Fates(tags, false);
        events := events[1..];
        return true, 0;
      }
      var accepted := TryProcessLiveRxBytes(event.context, event.bytes, budget, room);
      EventTaken(received, before, events, accepted, true);
      KeptGrows(before, processed);
      FatesCount(Tagged(event.context.connectionId, event.bytes[..accepted]), true);
      if accepted == 0 {
        NothingTaken(before, event.context.connectionId, event.bytes, true);
        return;
      }
      if accepted == |event.bytes| {
        events := events[1..];
      } else {
        events := [event.(bytes := event.bytes[accepted..])] + events[1..];
      }
      more, bytes := true, accepted;
    }

    /** All the bytes that wait, in chunks and in events. */
    method PendingRxByteCount() returns (count: nat)
      requires Sound(chunks)
      ensures count == |OfChunks(chunks) + OfEvents(events)|
    {
      count := 0;
      for i := 0 to |chunks|
        invariant Sound(chunks[i..]) && count + |OfChunks(chunks[i..])| == |OfChunks(chunks)|
      {
        assert chunks[i..][1..] == chunks[i + 1..];
        count := count + (|chunks[i].bytes| - chunks[i].offset);
      }
      for i := 0 to |events|
        invariant count + |OfEvents(events[i..])| == |OfChunks(chunks)| + |OfEvents(events)|
      {
        assert events[i..][1..] == events[i + 1..];
        if events[i].Received? {
          count := count + |events[i].bytes|;
        }
      }
    }

    /** The connection is gone but its bytes stay: all of them become chunks of no live connection. */
    method DetachPendingRealtimeBacklogFromConnection()
      requires Valid()
      modifies `chunks, `events
      ensures Valid() && events == [] && forall c :: c in chunks ==> !c.context.readyForIo
    {
      hide Agree, Connected;
      var detached: seq<Chunk> := [];
      for i := 0 to |chunks|
        invariant |detached| == i
        invariant forall k :: 0 <= k < i ==>
          detached[k] == chunks[k].(context := chunks[k].context.(readyForIo := false))
      {
        detached := detached + [chunks[i].(context := chunks[i].context.(readyForIo := false))];
      }
      SameBytes(chunks, detached);
      chunks := detached;
      while events != []
        invariant Accounted(received, processed, chunks, events)
        invariant forall c :: c in chunks ==> !c.context.readyForIo
        decreases |events|
      {
        var event := events[0];
        if event.Received? && event.bytes != [] {
          var chunk := Chunk(event.context.(readyForIo := false), event.bytes, 0);
          EventBehind(received, processed, chunks, events, chunk);
          chunks := chunks + [chunk];
        } else {
          EventDropped(received, processed, chunks, events);
        }
        events := events[1..];
      }
    }

    /** The backlog is thrown away. */
    method ClearPendingRealtimeBacklog()
      requires Valid()
      modifies `chunks, `events, `processed
      ensures Valid() && chunks == [] && events == []
      ensures Kept(processed) == Kept(old(processed)) && |processed| == |received|
    {
      hide Agree, Connected;
      ghost var tags := OfChunks(chunks) + OfEvents(events);
      Dropped(worker, capture, panel, processed, tags);
      NoneKept(processed, tags);
      Assoc(Origin(processed), OfChunks(chunks), OfEvents(events));
      OriginGrows(processed, tags, false);
      chunks, events := [], [];
      processed := processed + Fates(tags, false);
      assert Origin(processed) + [] + [] == Origin(processed);
    }
  }

  /** Outside its `readyForIo` flag nothing of a chunk is changed, so its bytes are the same. */
  lemma {:induction false} SameBytes(a: seq<Chunk>, b: seq<Chunk>)
    requires Sound(a) && |a| == |b|
    requires forall k :: 0 <= k < |a| ==>
      b[k].bytes == a[k].bytes && b[k].offset == a[k].offset
      && b[k].context.connectionId == a[k].context.connectionId
    ensures Sound(b) && OfChunks(a) == OfChunks(b)
  {
    assert Sound(b);
    if a != [] {
      SameBytes(a[1..], b[1..]);
    }
  }

  lemma EventBehind(received: seq<Tag>, processed: seq<Fate>, chunks: seq<Chunk>, events: seq<Event>, chunk: Chunk)
    requires Accounted(received, processed, chunks, events)
    requires events != [] && events[0].Received? && events[0].bytes != []
    requires chunk.context.connectionId == events[0].context.connectionId
    requires chunk.bytes == events[0].bytes && chunk.offset == 0
    ensures Accounted(received, processed, chunks + [chunk], events[1..])
  {
    ChunksSnoc(chunks, chunk);
    assert chunk.bytes[0..] == chunk.bytes;
    Assoc(OfChunks(chunks), Left(chunk), OfEvents(events[1..]));
    Assoc(Origin(processed), OfChunks(chunks), OfEvents(events));
    Assoc(Origin(processed), OfChunks(chunks) + Left(chunk), OfEvents(events[1..]));
  }

  lemma NoneKept(processed: seq<Fate>, tags: seq<Tag>)
    ensures Kept(processed + Fates(tags, false)) == Kept(processed)
    ensures processed <= processed + Fates(tags, false)
  {
    KeptFates(tags, false);
    KeptConcat(processed, Fates(tags, false));
  }

  lemma KeptGrows(before: seq<Fate>, after: seq<Fate>)
    requires before <= after
    ensures 0 <= |Kept(after)| - |Kept(before)| <= |after| - |before|
  {
    assert after == before + after[|before|..];
    KeptConcat(before, after[|before|..]);
    KeptFewer(after[|before|..]);
  }

  lemma {:induction false} KeptFewer(fates: seq<Fate>)
    ensures |Kept(fates)| <= |fates|
  {
    if fates != [] {
      KeptFewer(fates[1..]);
    }
  }

  lemma FatesCount(tags: seq<Tag>, kept: bool)
    ensures |Fates(tags, kept)| == |tags|
  {
  }

  /** While nothing was discarded, what each consumer was given and what still waits is what was received. */
  lemma NothingLost(received: seq<Tag>, processed: seq<Fate>, chunks: seq<Chunk>, events: seq<Event>,
                    worker: seq<Delivery>, capture: seq<Delivery>, panel: seq<Delivery>)
    requires Accounted(received, processed, chunks, events) && Agree(worker, capture, panel, processed)
    ensures (forall i :: 0 <= i < |processed| ==> processed[i].kept) <==>
      received == OfDeliveries(capture) + OfChunks(chunks) + OfEvents(events)
  {
    hide OfChunks, OfEvents, OfDeliveries;
    KeptAll(processed);
    if received == OfDeliveries(capture) + OfChunks(chunks) + OfEvents(events) {
      assert |Origin(processed)| == |Kept(processed)|;
    }
  }

  lemma {:induction false} KeptAll(fates: seq<Fate>)
    ensures |Kept(fates)| <= |fates|
    ensures (forall i :: 0 <= i < |fates| ==> fates[i].kept) <==> |Kept(fates)| == |fates|
    ensures |Kept(fates)| == |fates| ==> Kept(fates) == Origin(fates)
  {
    if fates != [] {
      var first, rest := fates[0], fates[1..];
      KeptAll(rest);
      assert Origin(fates) == [first.tag] + Origin(rest);
      assert forall i :: 1 <= i < |fates| ==> fates[i] == rest[i - 1];
      assert forall i :: 0 <= i < |rest| ==> rest[i] == fates[i + 1];
    }
  }

  ghost function OfAll(chunks: seq<Chunk>): seq<Tag> {
    if Sound(chunks) then OfChunks(chunks) else []
  }

  lemma NothingTaken(processed: seq<Fate>, id: nat, bytes: seq<byte>, kept: bool)
    ensures processed + Fates(Tagged(id, bytes[..0]), kept) == processed
  {
  }

  lemma SliceOfSlice<T>(s: seq<T>, from: nat, size: nat, n: nat)
    requires from + size <= |s| && n <= size
    ensures s[from..from + size][..n] == s[from..from + n]
  {
  }

  lemma SoundChunks(received: seq<Tag>, processed: seq<Fate>, chunks: seq<Chunk>, events: seq<Event>)
    requires Accounted(received, processed, chunks, events)
    ensures Sound(chunks)
  {
  }

  lemma ChunkSizes(chunks: seq<Chunk>, n: nat)
    requires Sound(chunks) && chunks != [] && n <= |chunks[0].bytes| - chunks[0].offset
    ensures |OfAll(Shorter(chunks, n))| == |OfAll(chunks)| - n
  {
    ChunkSplit(chunks, n);
    hide OfChunks, Shorter;
  }

  lemma TagCount(processed: seq<Fate>, c: Chunk, n: nat, kept: bool)
    requires c.offset + n <= |c.bytes|
    ensures var more := processed + Fates(Tagged(c.context.connectionId, c.bytes[c.offset..c.offset + n]), kept);
      processed <= more && |more| == |processed| + n
  {
  }
}
