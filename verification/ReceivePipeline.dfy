/** The way of a received byte: from the transport's events through the chunks of the application, the command
  * queue of the script worker, its callback and its published outputs back to the scheduler.  The application and
  * the worker are two threads; every critical section is one step.  The point is that an acknowledgement that is
  * anywhere on this way is never overtaken by the timeout of the request it answers. */
module ReceivePipeline {
  import opened Basics
  import Rx = RxFanout
  import opened TxModel
  import Tx = TxLaws
  import TxOutcomes

  // ---------------------------------------------------------------- the script worker

  /** Where a batch of outputs comes from: a callback for received bytes, another callback, or the queue itself,
    * which warns of its level. */
  datatype Origin = OfBytes | OfOther | Warning

  datatype Batch = Batch(origin: Origin, resets: nat, requests: seq<Attempt>, results: seq<bool>, more: bool)
  {
    /** Only batches with something in them are published. */
    predicate HasOutputs() {
      resets > 0 || requests != [] || results != [] || more
    }
  }

  /** `Clearing` stands for the commands that drop the received bytes queued behind them: a closed connection, a
    * reloaded protocol, a reset replay. */
  datatype Command = Bytes(tags: seq<Rx.Tag>) | Clearing | Other

  /** How far the worker thread is with its command. */
  datatype Phase =
    | Idle
    | Popped(command: Command)
    | Running(command: Command)
    | Publishing(command: Command, batch: Batch)
    | Published(command: Command)

  /** A byte the worker is done with: the script heard it, or it was dropped. */
  datatype Settled = Settled(tag: Rx.Tag, heard: bool)

  /** `pendingRxBytes` and `executingRxBytes` are the worker's own counters; `settled`, `made` and `published`
    * remember what went through it. */
  datatype Worker = Worker(
    commands: seq<Command>, phase: Phase, outputs: seq<Batch>, pendingRxBytes: nat, executingRxBytes: nat,
    settled: seq<Settled>, made: seq<Batch>, published: seq<Batch>)

  const AT_REST: Worker := Worker([], Idle, [], 0, 0, [], [], [])

  function Less(a: nat, b: nat): nat {
    if b < a then a - b else 0
  }

  function TagsOf(command: Command): seq<Rx.Tag> {
    if command.Bytes? then command.tags else []
  }

  function Queued(commands: seq<Command>): seq<Rx.Tag> {
    if commands == [] then [] else TagsOf(commands[0]) + Queued(commands[1..])
  }

  function WithoutBytes(commands: seq<Command>): seq<Command> {
    if commands == [] then []
    else (if commands[0].Bytes? then [] else [commands[0]]) + WithoutBytes(commands[1..])
  }

  function Tags(settled: seq<Settled>): (r: seq<Rx.Tag>)
    ensures |r| == |settled|
  {
    seq(|settled|, i requires 0 <= i < |settled| => settled[i].tag)
  }

  function Settle(tags: seq<Rx.Tag>, heard: bool): (r: seq<Settled>)
    ensures |r| == |tags|
  {
    seq(|tags|, i requires 0 <= i < |tags| => Settled(tags[i], heard))
  }

  /** The bytes of a command that was taken but whose callback has not returned. */
  function InHand(phase: Phase): seq<Rx.Tag> {
    if phase.Popped? || phase.Running? then TagsOf(phase.command) else []
  }

  function CommandOf(phase: Phase): Command {
    if phase.Idle? then Other else phase.command
  }

  function Post(w: Worker, command: Command): Worker {
    w.(commands := w.commands + [command], pendingRxBytes := w.pendingRxBytes + |TagsOf(command)|)
  }

  /** The steps of the worker thread; one that cannot be taken changes nothing. */
  datatype Move =
    | Pop
    | Begin
    | Clear
    | Return(heard: bool, batch: Batch)
    | Publish(limit: nat)
    | Finish
    | Warn(batch: Batch)

  function Moved(w: Worker, move: Move): Worker {
    match move
    case Pop =>
      if w.phase.Idle? && w.commands != []
      then w.(phase := Popped(w.commands[0]), commands := w.commands[1..],
              executingRxBytes := w.executingRxBytes + |TagsOf(w.commands[0])|)
      else w
    case Begin =>
      if w.phase.Popped?
      then w.(phase := Running(w.phase.command), pendingRxBytes := Less(w.pendingRxBytes, |TagsOf(w.phase.command)|))
      else w
    case Clear =>
      if w.phase == Running(Clearing)
      then w.(commands := WithoutBytes(w.commands), pendingRxBytes := Less(w.pendingRxBytes, |Queued(w.commands)|),
              settled := w.settled + Settle(Queued(w.commands), false))
      else w
    case Return(heard, batch) =>
      if w.phase.Running? then
        var made := batch.(origin := if w.phase.command.Bytes? then OfBytes else OfOther);
        w.(phase := Publishing(w.phase.command, made), settled := w.settled + Settle(InHand(w.phase), heard),
           made := if made.HasOutputs() then w.made + [made] else w.made)
      else w
    case Publish(limit) =>
      if !w.phase.Publishing? then w
      else if !w.phase.batch.HasOutputs() then w.(phase := Published(w.phase.command))
      else if limit > 0 && |w.outputs| >= limit then w
      else w.(phase := Published(w.phase.command), outputs := w.outputs + [w.phase.batch],
              published := w.published + [w.phase.batch])
    case Finish =>
      if w.phase.Published?
      then w.(phase := Idle, executingRxBytes := Less(w.executingRxBytes, |TagsOf(w.phase.command)|))
      else w
    case Warn(batch) =>
      var warning := batch.(origin := Warning);
      w.(outputs := w.outputs + [warning], published := w.published + [warning])
  }

  /** The batches that callbacks made. */
  function Made(batches: seq<Batch>): seq<Batch> {
    if batches == [] then []
    else Made(batches[..|batches| - 1])
         + if batches[|batches| - 1].origin.Warning? then [] else [batches[|batches| - 1]]
  }

  /** Those that callbacks made for received bytes. */
  function ForBytes(batches: seq<Batch>): seq<Batch> {
    if batches == [] then []
    else ForBytes(batches[..|batches| - 1])
         + if batches[|batches| - 1].origin.OfBytes? then [batches[|batches| - 1]] else []
  }

  /** The batch a callback made that is not published yet. */
  function Unpublished(phase: Phase): seq<Batch> {
    if phase.Publishing? && phase.batch.HasOutputs() then [phase.batch] else []
  }

  /** Every byte the worker was handed is settled, in hand or queued, in order, and both counters are exact: the
    * one for queued bytes until the callback begins, the other from the taking of a command until its outputs are
    * published. */
  ghost predicate WorkerOk(w: Worker, handed: seq<Rx.Tag>) {
    && handed == Tags(w.settled) + InHand(w.phase) + Queued(w.commands)
    && (forall i :: 0 <= i < |w.commands| && w.commands[i].Bytes? ==> w.commands[i].tags != [])
    && (CommandOf(w.phase).Bytes? ==> CommandOf(w.phase).tags != [])
    && w.pendingRxBytes == |Queued(w.commands)| + (if w.phase.Popped? then |TagsOf(w.phase.command)| else 0)
    && w.executingRxBytes == |TagsOf(CommandOf(w.phase))|
  }

  /** Every batch a callback made is published, or the worker is about to publish it. */
  ghost predicate OutputsOk(w: Worker) {
    && w.made == Made(w.published) + Unpublished(w.phase)
    && (w.phase.Publishing? ==> (w.phase.batch.origin.OfBytes? <==> w.phase.command.Bytes?)
                                && !w.phase.batch.origin.Warning?)
  }

  lemma Assoc<T>(a: seq<T>, b: seq<T>, c: seq<T>)
    ensures a + b + c == a + (b + c)
  {
  }

  lemma {:induction false} QueuedSnoc(commands: seq<Command>, command: Command)
    ensures Queued(commands + [command]) == Queued(commands) + TagsOf(command)
  {
    if commands == [] {
      assert [command][1..] == [] && commands + [command] == [command];
    } else {
      assert (commands + [command])[1..] == commands[1..] + [command];
      QueuedSnoc(commands[1..], command);
      Assoc(TagsOf(commands[0]), Queued(commands[1..]), TagsOf(command));
    }
  }

  lemma {:induction false} NoneQueued(commands: seq<Command>)
    ensures Queued(WithoutBytes(commands)) == []
    ensures forall i :: 0 <= i < |WithoutBytes(commands)| ==> !WithoutBytes(commands)[i].Bytes?
  {
    if commands != [] {
      NoneQueued(commands[1..]);
      var rest := WithoutBytes(commands[1..]);
      if !commands[0].Bytes? {
        assert ([commands[0]] + rest)[1..] == rest;
      } else {
        assert [] + rest == rest;
      }
    }
  }

  lemma SettleMore(settled: seq<Settled>, tags: seq<Rx.Tag>, heard: bool)
    ensures Tags(settled + Settle(tags, heard)) == Tags(settled) + tags
  {
  }

  lemma MadeSnoc(batches: seq<Batch>, batch: Batch)
    ensures Made(batches + [batch]) == Made(batches) + if batch.origin.Warning? then [] else [batch]
    ensures ForBytes(batches + [batch]) == ForBytes(batches) + if batch.origin.OfBytes? then [batch] else []
  {
    assert (batches + [batch])[..|batches|] == batches;
  }

  lemma PostOk(w: Worker, handed: seq<Rx.Tag>, command: Command)
    requires WorkerOk(w, handed) && OutputsOk(w) && (command.Bytes? ==> command.tags != [])
    ensures WorkerOk(Post(w, command), handed + TagsOf(command)) && OutputsOk(Post(w, command))
  {
    hide Made, Tags;
    QueuedSnoc(w.commands, command);
    Assoc(Tags(w.settled) + InHand(w.phase), Queued(w.commands), TagsOf(command));
  }

  /** No step of the worker thread loses a byte or a batch, or lets a counter drift. */
  lemma MovedOk(w: Worker, handed: seq<Rx.Tag>, move: Move)
    requires WorkerOk(w, handed) && OutputsOk(w)
    ensures WorkerOk(Moved(w, move), handed) && OutputsOk(Moved(w, move))
  {
    hide Made, Tags, Settle;
    match move
    case Pop => PopOk(w, handed);
    case Begin =>
    case Clear => ClearOk(w, handed);
    case Return(heard, batch) => ReturnOk(w, handed, heard, batch);
    case Publish(limit) =>
      if w.phase.Publishing? {
        MadeSnoc(w.published, w.phase.batch);
        assert Made(w.published) + [] == Made(w.published);
      }
    case Finish =>
    case Warn(batch) =>
      MadeSnoc(w.published, batch.(origin := Warning));
      assert Made(w.published) + [] == Made(w.published);
  }

  lemma PopOk(w: Worker, handed: seq<Rx.Tag>)
    requires WorkerOk(w, handed) && OutputsOk(w)
    ensures WorkerOk(Moved(w, Pop), handed) && OutputsOk(Moved(w, Pop))
  {
    hide Made, Tags;
    if w.phase.Idle? && w.commands != [] {
      var done := Tags(w.settled);
      assert done + [] + Queued(w.commands) == done + TagsOf(w.commands[0]) + Queued(w.commands[1..]);
    }
  }

  lemma ClearOk(w: Worker, handed: seq<Rx.Tag>)
    requires WorkerOk(w, handed) && OutputsOk(w)
    ensures WorkerOk(Moved(w, Clear), handed) && OutputsOk(Moved(w, Clear))
  {
    hide Made, Tags, Settle;
    if w.phase == Running(Clearing) {
      NoneQueued(w.commands);
      SettleMore(w.settled, Queued(w.commands), false);
      NothingBetween(Tags(w.settled), Queued(w.commands));
      hide Queued, WithoutBytes;
    }
  }

  lemma NothingBetween<T>(a: seq<T>, b: seq<T>)
    ensures a + [] + b == a + b + [] + []
  {
  }

  lemma ReturnOk(w: Worker, handed: seq<Rx.Tag>, heard: bool, batch: Batch)
    requires WorkerOk(w, handed) && OutputsOk(w)
    ensures WorkerOk(Moved(w, Return(heard, batch)), handed) && OutputsOk(Moved(w, Return(heard, batch)))
  {
    hide Made, Tags, Settle;
    if w.phase.Running? {
      SettleMore(w.settled, InHand(w.phase), heard);
      var done := Tags(w.settled) + InHand(w.phase);
      assert done + Queued(w.commands) == done + [] + Queued(w.commands);
      assert Made(w.published) + [] == Made(w.published);
    }
  }

  // ---------------------------------------------------------------- both threads

  /** A batch the application took: `applied` unless it was thrown away or its requests were. */
  datatype Taken = Taken(batch: Batch, applied: bool)

  /** `waitFrom` is how many batches had been taken when the request now awaiting its acknowledgement began to. */
  datatype System = System(
    tx: Tx.World, rx: Rx.View, received: seq<Rx.Tag>, worker: Worker, taken: seq<Taken>, waitFrom: nat)

  const START: System := System(Tx.START, Rx.View([], [], None, []), [], AT_REST, [], 0)

  function Batches(taken: seq<Taken>): (r: seq<Batch>)
    ensures |r| == |taken|
  {
    seq(|taken|, i requires 0 <= i < |taken| => taken[i].batch)
  }

  /** What can happen: events arrive, the application makes a turn of its pump, gives up its backlog, posts a
    * command, takes or throws away outputs, hears from the transport, cancels or checks for timeouts; or the
    * worker thread moves. */
  datatype Input =
    | Arrive(events: seq<Rx.Event>)
    | Turn(workerEnabled: bool, budget: nat, room: nat)
    | DropBacklog
    | Command(command: Command)
    | Take(offline: bool, answers: seq<Answer>)
    | Discard
    | Report(r: Attempt, outcome: Outcome, nowMs: nat, offline: bool, answers: seq<Answer>)
    | Cancel
    | Check(nowMs: nat, offline: bool, answers: seq<Answer>)
    | WorkerMoves(move: Move)

  /** The numbers the timeout check looks at. */
  function Counts(s: System): Pipeline {
    Pipeline(|s.rx.events|, |s.rx.chunks|, s.worker.executingRxBytes, s.worker.pendingRxBytes, |s.worker.outputs|)
  }

  /** What an input is to the scheduler, if anything. */
  function TxInput(s: System, input: Input): Option<Tx.Input> {
    match input
    case Take(offline, answers) =>
      if s.worker.outputs == [] then None
      else var b := s.worker.outputs[0]; Some(Tx.Batch(offline, b.resets, b.requests, b.results, answers))
    case Report(r, outcome, nowMs, offline, answers) => Some(Tx.Report(r, outcome, nowMs, offline, answers))
    case Cancel => Some(Tx.Cancel)
    case Check(nowMs, offline, answers) => Some(Tx.Check(nowMs, Counts(s), offline, answers))
    case _ => None
  }

  /** The scheduler's own assumptions, and that the application itself posts no received bytes past its pump. */
  ghost predicate Possible(s: System, input: Input) {
    && (TxInput(s, input).Some? ==> Tx.Possible(s.tx, TxInput(s, input).value))
    && (input.Command? ==> !input.command.Bytes?)
  }

  /** The scheduler's part of a step. */
  ghost function TxPart(s: System, config: Config, input: Input): System {
    var i := TxInput(s, input);
    if i.None? then s
    else
      var world := Tx.Advance(s.tx, config, i.value);
      s.(tx := world, waitFrom := if world.engine.awaiting == s.tx.engine.awaiting then s.waitFrom else |s.taken|)
  }

  /** The bytes a turn of the pump hands to the worker. */
  function HandedBy(before: Rx.View, after: Rx.View): seq<Rx.Tag> {
    var from, to := Rx.Kept(before.processed), Rx.Kept(after.processed);
    if |from| <= |to| then to[|from|..] else []
  }

  ghost function Stepped(s: System, config: Config, input: Input): System {
    match input
    case Arrive(events) => s.(rx := s.rx.(events := s.rx.events + events), received := s.received + Rx.OfEvents(events))
    case Turn(workerEnabled, budget, room) =>
      if !Rx.Sound(s.rx.chunks) then s
      else
        var view := Rx.OneTurn(s.rx, workerEnabled, budget, room).view;
        var tags := HandedBy(s.rx, view);
        s.(rx := view, worker := if tags == [] then s.worker else Post(s.worker, Bytes(tags)))
    case DropBacklog =>
      if !Rx.Sound(s.rx.chunks) then s
      else
        var tags := Rx.OfChunks(s.rx.chunks) + Rx.OfEvents(s.rx.events);
        s.(rx := s.rx.(events := [], chunks := [], processed := s.rx.processed + Rx.Fates(tags, false)))
    case Command(command) => s.(worker := Post(s.worker, command))
    case Take(offline, answers) =>
      if s.worker.outputs == [] then s
      else
        var batch := s.worker.outputs[0];
        TxPart(s, config, input).(worker := s.worker.(outputs := s.worker.outputs[1..]),
                                  taken := s.taken + [Taken(batch, !offline)])
    case Discard =>
      s.(worker := s.worker.(outputs := []), taken := s.taken + Thrown(s.worker.outputs))
    case WorkerMoves(move) => s.(worker := Moved(s.worker, move))
    case _ => TxPart(s, config, input)
  }

  function Thrown(batches: seq<Batch>): (r: seq<Taken>)
    ensures |r| == |batches|
  {
    seq(|batches|, i requires 0 <= i < |batches| => Taken(batches[i], false))
  }

  // ---------------------------------------------------------------- what every run keeps

  /** Since the wait for an acknowledgement began no batch with a result was applied. */
  ghost predicate Unanswered(s: System) {
    && s.waitFrom <= |s.taken|
    && (s.tx.engine.awaiting.Some? ==>
          forall i :: s.waitFrom <= i < |s.taken| ==> !(s.taken[i].applied && s.taken[i].batch.results != []))
  }

  ghost predicate SystemOk(s: System, config: Config) {
    && Tx.WorldGood(s.tx, config)
    && Rx.Accounted(s.received, s.rx.processed, s.rx.chunks, s.rx.events)
    && WorkerOk(s.worker, Rx.Kept(s.rx.processed)) && OutputsOk(s.worker)
    && s.worker.published == Batches(s.taken) + s.worker.outputs
    && Unanswered(s)
  }

  lemma StartOk(config: Config)
    ensures SystemOk(START, config)
  {
    hide Tx.WorldGood;
    Tx.StartGood(config);
  }

  lemma TxPartOk(s: System, config: Config, input: Input)
    requires SystemOk(s, config) && Possible(s, input)
    ensures Tx.WorldGood(TxPart(s, config, input).tx, config)
  {
    hide Tx.WorldGood, Tx.Advance, Tx.Possible, Tx.Run, Tx.Possibles;
    var i := TxInput(s, input);
    if i.Some? {
      Tx.OneInput(s.tx, config, i.value);
      Tx.RunGood(s.tx, config, [i.value]);
    }
  }

  /** How the wait for an acknowledgement changes. */
  lemma AwaitingAfter(w: Tx.World, config: Config, input: Tx.Input)
    requires Tx.WorldGood(w, config)
    ensures var e, f := w.engine, Tx.Advance(w, config, input).engine;
      && (input.Batch? && (input.offline || input.results == []) ==> f.awaiting == e.awaiting)
      && (input.Batch? && !input.offline && input.results != [] ==> f.awaiting.None?)
  {
    if input.Batch? {
      hide Enqueue;
      var e := w.engine;
      if !input.offline {
        Tx.ResetsAwaiting(e, input.resets);
        var x := ResetGuards(e, input.resets);
        Tx.EnqueueAllAwaiting(x, config, input.requests);
        var y := Acknowledge(EnqueueAll(x, config, input.requests), input.results);
        Tx.DriveAwaiting(y, input.offline, input.answers);
      }
    }
  }

  lemma ArriveOk(s: System, config: Config, events: seq<Rx.Event>)
    requires SystemOk(s, config)
    ensures SystemOk(Stepped(s, config, Arrive(events)), config)
  {
    hide Tx.WorldGood, WorkerOk, OutputsOk, Unanswered, Rx.Origin, Rx.OfChunks;
    Rx.EventsConcat(s.rx.events, events);
    Assoc(Rx.Origin(s.rx.processed) + Rx.OfChunks(s.rx.chunks), Rx.OfEvents(s.rx.events), Rx.OfEvents(events));
    assert Unanswered(s) ==> Unanswered(Stepped(s, config, Arrive(events))) by {
      SameWait(s, Stepped(s, config, Arrive(events)));
    }
  }

  lemma SameWait(s: System, t: System)
    requires Unanswered(s) && t.tx == s.tx && t.taken == s.taken && t.waitFrom == s.waitFrom
    ensures Unanswered(t)
  {
  }

  lemma TurnOk(s: System, config: Config, workerEnabled: bool, budget: nat, room: nat)
    requires SystemOk(s, config)
    ensures SystemOk(Stepped(s, config, Turn(workerEnabled, budget, room)), config)
  {
    hide Tx.WorldGood, WorkerOk, OutputsOk, Unanswered, Rx.OneTurn, Rx.Kept;
    Rx.TurnAccounts(s.received, s.rx, workerEnabled, budget, room);
    var view := Rx.OneTurn(s.rx, workerEnabled, budget, room).view;
    var from, to := Rx.Kept(s.rx.processed), Rx.Kept(view.processed);
    var tags := HandedBy(s.rx, view);
    assert to == from + tags;
    if tags != [] {
      PostOk(s.worker, from, Bytes(tags));
      assert TagsOf(Bytes(tags)) == tags;
    } else {
      assert from + tags == from;
    }
    SameWait(s, Stepped(s, config, Turn(workerEnabled, budget, room)));
  }

  lemma DropBacklogOk(s: System, config: Config)
    requires SystemOk(s, config)
    ensures SystemOk(Stepped(s, config, DropBacklog), config)
  {
    hide Tx.WorldGood, WorkerOk, OutputsOk, Unanswered, Rx.Kept;
    var tags := Rx.OfChunks(s.rx.chunks) + Rx.OfEvents(s.rx.events);
    Rx.NoneKept(s.rx.processed, tags);
    Rx.OriginGrows(s.rx.processed, tags, false);
    Assoc(Rx.Origin(s.rx.processed), Rx.OfChunks(s.rx.chunks), Rx.OfEvents(s.rx.events));
    assert s.received + [] + [] == s.received;
    SameWait(s, Stepped(s, config, DropBacklog));
  }

  lemma CommandOk(s: System, config: Config, command: Command)
    requires SystemOk(s, config) && !command.Bytes?
    ensures SystemOk(Stepped(s, config, Input.Command(command)), config)
  {
    hide Tx.WorldGood, WorkerOk, OutputsOk, Unanswered, Rx.Accounted, Rx.Kept;
    var handed := Rx.Kept(s.rx.processed);
    PostOk(s.worker, handed, command);
    assert handed + [] == handed;
    SameWait(s, Stepped(s, config, Input.Command(command)));
  }

  lemma MoveOk(s: System, config: Config, move: Move)
    requires SystemOk(s, config)
    ensures SystemOk(Stepped(s, config, WorkerMoves(move)), config)
  {
    hide Tx.WorldGood, WorkerOk, OutputsOk, Unanswered, Rx.Accounted, Rx.Kept;
    MovedOk(s.worker, Rx.Kept(s.rx.processed), move);
    MovePublishes(s.worker, move, Batches(s.taken));
    SameWait(s, Stepped(s, config, WorkerMoves(move)));
  }

  lemma MovePublishes(w: Worker, move: Move, before: seq<Batch>)
    requires w.published == before + w.outputs
    ensures Moved(w, move).published == before + Moved(w, move).outputs
  {
    hide Settle, Queued, WithoutBytes, Tags;
    if move.Publish? && w.phase.Publishing? {
      Assoc(before, w.outputs, [w.phase.batch]);
    } else if move.Warn? {
      Assoc(before, w.outputs, [move.batch.(origin := Warning)]);
    }
  }

  lemma TakeOk(s: System, config: Config, offline: bool, answers: seq<Answer>)
    requires SystemOk(s, config) && Possible(s, Take(offline, answers))
    ensures SystemOk(Stepped(s, config, Take(offline, answers)), config)
  {
    hide Tx.WorldGood, Tx.Advance, Rx.Accounted, Rx.Kept, WorkerOk;
    if s.worker.outputs != [] {
      var input := Take(offline, answers);
      TxPartOk(s, config, input);
      AwaitingAfter(s.tx, config, TxInput(s, input).value);
      var batch, t := s.worker.outputs[0], Stepped(s, config, input);
      assert Batches(t.taken) == Batches(s.taken) + [batch];
      Assoc(Batches(s.taken), [batch], s.worker.outputs[1..]);
      assert s.worker.outputs == [batch] + s.worker.outputs[1..];
      SameWorker(s.worker, t.worker, Rx.Kept(s.rx.processed));
    }
  }

  lemma SameWorker(w: Worker, v: Worker, handed: seq<Rx.Tag>)
    requires WorkerOk(w, handed) && v == w.(outputs := v.outputs)
    ensures WorkerOk(v, handed)
  {
  }

  lemma DiscardOk(s: System, config: Config)
    requires SystemOk(s, config)
    ensures SystemOk(Stepped(s, config, Discard), config)
  {
    hide Tx.WorldGood, Rx.Accounted, Rx.Kept, WorkerOk;
    var t := Stepped(s, config, Discard);
    assert Batches(t.taken) == Batches(s.taken) + s.worker.outputs;
    assert Batches(t.taken) + [] == Batches(t.taken);
    SameWorker(s.worker, t.worker, Rx.Kept(s.rx.processed));
  }

  lemma TxOnlyOk(s: System, config: Config, input: Input)
    requires SystemOk(s, config) && Possible(s, input) && (input.Report? || input.Cancel? || input.Check?)
    ensures SystemOk(Stepped(s, config, input), config)
  {
    hide Tx.WorldGood, Tx.Advance, Rx.Accounted, Rx.Kept, WorkerOk, OutputsOk;
    TxPartOk(s, config, input);
  }

  lemma SteppedOk(s: System, config: Config, input: Input)
    requires SystemOk(s, config) && Possible(s, input)
    ensures SystemOk(Stepped(s, config, input), config)
  {
    hide SystemOk, Stepped;
    match input
    case Arrive(events) => ArriveOk(s, config, events);
    case Turn(workerEnabled, budget, room) => TurnOk(s, config, workerEnabled, budget, room);
    case DropBacklog => DropBacklogOk(s, config);
    case Command(command) => CommandOk(s, config, command);
    case Take(offline, answers) => TakeOk(s, config, offline, answers);
    case Discard => DiscardOk(s, config);
    case WorkerMoves(move) => MoveOk(s, config, move);
    case _ => TxOnlyOk(s, config, input);
  }

  ghost function Run(s: System, config: Config, inputs: seq<Input>): System
    decreases |inputs|
  {
    if inputs == [] then s else Run(Stepped(s, config, inputs[0]), config, inputs[1..])
  }

  ghost predicate Possibles(s: System, config: Config, inputs: seq<Input>)
    decreases |inputs|
  {
    inputs == [] || (Possible(s, inputs[0]) && Possibles(Stepped(s, config, inputs[0]), config, inputs[1..]))
  }

  lemma {:induction false} RunOk(s: System, config: Config, inputs: seq<Input>)
    requires SystemOk(s, config) && Possibles(s, config, inputs)
    ensures SystemOk(Run(s, config, inputs), config)
    decreases |inputs|
  {
    hide SystemOk, Stepped, Possible;
    if inputs != [] {
      SteppedOk(s, config, inputs[0]);
      RunOk(Stepped(s, config, inputs[0]), config, inputs[1..]);
    }
  }

  // ---------------------------------------------------------------- what a timeout tells

  /** The check ends the wait now. */
  ghost predicate TimesOut(s: System, input: Input) {
    && input.Check? && s.tx.engine.awaiting.Some?
    && input.nowMs >= s.tx.engine.awaiting.value.deadlineMs && Drained(Counts(s))
  }

  /** A received byte is somewhere between the transport's events and the return of the script's callback. */
  ghost predicate ByteUnderWay(s: System) {
    || Rx.Origin(s.rx.processed) != s.received
    || Tags(s.worker.settled) != Rx.Kept(s.rx.processed)
  }

  /** A batch made for received bytes was not taken yet. */
  ghost predicate AnswerUnderWay(s: System) {
    ForBytes(Batches(s.taken)) != ForBytes(s.worker.made)
  }

  lemma {:induction false} ForBytesMade(batches: seq<Batch>)
    ensures ForBytes(Made(batches)) == ForBytes(batches)
  {
    if batches != [] {
      var front, last := batches[..|batches| - 1], batches[|batches| - 1];
      ForBytesMade(front);
      assert batches == front + [last];
      MadeSnoc(Made(front), last);
      MadeSnoc(front, last);
      assert Made(front) + [] == Made(front) && ForBytes(front) + [] == ForBytes(front);
    }
  }

  /** Empty stages, by their counts, hold nothing back. */
  lemma NothingUnderWay(s: System, config: Config)
    requires SystemOk(s, config) && Drained(Counts(s))
    ensures !ByteUnderWay(s) && !AnswerUnderWay(s)
  {
    hide Tx.WorldGood, Made, ForBytes, Batches, Rx.Kept, Unanswered;
    var w, handed := s.worker, Rx.Kept(s.rx.processed);
    assert s.received == Rx.Origin(s.rx.processed) + [] + [];
    assert !CommandOf(w.phase).Bytes?;
    assert |Queued(w.commands)| == 0;
    assert handed == Tags(w.settled) + [] + [];
    assert w.outputs == [] && w.published == Batches(s.taken) + [];
    assert w.published == Batches(s.taken);
    AllPublished(w);
  }

  /** With no callback for received bytes in hand, what such callbacks made is published. */
  lemma AllPublished(w: Worker)
    requires OutputsOk(w) && !CommandOf(w.phase).Bytes?
    ensures ForBytes(w.made) == ForBytes(w.published)
  {
    hide Made, ForBytes;
    ForBytesMade(w.published);
    if w.phase.Publishing? && w.phase.batch.HasOutputs() {
      MadeSnoc(Made(w.published), w.phase.batch);
    } else {
      assert Made(w.published) + [] == Made(w.published);
    }
  }

  /** Over every run: when a request times out for want of an acknowledgement, every byte the application had
    * received was through the worker's callback or had been given up with its connection, every output of such
    * a callback had been taken, and of the outputs applied since the wait began none was an acknowledgement. */
  lemma TimeoutSafe(config: Config, inputs: seq<Input>, check: Input)
    requires Possibles(START, config, inputs) && TimesOut(Run(START, config, inputs), check)
    ensures var s := Run(START, config, inputs);
      && !ByteUnderWay(s) && !AnswerUnderWay(s)
      && s.waitFrom <= |s.taken|
      && forall i :: s.waitFrom <= i < |s.taken| && s.taken[i].applied ==> s.taken[i].batch.results == []
  {
    hide Stepped, Possible, Tx.WorldGood, WorkerOk, OutputsOk, ByteUnderWay, AnswerUnderWay, Rx.Accounted;
    StartOk(config);
    RunOk(START, config, inputs);
    NothingUnderWay(Run(START, config, inputs), config);
  }

  /** An acknowledgement that is already on its way wins: while a received byte or an answer to one is under way a
    * check changes nothing for the request that waits, however late it is. */
  lemma AnswerWins(config: Config, inputs: seq<Input>, check: Input)
    requires Possibles(START, config, inputs) && check.Check?
    requires var s := Run(START, config, inputs);
      s.tx.engine.awaiting.Some? && (ByteUnderWay(s) || AnswerUnderWay(s))
    ensures var s := Run(START, config, inputs); Stepped(s, config, check).tx.engine == s.tx.engine
  {
    hide Possible, Tx.WorldGood, WorkerOk, OutputsOk, ByteUnderWay, AnswerUnderWay, Rx.Accounted, Run, Moved;
    StartOk(config);
    RunOk(START, config, inputs);
    var s := Run(START, config, inputs);
    if Drained(Counts(s)) {
      NothingUnderWay(s, config);
    }
    Tx.CheckCases(s.tx.engine, config, TxInput(s, check).value);
  }

  /** The wait is not endless either: a check past the deadline that finds the way empty does end it, as timed
    * out. */
  lemma TimeoutComes(config: Config, inputs: seq<Input>, check: Input)
    requires Possibles(START, config, inputs) && TimesOut(Run(START, config, inputs), check)
    ensures var s := Run(START, config, inputs);
      var t := Stepped(s, config, check);
      t.tx.engine.awaiting.None? && Finished(s.tx.engine.awaiting.value.request, Timeout) in t.tx.engine.log
  {
    hide Possible, Tx.WorldGood, WorkerOk, OutputsOk, Rx.Accounted, Run, Moved;
    StartOk(config);
    RunOk(START, config, inputs);
    var s := Run(START, config, inputs);
    Tx.WaitEnds(s.tx, config, TxInput(s, check).value);
  }

  /** The first acknowledgement taken while a request waits ends the wait. */
  lemma AnswerEndsWait(config: Config, inputs: seq<Input>, take: Input)
    requires Possibles(START, config, inputs) && take.Take? && !take.offline
    requires var s := Run(START, config, inputs); s.worker.outputs != [] && s.worker.outputs[0].results != []
    ensures Stepped(Run(START, config, inputs), config, take).tx.engine.awaiting.None?
  {
    hide Possible, Tx.WorldGood, Tx.Advance, WorkerOk, OutputsOk, Rx.Accounted, Run, Moved;
    StartOk(config);
    RunOk(START, config, inputs);
    var s := Run(START, config, inputs);
    AwaitingAfter(s.tx, config, TxInput(s, take).value);
  }

  /** And it ends the request that waits as completed or as failed, just as it says. */
  lemma AnswerDecides(config: Config, inputs: seq<Input>, take: Input, o: Outcome)
    requires Possibles(START, config, inputs) && take.Take? && !take.offline
    requires var s := Run(START, config, inputs);
      Possible(s, take) && s.worker.outputs != [] && s.worker.outputs[0].results != [] && s.tx.engine.awaiting.Some?
    ensures var s := Run(START, config, inputs);
      Finished(s.tx.engine.awaiting.value.request, o) in Stepped(s, config, take).tx.engine.log
      <==> o == if s.worker.outputs[0].results[0] then Completed else Failed
  {
    hide Tx.WorldGood, Tx.Step, WorkerOk, OutputsOk, Rx.Accounted, Run, Moved;
    StartOk(config);
    RunOk(START, config, inputs);
    var s := Run(START, config, inputs);
    TxOutcomes.AcknowledgedAs(s.tx, config, TxInput(s, take).value, o);
  }
}
