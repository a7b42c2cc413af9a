/**
 The transmit scheduler as a state machine: a waiting queue, at most one write handed to the
 transport, at most one half-duplex request awaiting its acknowledgement, and the circuit
 breaker of guarded requests. The log records what the request trace and the script see.
 */
module TxModel {
  import opened Basics

  datatype Kind = Send | Request

  datatype Outcome = Sent | Completed | Failed | Timeout | Rejected | Dropped | Canceled

  /** `RejectNew` stands for every policy name other than the two drop policies. */
  datatype Policy = RejectNew | DropOldestWaiting | DropNewest

  datatype Config = Config(maxPending: nat, policy: Policy, requestTimeoutMs: nat, sendTimeoutMs: nat)

  /** One attempt of a request. */
  datatype Attempt = Attempt(id: nat, kind: Kind, guarded: bool, attempt: nat, maxAttempts: nat, timeoutMs: nat)

  datatype Waiting = Waiting(request: Attempt, deadlineMs: nat)

  datatype Event =
    | Submitted(r: Attempt)
    | Retried(r: Attempt)
    | Handed(r: Attempt)
    | Acknowledging(r: Attempt)
    | Finished(r: Attempt, outcome: Outcome)
    | GuardReset

  datatype Engine = Engine(
    pending: seq<Attempt>, activeWrite: Option<Attempt>, awaiting: Option<Waiting>, halted: bool, log: seq<Event>)

  const IDLE: Engine := Engine([], None, None, false, [])

  /** How the transport answers when a request is offered to it. */
  datatype Answer = Closed | Refuses | Takes

  /** Where received bytes may still be: events and chunks not yet drained, bytes queued for or inside the
      script worker, and outputs the worker has published. */
  datatype Pipeline = Pipeline(events: nat, chunks: nat, executing: nat, queued: nat, outputs: nat)

  // ----- the guard -----

  predicate GuardFailure(r: Attempt, outcome: Outcome) {
    r.guarded && match outcome
      case Failed => true
      case Rejected => true
      case Dropped => true
      case Timeout => r.attempt >= r.maxAttempts
      case _ => false
  }

  datatype GuardState = Retrying | Halted | Active

  /** The guard state reported to the script together with the outcome. */
  function ReportedGuard(r: Attempt, outcome: Outcome): Option<GuardState> {
    if !r.guarded then None
    else if outcome == Timeout && r.attempt < r.maxAttempts then Some(Retrying)
    else if GuardFailure(r, outcome) then Some(Halted)
    else Some(Active)
  }

  // ----- single transitions -----

  function Finish(e: Engine, r: Attempt, outcome: Outcome): Engine {
    e.(halted := e.halted || GuardFailure(r, outcome), log := e.log + [Finished(r, outcome)])
  }

  function Busy(e: Engine): nat {
    (if e.activeWrite.Some? then 1 else 0) + (if e.awaiting.Some? then 1 else 0)
  }

  function AtLeastOne(n: nat): nat {
    if n < 1 then 1 else n
  }

  function Normalized(c: Config, r: Attempt): Attempt {
    r.(timeoutMs := if r.timeoutMs > 0 then r.timeoutMs
                    else if r.kind == Request then c.requestTimeoutMs else c.sendTimeoutMs,
       maxAttempts := AtLeastOne(r.maxAttempts),
       attempt := AtLeastOne(r.attempt))
  }

  function Enqueue(e: Engine, c: Config, request: Attempt): Engine {
    var r := Normalized(c, request);
    var seen := e.(log := e.log + [Submitted(r)]);
    if r.guarded && e.halted then Finish(seen, r, Rejected)
    else if |e.pending| + Busy(e) < c.maxPending then seen.(pending := e.pending + [r])
    else if c.policy == DropOldestWaiting && e.pending != [] then
      Finish(seen.(pending := e.pending[1..]), e.pending[0], Dropped).(pending := e.pending[1..] + [r])
    else if c.policy == DropNewest then Finish(seen, r, Dropped)
    else Finish(seen, r, Rejected)
  }

  predicate CanDrive(e: Engine) {
    e.activeWrite.None? && e.awaiting.None? && e.pending != []
  }

  function DriveOne(e: Engine, answer: Answer): Engine
    requires CanDrive(e)
  {
    var r := e.pending[0];
    var popped := e.(pending := e.pending[1..]);
    if answer == Closed then Finish(popped, r, Rejected)
    else if r.guarded && e.halted then Finish(popped, r, Rejected)
    else if answer == Refuses then Finish(popped, r, Rejected)
    else popped.(activeWrite := Some(r), log := e.log + [Handed(r)])
  }

  /** The scheduler loop; `answers` are the transport's replies in the order it is asked, `offline` the
      import and replay modes in which nothing is sent. */
  function Drive(e: Engine, offline: bool, answers: seq<Answer>): Engine
    decreases |e.pending|
  {
    if offline || !CanDrive(e) then e
    else Drive(DriveOne(e, First(answers)), offline, Rest(answers))
  }

  function First(answers: seq<Answer>): Answer {
    if answers == [] then Closed else answers[0]
  }

  function Rest(answers: seq<Answer>): seq<Answer> {
    if answers == [] then [] else answers[1..]
  }

  // ----- what happens to the scheduler -----

  /** The transport reports the end of a write. */
  function WriteEnded(e: Engine, id: nat, outcome: Outcome, nowMs: nat, offline: bool, answers: seq<Answer>): Engine {
    if e.activeWrite.None? || e.activeWrite.value.id != id then e else
    var r := e.activeWrite.value;
    if outcome == Sent && r.kind == Request then
      e.(activeWrite := None, awaiting := Some(Waiting(r, nowMs + r.timeoutMs)), log := e.log + [Acknowledging(r)])
    else Drive(Finish(e.(activeWrite := None), r, outcome), offline, answers)
  }

  function ResetGuard(e: Engine): Engine {
    e.(halted := false, log := e.log + [GuardReset])
  }

  function ResetGuards(e: Engine, times: nat): Engine
    decreases times
  {
    if times == 0 then e else ResetGuards(ResetGuard(e), times - 1)
  }

  function EnqueueAll(e: Engine, c: Config, requests: seq<Attempt>): Engine
    decreases |requests|
  {
    if requests == [] then e else EnqueueAll(Enqueue(e, c, requests[0]), c, requests[1..])
  }

  /** Only the first acknowledgement of a batch counts, and only if a request awaits one. */
  function Acknowledge(e: Engine, results: seq<bool>): Engine {
    if results == [] || e.awaiting.None? then e
    else Finish(e.(awaiting := None), e.awaiting.value.request, if results[0] then Completed else Failed)
  }

  /** One batch of script outputs; in offline mode its transmit intents are discarded. */
  function Outputs(e: Engine, c: Config, offline: bool, resets: nat, requests: seq<Attempt>, results: seq<bool>,
                   answers: seq<Answer>): Engine {
    if offline then e
    else Drive(Acknowledge(EnqueueAll(ResetGuards(e, resets), c, requests), results), offline, answers)
  }

  predicate Drained(p: Pipeline) {
    p.events == 0 && p.chunks == 0 && p.executing == 0 && p.queued == 0 && p.outputs == 0
  }

  function NextAttempt(r: Attempt): Attempt {
    r.(attempt := r.attempt + 1)
  }

  /** The periodic timeout check. */
  function CheckTimeout(e: Engine, nowMs: nat, p: Pipeline, offline: bool, answers: seq<Answer>): Engine {
    if e.awaiting.None? || nowMs < e.awaiting.value.deadlineMs || !Drained(p) then e else
    var r := e.awaiting.value.request;
    var timedOut := Finish(e.(awaiting := None), r, Timeout);
    var requeued :=
      if r.guarded && r.attempt < r.maxAttempts
      then timedOut.(pending := [NextAttempt(r)] + timedOut.pending, log := timedOut.log + [Retried(NextAttempt(r))])
      else timedOut;
    Drive(requeued, offline, answers)
  }

  function CancelPending(e: Engine): Engine
    decreases |e.pending|
  {
    if e.pending == [] then e
    else CancelPending(Finish(e.(pending := e.pending[1..]), e.pending[0], Canceled))
  }

  function CancelAll(e: Engine): Engine {
    var e1 := if e.activeWrite.Some? then Finish(e, e.activeWrite.value, Canceled).(activeWrite := None) else e;
    var e2 := if e1.awaiting.Some? then Finish(e1, e1.awaiting.value.request, Canceled).(awaiting := None) else e1;
    CancelPending(e2)
  }
}
