/** What each thing that happens to the transmit scheduler makes of the requests: which of them end, how, and in
  * which order. */
module TxOutcomes {
  import opened Basics
  import opened TxModel
  import opened TxLaws

  // ----- one outcome for one attempt -----

  /** In a state a run can reach an attempt has one outcome at most. */
  lemma OneOutcome(e: Engine, c: Config, lastId: nat, out: multiset<Attempt>, r: Attempt, o: Outcome, p: Outcome)
    requires Good(e, c, lastId, out) && Finished(r, o) in e.log && Finished(r, p) in e.log
    ensures o == p
  {
    hide *;
    GoodOnce(e, c, lastId, out, r);
    var i :| 0 <= i < |e.log| && e.log[i] == Finished(r, o);
    var j :| 0 <= j < |e.log| && e.log[j] == Finished(r, p);
    if i < j {
      Reported(e.log, i, j);
    } else if j < i {
      Reported(e.log, j, i);
    }
  }

  /** What is live was not finished yet. */
  lemma LiveUnfinished(e: Engine, c: Config, lastId: nat, out: multiset<Attempt>, r: Attempt, o: Outcome)
    requires Good(e, c, lastId, out) && r in Live(e)
    ensures Finished(r, o) !in e.log
  {
    GoodOnce(e, c, lastId, out, r);
    LiveCounts(e, r);
    hide *;
    if Finished(r, o) in e.log {
      var i :| 0 <= i < |e.log| && e.log[i] == Finished(r, o);
      assert e.log[..|e.log|] == e.log;
      DoneCounts(e.log, i);
      DoneGrows(e.log, i + 1, |e.log|, r);
    }
  }

  lemma LiveCounts(e: Engine, r: Attempt)
    requires r in Live(e)
    ensures multiset(e.pending)[r] + multiset(Slots(e))[r] >= 1
  {
    LiveParts(e);
    assert r in LiveBag(e);
  }

  /** The state a batch is driven on from. */
  function Answered(e: Engine, c: Config, input: Input): Engine
    requires input.Batch?
  {
    Acknowledge(EnqueueAll(ResetGuards(e, input.resets), c, input.requests), input.results)
  }

  lemma BatchStep(e: Engine, c: Config, input: Input)
    requires input.Batch? && !input.offline
    ensures Step(e, c, input) == Drive(Answered(e, c, input), false, input.answers)
  {
    hide Drive, EnqueueAll;
  }

  lemma AcknowledgedLog(e: Engine, c: Config, input: Input)
    requires input.Batch? && !input.offline && input.results != [] && e.awaiting.Some?
    ensures Finished(e.awaiting.value.request, if input.results[0] then Completed else Failed) in Step(e, c, input).log
  {
    BatchStep(e, c, input);
    hide Drive, EnqueueAll, Enqueue, ResetGuards, Step;
    ResetsAwaiting(e, input.resets);
    EnqueueAllAwaiting(ResetGuards(e, input.resets), c, input.requests);
    var x := Answered(e, c, input);
    var more := DriveLog(x, false, input.answers);
    assert x.log[|x.log| - 1] == (x.log + more)[|x.log| - 1];
  }

  /** The first result of a batch ends the request that waits for it: as completed if it says so and as failed if
      not; the results after it count for nothing. */
  lemma AcknowledgedAs(w: World, c: Config, input: Input, o: Outcome)
    requires WorldGood(w, c) && Possible(w, input)
    requires input.Batch? && !input.offline && input.results != [] && w.engine.awaiting.Some?
    ensures Finished(w.engine.awaiting.value.request, o) in Step(w.engine, c, input).log
      <==> (o == Completed && input.results[0]) || (o == Failed && !input.results[0])
    ensures Step(w.engine, c, input) == Step(w.engine, c, input.(results := [input.results[0]]))
  {
    AcknowledgedLog(w.engine, c, input);
    BatchGood(w, c, input);
    LaterResults(w.engine, c, input);
    hide Good, Step;
    var v, r := Advance(w, c, input), w.engine.awaiting.value.request;
    if Finished(r, o) in v.engine.log {
      OneOutcome(v.engine, c, v.lastId, v.out, r, o, if input.results[0] then Completed else Failed);
    }
  }

  lemma LaterResults(e: Engine, c: Config, input: Input)
    requires input.Batch? && !input.offline && input.results != []
    ensures Step(e, c, input) == Step(e, c, input.(results := [input.results[0]]))
  {
    hide Drive, EnqueueAll, ResetGuards;
  }

  /** An acknowledgement of success never opens the breaker: if it is open after the batch and was not before, some
      other request ended badly.  One of failure does, if the request is guarded. */
  lemma AcknowledgedGuard(w: World, c: Config, input: Input)
    requires WorldGood(w, c) && Possible(w, input)
    requires input.Batch? && !input.offline && input.results != [] && w.engine.awaiting.Some?
    ensures var e, f, r := w.engine, Step(w.engine, c, input), w.engine.awaiting.value.request;
      && |e.log| <= |f.log|
      && (!input.results[0] && r.guarded ==> f.halted)
      && (input.results[0] && f.halted && !e.halted ==>
            exists k :: |e.log| <= k < |f.log| && Terminal(f.log[k]) && f.log[k].r != r)
  {
    var e, r, v := w.engine, w.engine.awaiting.value.request, Advance(w, c, input);
    var f := v.engine;
    BatchGood(w, c, input);
    AcknowledgedHalts(e, c, input);
    var more := BatchLog(e, c, input);
    HaltedMeans(e, c, w.lastId, w.out);
    HaltedMeans(f, c, v.lastId, v.out);
    hide *;
    if input.results[0] && f.halted && !e.halted {
      var k := Opened(e.log, more);
      if f.log[k].r == r {
        AcknowledgedAs(w, c, input, f.log[k].outcome);
        TerminalParts(f.log[k]);
      }
    }
  }

  lemma HaltedMeans(e: Engine, c: Config, lastId: nat, out: multiset<Attempt>)
    requires Good(e, c, lastId, out)
    ensures e.halted <==> exists k: nat :: OpenSince(e.log, k)
  {
    hide Conserved, Ordered, Known, EnteredOnce, Tracked, Tripped;
    TrippedMeans(e.log);
  }

  lemma TerminalParts(event: Event)
    requires Terminal(event)
    ensures event.Finished? && event == Finished(event.r, event.outcome) && event.outcome != Completed
  {
  }

  /** A breaker that opened was opened by one of the entries since. */
  lemma Opened(log: seq<Event>, more: seq<Event>) returns (k: nat)
    requires (exists i: nat :: OpenSince(log + more, i)) && !(exists i: nat :: OpenSince(log, i))
    ensures |log| <= k < |log + more| && Terminal((log + more)[k])
  {
    k :| OpenSince(log + more, k);
    if k < |log| {
      OpenBefore(log, more, k);
    }
  }

  lemma OpenBefore(log: seq<Event>, more: seq<Event>, k: nat)
    requires OpenSince(log + more, k) && k < |log|
    ensures OpenSince(log, k)
  {
    assert forall m :: 0 <= m < |log| ==> log[m] == (log + more)[m];
  }

  lemma AcknowledgedHalts(e: Engine, c: Config, input: Input)
    requires input.Batch? && !input.offline && input.results != [] && e.awaiting.Some?
    ensures !input.results[0] && e.awaiting.value.request.guarded ==> Step(e, c, input).halted
  {
    BatchStep(e, c, input);
    hide Drive, EnqueueAll, Enqueue, ResetGuards, Step;
    ResetsAwaiting(e, input.resets);
    EnqueueAllAwaiting(ResetGuards(e, input.resets), c, input.requests);
    DriveHalted(Answered(e, c, input), false, input.answers);
  }

  lemma {:induction false} DriveHalted(e: Engine, offline: bool, answers: seq<Answer>)
    ensures e.halted ==> Drive(e, offline, answers).halted
    decreases |e.pending|
  {
    if !offline && CanDrive(e) {
      DriveHalted(DriveOne(e, First(answers)), offline, Rest(answers));
    }
  }

  /** The guard state in a report: none for a request without the guard, halted exactly when this end opens the
      breaker, retrying for a timeout with attempts left, and active otherwise. */
  lemma GuardReports(r: Attempt, outcome: Outcome)
    ensures ReportedGuard(r, outcome) == None <==> !r.guarded
    ensures ReportedGuard(r, outcome) == Some(Halted) <==> Terminal(Finished(r, outcome))
    ensures ReportedGuard(r, outcome) == Some(Retrying) <==>
      r.guarded && outcome == Timeout && r.attempt < r.maxAttempts
  {
  }

  // ----- the order of a batch -----

  /** The requests submitted, as their log entries say. */
  function Submissions(log: seq<Event>): seq<Attempt> {
    if log == [] then [] else (if log[0].Submitted? then [log[0].r] else []) + Submissions(log[1..])
  }

  function Normals(c: Config, requests: seq<Attempt>): (r: seq<Attempt>)
    ensures |r| == |requests|
  {
    seq(|requests|, i requires 0 <= i < |requests| => Normalized(c, requests[i]))
  }

  predicate Entering(event: Event) {
    event.Submitted? || (event.Finished? && (event.outcome == Dropped || event.outcome == Rejected))
  }

  function Resets(times: nat): (r: seq<Event>)
    ensures |r| == times
  {
    seq(times, i => GuardReset)
  }

  lemma {:induction false} ResetsLog(e: Engine, times: nat)
    ensures ResetGuards(e, times).log == e.log + Resets(times)
    ensures ResetGuards(e, times) == e.(log := e.log + Resets(times), halted := e.halted && times == 0)
    decreases times
  {
    if times > 0 {
      ResetsLog(ResetGuard(e), times - 1);
      assert [GuardReset] + Resets(times - 1) == Resets(times);
    }
  }

  lemma {:induction false} SubmissionsConcat(a: seq<Event>, b: seq<Event>)
    ensures Submissions(a + b) == Submissions(a) + Submissions(b)
  {
    if a == [] {
      assert a + b == b;
    } else {
      assert (a + b)[1..] == a[1..] + b;
      SubmissionsConcat(a[1..], b);
      var first := if a[0].Submitted? then [a[0].r] else [];
      assert first + Submissions(a[1..]) + Submissions(b) == first + (Submissions(a[1..]) + Submissions(b));
    }
  }

  lemma OneSubmission(r: Attempt, more: seq<Event>)
    requires |more| <= 1 && (more != [] ==> more[0].Finished?)
    ensures Submissions([Submitted(r)] + more) == [r]
  {
    var all := [Submitted(r)] + more;
    assert all[0] == Submitted(r) && all[1..] == more;
    if more != [] {
      assert more[1..] == [];
    }
  }

  lemma EnqueueLog(e: Engine, c: Config, request: Attempt) returns (more: seq<Event>)
    ensures Enqueue(e, c, request).log == e.log + more && |more| <= 2
    ensures Submissions(more) == [Normalized(c, request)]
    ensures forall event :: event in more ==> Entering(event)
  {
    EnqueueCases(e, c, request);
    hide Enqueue, Submissions, Normalized, Full;
    var f := Enqueue(e, c, request);
    var first := Submitted(Normalized(c, request));
    more := f.log[|e.log|..];
    OneSubmission(first.r, more[1..]);
    assert more == [first] + more[1..];
  }

  lemma {:induction false} EnqueueAllLog(e: Engine, c: Config, requests: seq<Attempt>) returns (more: seq<Event>)
    ensures EnqueueAll(e, c, requests).log == e.log + more
    ensures Submissions(more) == Normals(c, requests)
    ensures forall event :: event in more ==> Entering(event)
    decreases |requests|
  {
    hide Enqueue, Normalized, Entering;
    if requests == [] {
      more := [];
    } else {
      var first := EnqueueLog(e, c, requests[0]);
      var rest := EnqueueAllLog(Enqueue(e, c, requests[0]), c, requests[1..]);
      more := first + rest;
      SubmissionsConcat(first, rest);
      assert Normals(c, requests) == [Normalized(c, requests[0])] + Normals(c, requests[1..]);
    }
  }

  lemma BatchLog(e: Engine, c: Config, input: Input) returns (more: seq<Event>)
    requires input.Batch? && !input.offline
    ensures Step(e, c, input).log == e.log + more
  {
    var entering, driven := BatchOrder(e, c, input);
    hide Step;
    more := Step(e, c, input).log[|e.log|..];
  }

  /** A batch takes effect in order: first the resets of the breaker, then every request is submitted, then the
      first result ends the request that waits, and only then anything is handed over. */
  lemma BatchOrder(e: Engine, c: Config, input: Input) returns (entering: seq<Event>, driven: seq<Event>)
    requires input.Batch? && !input.offline
    ensures var answer :=
        if input.results == [] || e.awaiting.None? then []
        else [Finished(e.awaiting.value.request, if input.results[0] then Completed else Failed)];
      Step(e, c, input).log == e.log + Resets(input.resets) + entering + answer + driven
    ensures Submissions(entering) == Normals(c, input.requests)
    ensures forall event :: event in entering ==> Entering(event)
    ensures forall event :: event in driven ==> event.Handed? || (event.Finished? && event.outcome == Rejected)
  {
    BatchStep(e, c, input);
    hide Drive, EnqueueAll, Enqueue, ResetGuards, Step, Submissions, Normals, Entering;
    ResetsLog(e, input.resets);
    ResetsAwaiting(e, input.resets);
    var x := ResetGuards(e, input.resets);
    EnqueueAllAwaiting(x, c, input.requests);
    entering := EnqueueAllLog(x, c, input.requests);
    driven := DriveLog(Answered(e, c, input), false, input.answers);
    assert e.log + Resets(input.resets) + entering + [] == e.log + Resets(input.resets) + entering;
  }

  // ----- who goes when the queue is full -----

  /** A request without a timeout of its own gets the configured one for its kind; attempts are at least one. */
  lemma Defaults(c: Config, request: Attempt)
    ensures var r := Normalized(c, request);
      && r.id == request.id && r.kind == request.kind && r.guarded == request.guarded
      && (request.timeoutMs > 0 ==> r.timeoutMs == request.timeoutMs)
      && (request.timeoutMs == 0 && request.kind == Request ==> r.timeoutMs == c.requestTimeoutMs)
      && (request.timeoutMs == 0 && request.kind == Send ==> r.timeoutMs == c.sendTimeoutMs)
      && r.attempt >= 1 && r.maxAttempts >= 1
      && (request.attempt >= 1 ==> r.attempt == request.attempt)
      && (request.maxAttempts >= 1 ==> r.maxAttempts == request.maxAttempts)
  {
  }

  /** The engine has no room for one more request. */
  predicate Full(e: Engine, c: Config) {
    |e.pending| + |Slots(e)| >= c.maxPending
  }

  /** The request that goes when one more comes to a full queue. */
  function Leaver(e: Engine, c: Config, r: Attempt): Attempt {
    if c.policy == DropOldestWaiting && e.pending != [] then e.pending[0] else r
  }

  /** A new request joins the end of the queue if there is room and the breaker lets it; otherwise just one request
      goes.  The breaker and a queue that rejects turn the new one away, one that drops the newest drops it, and one
      that drops the oldest drops the waiting request of the smallest id, if any waits. */
  lemma Admitted(w: World, c: Config, request: Attempt)
    requires WorldGood(w, c) && request.id > w.lastId
    ensures var e, f, r := w.engine, Enqueue(w.engine, c, request), Normalized(c, request);
      var barred := r.guarded && e.halted;
      && Slots(f) == Slots(e)
      && (!barred && !Full(e, c) ==> f.pending == e.pending + [r] && f.log == e.log + [Submitted(r)])
      && (barred ==> f.pending == e.pending && f.log == e.log + [Submitted(r), Finished(r, Rejected)])
      && (!barred && Full(e, c) ==>
            var x := Leaver(e, c, r);
            && multiset(f.pending) + multiset{x} == multiset(e.pending) + multiset{r}
            && f.log == e.log + [Submitted(r), Finished(x, if c.policy == DropNewest || x != r then Dropped else Rejected)]
            && (c.policy != DropOldestWaiting || e.pending == [] ==> x == r)
            && (c.policy == DropOldestWaiting && e.pending != [] ==>
                  forall y :: y in e.pending || y == r ==> x.id <= y.id))
  {
    var e, r := w.engine, Normalized(c, request);
    if e.pending != [] {
      Oldest(e, w.lastId, r);
      FrontForLast(e.pending, r);
    }
    EnqueueCases(e, c, request);
    hide WorldGood, Core, Normalized, Live, GuardFailure, Enqueue, Slots, Full;
  }

  lemma EnqueueCases(e: Engine, c: Config, request: Attempt)
    ensures var f, r := Enqueue(e, c, request), Normalized(c, request);
      && Slots(f) == Slots(e)
      && if !(r.guarded && e.halted) && !Full(e, c) then f.pending == e.pending + [r] && f.log == e.log + [Submitted(r)]
         else if !(r.guarded && e.halted) && c.policy == DropOldestWaiting && e.pending != [] then
           f.pending == e.pending[1..] + [r] && f.log == e.log + [Submitted(r), Finished(e.pending[0], Dropped)]
         else
           && f.pending == e.pending
           && f.log == e.log
             + [Submitted(r), Finished(r, if !(r.guarded && e.halted) && c.policy == DropNewest then Dropped else Rejected)]
  {
    hide Normalized, GuardFailure;
    assert |Slots(e)| == Busy(e);
  }

  lemma FrontForLast(pending: seq<Attempt>, r: Attempt)
    requires pending != []
    ensures multiset(pending[1..] + [r]) + multiset{pending[0]} == multiset(pending) + multiset{r}
  {
    assert pending == [pending[0]] + pending[1..];
  }

  lemma Oldest(e: Engine, lastId: nat, r: Attempt)
    requires Core(e, lastId) && r.id > lastId && e.pending != []
    ensures forall y :: y in e.pending || y == r ==> e.pending[0].id <= y.id
    ensures e.pending[0] != r
  {
    BelowFresh(e, lastId);
    hide Conserved, GuardKept, Known, EnteredOnce, HandOffs;
  }

  // ----- writes, timeouts and cancellation -----

  /** The end of a write: a request that was sent waits from then on until its own deadline, and anything else ends
      with the outcome reported. */
  lemma ReportedAs(w: World, c: Config, input: Input, o: Outcome)
    requires WorldGood(w, c) && Possible(w, input) && input.Report? && w.engine.activeWrite == Some(input.r)
    ensures var e, f, r := w.engine, Step(w.engine, c, input), input.r;
      if input.outcome == Sent && r.kind == Request then
        && f.awaiting == Some(Waiting(r, input.nowMs + r.timeoutMs)) && f.activeWrite.None?
        && f.pending == e.pending && f.log == e.log + [Acknowledging(r)] && Finished(r, o) !in f.log
      else
        f.awaiting.None? && (Finished(r, o) in f.log <==> o == input.outcome)
  {
    var e, r, v := w.engine, input.r, Advance(w, c, input);
    ReportGood(w, c, input);
    if input.outcome == Sent && r.kind == Request {
      ReportSent(e, c, input);
      assert Slots(v.engine) == [r];
      LiveUnfinished(v.engine, c, v.lastId, v.out, r, o);
    } else {
      ReportFinal(e, c, input);
      var x := Finish(e.(activeWrite := None), r, input.outcome);
      var more := DriveLog(x, input.offline, input.answers);
      DriveAwaiting(x, input.offline, input.answers);
      hide Step, Drive, Good, Possible;
      LoggedStays(e.log, Finished(r, input.outcome), more);
      if Finished(r, o) in v.engine.log {
        OneOutcome(v.engine, c, v.lastId, v.out, r, o, input.outcome);
      }
    }
  }

  lemma LoggedStays(log: seq<Event>, event: Event, more: seq<Event>)
    ensures event in log + [event] + more
  {
    assert (log + [event] + more)[|log|] == event;
  }

  /** A check that ends the wait ends it as timed out and in no other way, and the next attempt, if there is one, is
      in front of whatever else is waiting when the queue is driven on. */
  lemma TimedOutAs(w: World, c: Config, input: Input, o: Outcome) returns (driven: seq<Event>)
    requires WorldGood(w, c) && input.Check? && w.engine.awaiting.Some?
    requires EndsWait(input, w.engine.awaiting.value.deadlineMs)
    ensures Finished(w.engine.awaiting.value.request, o) in Step(w.engine, c, input).log <==> o == Timeout
    ensures var e, r := w.engine, w.engine.awaiting.value.request;
      var again := r.guarded && r.attempt < r.maxAttempts;
      && Step(e, c, input).log
         == e.log + [Finished(r, Timeout)] + (if again then [Retried(NextAttempt(r))] else []) + driven
      && (again && driven != [] ==> !driven[0].GuardReset? && driven[0].r == NextAttempt(r))
    ensures forall event :: event in driven ==> event.Handed? || (event.Finished? && event.outcome == Rejected)
  {
    var v := Advance(w, c, input);
    CheckGood(w, c, input);
    driven := TimedOutLog(w.engine, c, input);
    hide *;
    var r := w.engine.awaiting.value.request;
    TimeoutLogged(w.engine, c, input);
    if Finished(r, o) in v.engine.log {
      OneOutcome(v.engine, c, v.lastId, v.out, r, o, Timeout);
    }
  }

  lemma TimeoutLogged(e: Engine, c: Config, input: Input)
    requires input.Check? && e.awaiting.Some? && EndsWait(input, e.awaiting.value.deadlineMs)
    ensures Finished(e.awaiting.value.request, Timeout) in Step(e, c, input).log
  {
    var driven := TimedOutLog(e, c, input);
    hide Step;
    var r := e.awaiting.value.request;
    var retry := if r.guarded && r.attempt < r.maxAttempts then [Retried(NextAttempt(r))] else [];
    LoggedStays(e.log, Finished(r, Timeout), retry + driven);
    assert Step(e, c, input).log == e.log + [Finished(r, Timeout)] + (retry + driven);
  }

  lemma TimedOutLog(e: Engine, c: Config, input: Input) returns (driven: seq<Event>)
    requires input.Check? && e.awaiting.Some? && EndsWait(input, e.awaiting.value.deadlineMs)
    ensures var r := e.awaiting.value.request;
      var again := r.guarded && r.attempt < r.maxAttempts;
      && Step(e, c, input).log
         == e.log + [Finished(r, Timeout)] + (if again then [Retried(NextAttempt(r))] else []) + driven
      && (again && driven != [] ==> !driven[0].GuardReset? && driven[0].r == NextAttempt(r))
    ensures forall event :: event in driven ==> event.Handed? || (event.Finished? && event.outcome == Rejected)
  {
    CheckCases(e, c, input);
    driven := DriveFront(TimedOut(e), input.offline, input.answers);
    hide Step, Drive;
    var r := e.awaiting.value.request;
    assert e.log + [Finished(r, Timeout)] + [] == e.log + [Finished(r, Timeout)];
  }

  lemma DriveFront(e: Engine, offline: bool, answers: seq<Answer>) returns (more: seq<Event>)
    ensures Drive(e, offline, answers).log == e.log + more
    ensures forall event :: event in more ==> event.Handed? || (event.Finished? && event.outcome == Rejected)
    ensures more != [] ==> e.pending != [] && !more[0].GuardReset? && more[0].r == e.pending[0]
  {
    if offline || !CanDrive(e) {
      more := [];
    } else {
      var x := DriveOne(e, First(answers));
      var later := DriveLog(x, offline, Rest(answers));
      more := x.log[|e.log|..] + later;
      assert x.log == e.log + x.log[|e.log|..];
    }
  }

  function Cancelled(requests: seq<Attempt>): (r: seq<Event>)
    ensures |r| == |requests|
  {
    seq(|requests|, i requires 0 <= i < |requests| => Finished(requests[i], Canceled))
  }

  lemma {:induction false} PendingCancelled(e: Engine)
    ensures CancelPending(e).log == e.log + Cancelled(e.pending) && CancelPending(e).halted == e.halted
    decreases |e.pending|
  {
    if e.pending != [] {
      PendingCancelled(Finish(e.(pending := e.pending[1..]), e.pending[0], Canceled));
      assert Cancelled(e.pending) == [Finished(e.pending[0], Canceled)] + Cancelled(e.pending[1..]);
    }
  }

  /** Cancelling ends the active write, the request that waits for its acknowledgement and then the queue from its
      front, all as cancelled, and never opens the breaker. */
  lemma AllCancelled(e: Engine)
    ensures CancelAll(e).log == e.log + Cancelled(Slots(e) + e.pending) && CancelAll(e).halted == e.halted
  {
    var slots := Slots(e);
    var x := SlotsCancelled(e);
    hide Slots, Cancelled, CancelPending;
    PendingCancelled(x);
    CancelledConcat(slots, e.pending);
    assert e.log + Cancelled(slots) + Cancelled(e.pending) == e.log + (Cancelled(slots) + Cancelled(e.pending));
  }

  lemma CancelledConcat(a: seq<Attempt>, b: seq<Attempt>)
    ensures Cancelled(a + b) == Cancelled(a) + Cancelled(b)
  {
  }

  lemma SlotsCancelled(e: Engine) returns (x: Engine)
    ensures x.log == e.log + Cancelled(Slots(e)) && x.pending == e.pending && x.halted == e.halted
    ensures CancelAll(e) == CancelPending(x)
  {
    hide CancelPending;
    var e1 := if e.activeWrite.Some? then Finish(e, e.activeWrite.value, Canceled).(activeWrite := None) else e;
    x := if e1.awaiting.Some? then Finish(e1, e1.awaiting.value.request, Canceled).(awaiting := None) else e1;
  }

  // ----- what the scheduler loop hands over -----

  /** The transport's answer to the i-th request it is offered. */
  function AnswerTo(answers: seq<Answer>, i: nat): Answer {
    if i < |answers| then answers[i] else Closed
  }

  /** The breaker bars the i-th waiting request: it is open, or opens by the rejection of a guarded one before. */
  predicate Barred(e: Engine, i: nat)
    requires i < |e.pending|
  {
    e.pending[i].guarded && (e.halted || exists j :: 0 <= j < i && e.pending[j].guarded)
  }

  predicate Goes(e: Engine, answers: seq<Answer>, i: nat)
    requires i < |e.pending|
  {
    AnswerTo(answers, i) == Takes && !Barred(e, i)
  }

  function Rejections(requests: seq<Attempt>): (r: seq<Event>)
    ensures |r| == |requests|
  {
    seq(|requests|, i requires 0 <= i < |requests| => Finished(requests[i], Rejected))
  }

  /** Driving the queue hands over the first waiting request that the transport takes and the breaker does not bar,
      and rejects those before it; if there is none it rejects them all. */
  lemma {:induction false} Driven(e: Engine, answers: seq<Answer>) returns (k: nat)
    requires CanDrive(e)
    ensures k <= |e.pending| && forall i :: 0 <= i < k ==> !Goes(e, answers, i)
    ensures k < |e.pending| ==> Goes(e, answers, k)
    ensures var f := Drive(e, false, answers);
      && f.log == e.log + Rejections(e.pending[..k]) + (if k < |e.pending| then [Handed(e.pending[k])] else [])
      && f.activeWrite == (if k < |e.pending| then Some(e.pending[k]) else None)
      && f.pending == (if k < |e.pending| then e.pending[k + 1..] else [])
    decreases |e.pending|
  {
    hide Rejections, Goes, Drive, DriveOne, GuardFailure, First, Rest;
    FirstGoes(e, answers);
    NoRejections(e.pending);
    var next := DriveOne(e, First(answers));
    DriveUnfolds(e, answers);
    if Goes(e, answers, 0) {
      k := 0;
      DriveStops(next, Rest(answers));
      assert e.log + [] == e.log;
    } else {
      var x := next;
      var later := 0;
      if CanDrive(x) {
        later := Driven(x, Rest(answers));
      } else {
        DriveStops(x, Rest(answers));
        NoRejections(x.pending);
      }
      k := later + 1;
      EarlierRejected(e, x, answers, later);
      FirstRejection(e.pending[0], x.pending[..later]);
      FrontApart(e.pending, later);
      LogJoins(e.log, Finished(e.pending[0], Rejected), Rejections(x.pending[..later]),
               if later < |x.pending| then [Handed(x.pending[later])] else []);
    }
  }

  lemma FrontApart(pending: seq<Attempt>, later: nat)
    requires later < |pending|
    ensures pending[..later + 1] == [pending[0]] + pending[1..][..later]
    ensures later + 1 < |pending| ==>
      pending[1..][later] == pending[later + 1] && pending[1..][later + 1..] == pending[later + 2..]
  {
  }

  lemma LogJoins(log: seq<Event>, event: Event, rejections: seq<Event>, last: seq<Event>)
    ensures log + [event] + rejections + last == log + ([event] + rejections) + last
  {
  }

  lemma EarlierRejected(e: Engine, x: Engine, answers: seq<Answer>, later: nat)
    requires e.pending != [] && x.pending == e.pending[1..] && x.halted == (e.halted || e.pending[0].guarded)
    requires !Goes(e, answers, 0) && later <= |x.pending|
    requires forall i :: 0 <= i < later ==> !Goes(x, Rest(answers), i)
    ensures forall i :: 0 <= i < later + 1 ==> !Goes(e, answers, i)
    ensures later < |x.pending| ==> Goes(e, answers, later + 1) == Goes(x, Rest(answers), later)
  {
    hide Goes;
    forall i | 0 <= i < later + 1
      ensures !Goes(e, answers, i)
    {
      if i > 0 {
        LaterGoes(e, x, answers, i - 1);
      }
    }
    if later < |x.pending| {
      LaterGoes(e, x, answers, later);
    }
  }

  lemma LaterGoes(e: Engine, x: Engine, answers: seq<Answer>, i: nat)
    requires i + 1 < |e.pending| && x.pending == e.pending[1..] && x.halted == (e.halted || e.pending[0].guarded)
    ensures Goes(x, Rest(answers), i) == Goes(e, answers, i + 1)
  {
    assert forall j :: 0 <= j < i ==> x.pending[j] == e.pending[j + 1];
    if j :| 0 <= j < i + 1 && e.pending[j].guarded {
      assert j == 0 || x.pending[j - 1].guarded;
    }
  }

  lemma DriveUnfolds(e: Engine, answers: seq<Answer>)
    requires CanDrive(e)
    ensures Drive(e, false, answers) == Drive(DriveOne(e, First(answers)), false, Rest(answers))
  {
  }

  lemma DriveStops(e: Engine, answers: seq<Answer>)
    requires !CanDrive(e)
    ensures Drive(e, false, answers) == e
  {
  }

  lemma FirstGoes(e: Engine, answers: seq<Answer>)
    requires CanDrive(e)
    ensures Goes(e, answers, 0) ==>
      DriveOne(e, First(answers))
      == e.(pending := e.pending[1..], activeWrite := Some(e.pending[0]), log := e.log + [Handed(e.pending[0])])
    ensures !Goes(e, answers, 0) ==>
      DriveOne(e, First(answers)) == e.(pending := e.pending[1..], halted := e.halted || e.pending[0].guarded,
                                        log := e.log + [Finished(e.pending[0], Rejected)])
  {
  }

  lemma NoRejections(pending: seq<Attempt>)
    ensures Rejections(pending[..0]) == [] == Rejections([])
  {
  }

  lemma FirstRejection(r: Attempt, requests: seq<Attempt>)
    ensures Rejections([r] + requests) == [Finished(r, Rejected)] + Rejections(requests)
  {
  }
}
