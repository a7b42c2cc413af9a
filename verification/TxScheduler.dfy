/**
 The scheduler object: each method updates the queue and the slots in place, is proved against the model,
 and keeps what `TxLaws` shows every run to keep.
 */
module TxScheduler {
  import opened Basics
  import opened TxModel
  import L = TxLaws

  class Scheduler {
    var pendingTxQueue: seq<Attempt>
    var activeWrite: Option<Attempt>
    var activeHalfDuplexRequest: Option<Waiting>
    var txRequestGuardHalted: bool
    var log: seq<Event>
    const config: Config
    /** The hand-offs the transport has not reported on, and the highest request id seen. */
    ghost var out: multiset<Attempt>
    ghost var lastId: nat

    /** The state is one in which everything a run keeps holds. */
    ghost predicate Valid()
      reads this
    {
      L.Good(View(), config, lastId, out)
    }

    ghost function State(): L.World
      reads this
    {
      L.World(View(), out, lastId)
    }

    function View(): Engine
      reads this
    {
      Engine(pendingTxQueue, activeWrite, activeHalfDuplexRequest, txRequestGuardHalted, log)
    }

    constructor (config: Config)
      ensures Valid() && View() == IDLE && this.config == config
    {
      pendingTxQueue, activeWrite, activeHalfDuplexRequest := [], None, None;
      txRequestGuardHalted, log := false, [];
      this.config := config;
      out, lastId := multiset{}, 0;
      new;
      L.StartGood(config);
    }

    /** Whatever calls were made: every attempt that entered was finished once or is in exactly one place, the
        queue is within its bound, the breaker is what the log says, and hand-offs follow the ids. */
    lemma KeptByEveryCall(r: Attempt, i: nat, j: nat)
      requires Valid()
      ensures L.Entered(log)[r] == L.Done(log)[r] + multiset(pendingTxQueue)[r] + multiset(L.Slots(View()))[r] <= 1
      ensures |pendingTxQueue| + Busy(View()) <= config.maxPending && !(activeWrite.Some? && activeHalfDuplexRequest.Some?)
      ensures txRequestGuardHalted <==> exists k: nat :: L.OpenSince(log, k)
      ensures i < j < |L.HandOffs(log)| ==> L.HandedInOrder(L.HandOffs(log)[i], L.HandOffs(log)[j], j - i)
    {
      L.GoodOnce(View(), config, lastId, out, r);
      L.TrippedMeans(log);
      if i < j < |L.HandOffs(log)| {
        L.GoodHandOffs(View(), config, lastId, out, i, j);
      }
    }

    method FinishTxRequest(request: Attempt, outcome: Outcome)
      modifies this
      ensures out == old(out) && lastId == old(lastId)
      ensures View() == Finish(old(View()), request, outcome)
    {
      if GuardFailure(request, outcome) {
        txRequestGuardHalted := true;
      }
      log := log + [Finished(request, outcome)];
    }

    /** The script host numbers its requests upwards and starts each at its first attempt. */
    method EnqueueTxRequest(submitted: Attempt)
      requires Valid() && submitted.id > lastId && submitted.attempt <= 1
      modifies this
      ensures Valid() && View() == Enqueue(old(View()), config, submitted)
      ensures out == old(out) && lastId == submitted.id
    {
      hide L.Good;
      L.EnqueueGood(View(), config, lastId, out, submitted);
      lastId := submitted.id;
      var request := Normalized(config, submitted);
      log := log + [Submitted(request)];
      if request.guarded && txRequestGuardHalted {
        FinishTxRequest(request, Rejected);
        return;
      }
      var activeCount := |pendingTxQueue| + (if activeWrite.Some? then 1 else 0)
                         + (if activeHalfDuplexRequest.Some? then 1 else 0);
      if activeCount < config.maxPending {
        pendingTxQueue := pendingTxQueue + [request];
        return;
      }
      if config.policy == DropOldestWaiting && pendingTxQueue != [] {
        var dropped := pendingTxQueue[0];
        pendingTxQueue := pendingTxQueue[1..];
        FinishTxRequest(dropped, Dropped);
        pendingTxQueue := pendingTxQueue + [request];
        return;
      }
      if config.policy == DropNewest {
        FinishTxRequest(request, Dropped);
        return;
      }
      FinishTxRequest(request, Rejected);
    }

    /** The scheduler loop. It ends: every round takes one request off the queue. */
    method DriveTxScheduler(offline: bool, transportAnswers: seq<Answer>)
      requires Valid()
      modifies this
      ensures Valid() && View() == Drive(old(View()), offline, transportAnswers)
      ensures out == old(out) + multiset(L.Handing(old(View()), View())) && lastId == old(lastId)
    {
      hide L.Good, L.HandOffs;
      L.DriveGood(View(), config, lastId, out, offline, transportAnswers);
      ghost var before := View();
      if offline {
        return;
      }
      var answers := transportAnswers;
      while activeWrite.None? && activeHalfDuplexRequest.None? && pendingTxQueue != []
        invariant Drive(View(), offline, answers) == Drive(old(View()), offline, transportAnswers)
        invariant out == old(out) && lastId == old(lastId)
        decreases |pendingTxQueue|
      {
        var answer := First(answers);
        answers := Rest(answers);
        var request := pendingTxQueue[0];
        pendingTxQueue := pendingTxQueue[1..];
        if answer == Closed {
          FinishTxRequest(request, Rejected);
          continue;
        }
        if request.guarded && txRequestGuardHalted {
          FinishTxRequest(request, Rejected);
          continue;
        }
        if answer == Refuses {
          FinishTxRequest(request, Rejected);
          continue;
        }
        activeWrite := Some(request);
        log := log + [Handed(request)];
      }
      out := out + multiset(L.Handing(before, View()));
    }

    /** Only a report on the active write counts. */
    method ProcessTransportTxEvent(requestId: nat, outcome: Outcome, finishedAtMs: nat, offline: bool, answers: seq<Answer>)
      requires Valid()
      modifies this
      ensures Valid() && View() == WriteEnded(old(View()), requestId, outcome, finishedAtMs, offline, answers)
      ensures var w := old(State());
        if w.engine.activeWrite.Some? && w.engine.activeWrite.value.id == requestId
        then State() == L.Advance(w, config, L.Report(w.engine.activeWrite.value, outcome, finishedAtMs, offline, answers))
        else State() == w
    {
      hide L.Good, L.HandOffs, L.NewHandOffs, Drive;
      if activeWrite.None? || activeWrite.value.id != requestId {
        return;
      }
      var request := activeWrite.value;
      ghost var before := View();
      activeWrite := None;
      if outcome == Sent && request.kind == Request {
        L.AwaitGood(before, config, lastId, out, finishedAtMs + request.timeoutMs);
        activeHalfDuplexRequest := Some(Waiting(request, finishedAtMs + request.timeoutMs));
        log := log + [Acknowledging(request)];
        out := out - multiset{request};
        L.QuietIsNew(before, View(), out);
        return;
      }
      L.WriteOutGood(before, config, lastId, out, outcome);
      FinishTxRequest(request, outcome);
      out := out - multiset{request};
      L.DrivenIsNew(before, View(), config, lastId, out, offline, answers);
      DriveTxScheduler(offline, answers);
    }

    method ApplyScriptTxOutputs(offline: bool, resets: nat, requests: seq<Attempt>, results: seq<bool>, answers: seq<Answer>)
      requires Valid() && L.FreshBatch(requests, lastId)
      modifies this
      ensures Valid() && View() == Outputs(old(View()), config, offline, resets, requests, results, answers)
      ensures State() == L.Advance(old(State()), config, L.Batch(offline, resets, requests, results, answers))
    {
      hide L.Good, L.HandOffs, L.NewHandOffs, Drive, Enqueue;
      ghost var before, firstId := View(), lastId;
      if offline {
        L.LaterIdGood(before, config, lastId, out, L.LastId(requests, lastId), requests);
        lastId := L.LastId(requests, lastId);
        L.QuietIsNew(before, before, out);
        return;
      }
      L.ResetsGood(before, config, lastId, out, resets);
      var left := resets;
      while left > 0
        invariant ResetGuards(View(), left) == ResetGuards(before, resets)
        invariant out == old(out) && lastId == firstId
      {
        txRequestGuardHalted := false;
        log := log + [GuardReset];
        left := left - 1;
      }
      ghost var afterResets := View();
      L.EnqueueAllGood(afterResets, config, lastId, out, requests);
      var i := 0;
      while i < |requests|
        invariant 0 <= i <= |requests|
        invariant EnqueueAll(View(), config, requests[i..]) == EnqueueAll(afterResets, config, requests)
        invariant Valid() && out == old(out) && lastId == L.LastId(requests[..i], firstId)
      {
        assert requests[i..][0] == requests[i] && requests[i..][1..] == requests[i + 1..];
        EnqueueTxRequest(requests[i]);
        i := i + 1;
      }
      assert requests[..|requests|] == requests;
      ghost var afterRequests := View();
      L.AcknowledgeGood(afterRequests, config, lastId, out, results);
      var completionConsumed := false;
      i := 0;
      while i < |results|
        invariant 0 <= i <= |results|
        invariant out == old(out) && lastId == L.LastId(requests, firstId)
        invariant !completionConsumed ==> View() == afterRequests && (i > 0 ==> activeHalfDuplexRequest.None?)
        invariant completionConsumed ==> View() == Acknowledge(afterRequests, results)
      {
        if !completionConsumed && activeHalfDuplexRequest.Some? {
          var request := activeHalfDuplexRequest.value.request;
          activeHalfDuplexRequest := None;
          FinishTxRequest(request, if results[i] then Completed else Failed);
          completionConsumed := true;
        }
        i := i + 1;
      }
      L.DrivenIsNew(before, View(), config, lastId, out, offline, answers);
      DriveTxScheduler(offline, answers);
    }

    method ProcessRequestTimeouts(nowMs: nat, pipeline: Pipeline, offline: bool, answers: seq<Answer>)
      requires Valid()
      modifies this
      ensures Valid() && View() == CheckTimeout(old(View()), nowMs, pipeline, offline, answers)
      ensures State() == L.Advance(old(State()), config, L.Check(nowMs, pipeline, offline, answers))
    {
      hide L.Good, L.HandOffs, L.NewHandOffs, Drive;
      ghost var before := View();
      L.QuietIsNew(before, before, out);
      if activeHalfDuplexRequest.None? || nowMs < activeHalfDuplexRequest.value.deadlineMs {
        return;
      }
      if pipeline.events > 0 || pipeline.chunks > 0 {
        return;
      }
      if pipeline.executing > 0 || pipeline.queued > 0 || pipeline.outputs > 0 {
        return;
      }
      var request := activeHalfDuplexRequest.value.request;
      activeHalfDuplexRequest := None;
      FinishTxRequest(request, Timeout);
      if request.guarded && request.attempt < request.maxAttempts {
        L.RetryGood(before, config, lastId, out);
        var next := request.(attempt := request.attempt + 1);
        pendingTxQueue := [next] + pendingTxQueue;
        log := log + [Retried(next)];
      } else {
        L.AwaitingOutGood(before, config, lastId, out, Timeout);
      }
      L.DrivenIsNew(before, View(), config, lastId, out, offline, answers);
      DriveTxScheduler(offline, answers);
    }

    method CancelPendingTxRequests()
      requires Valid()
      modifies this
      ensures Valid() && View() == CancelPending(old(View()))
      ensures out == old(out) && lastId == old(lastId)
    {
      hide L.Good;
      L.CancelPendingGood(View(), config, lastId, out);
      while pendingTxQueue != []
        invariant CancelPending(View()) == CancelPending(old(View()))
        invariant out == old(out) && lastId == old(lastId)
        decreases |pendingTxQueue|
      {
        var request := pendingTxQueue[0];
        pendingTxQueue := pendingTxQueue[1..];
        FinishTxRequest(request, Canceled);
      }
    }

    method CancelAllTxRequests()
      requires Valid()
      modifies this
      ensures Valid() && View() == CancelAll(old(View()))
      ensures State() == L.Advance(old(State()), config, L.Cancel)
    {
      hide L.Good, L.HandOffs, L.NewHandOffs;
      ghost var before := View();
      if activeWrite.Some? {
        L.WriteCancelledGood(View(), config, lastId, out);
        FinishTxRequest(activeWrite.value, Canceled);
        activeWrite := None;
      }
      if activeHalfDuplexRequest.Some? {
        L.AwaitingOutGood(View(), config, lastId, out, Canceled);
        FinishTxRequest(activeHalfDuplexRequest.value.request, Canceled);
        activeHalfDuplexRequest := None;
      }
      L.CancelPendingGood(View(), config, lastId, out);
      CancelPendingTxRequests();
      L.QuietIsNew(before, View(), out);
    }
  }
}
