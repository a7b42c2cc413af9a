/** What every run of the transmit scheduler keeps. */
module TxLaws {
  import opened Basics
  import opened TxModel

  // ----- reading the log -----

  /** Attempts that entered the scheduler, with multiplicity. */
  ghost function Entered(log: seq<Event>): multiset<Attempt> {
    if log == [] then multiset{} else Entered(log[..|log| - 1]) + EnteredBy(log[|log| - 1])
  }

  function EnteredBy(event: Event): multiset<Attempt> {
    if event.Submitted? || event.Retried? then multiset{event.r} else multiset{}
  }

  /** Attempts a final outcome was reported for, with multiplicity. */
  ghost function Done(log: seq<Event>): multiset<Attempt> {
    if log == [] then multiset{} else Done(log[..|log| - 1]) + DoneBy(log[|log| - 1])
  }

  function DoneBy(event: Event): multiset<Attempt> {
    if event.Finished? then multiset{event.r} else multiset{}
  }

  /** Attempts handed to the transport, in order. */
  ghost function HandOffs(log: seq<Event>): seq<Attempt> {
    if log == [] then [] else HandOffs(log[..|log| - 1]) + HandOffBy(log[|log| - 1])
  }

  function HandOffBy(event: Event): seq<Attempt> {
    if event.Handed? then [event.r] else []
  }

  /** Some guarded attempt since the last reset failed for good. */
  ghost predicate Tripped(log: seq<Event>) {
    log != [] && TrippedBy(log[|log| - 1], Tripped(log[..|log| - 1]))
  }

  predicate TrippedBy(event: Event, before: bool) {
    !event.GuardReset? && ((event.Finished? && GuardFailure(event.r, event.outcome)) || before)
  }

  lemma Snoc(log: seq<Event>, event: Event)
    ensures Entered(log + [event]) == Entered(log) + EnteredBy(event)
    ensures Done(log + [event]) == Done(log) + DoneBy(event)
    ensures HandOffs(log + [event]) == HandOffs(log) + HandOffBy(event)
    ensures Tripped(log + [event]) == TrippedBy(event, Tripped(log))
  {
    assert (log + [event])[..|log|] == log;
  }

  // ----- invariants -----

  function Slots(e: Engine): (s: seq<Attempt>) {
    (if e.activeWrite.Some? then [e.activeWrite.value] else [])
    + (if e.awaiting.Some? then [e.awaiting.value.request] else [])
  }

  /** The attempts waiting or in a slot. */
  function Live(e: Engine): seq<Attempt> {
    e.pending + Slots(e)
  }

  ghost function LiveBag(e: Engine): multiset<Attempt> {
    multiset(Live(e))
  }

  /** Conservation: every attempt that entered is live or was finished, with multiplicity. */
  ghost predicate Conserved(e: Engine) {
    Entered(e.log) == Done(e.log) + LiveBag(e)
  }

  predicate OneSlot(e: Engine) {
    e.activeWrite.None? || e.awaiting.None?
  }

  predicate Bounded(e: Engine, c: Config) {
    |e.pending| + Busy(e) <= c.maxPending
  }

  /** The breaker state is what the log says, and no guarded attempt was handed over while it was tripped. */
  ghost predicate GuardKept(e: Engine) {
    && (e.halted <==> Tripped(e.log))
    && forall k :: 0 <= k < |e.log| && e.log[k].Handed? && e.log[k].r.guarded ==> !Tripped(e.log[..k])
  }

  predicate RetryOf(a: Attempt, b: Attempt) {
    a.guarded && b == NextAttempt(a) && b.attempt <= b.maxAttempts
  }

  /** `b` may directly follow `a` in the hand-off order: a later request, or the next attempt of the same one. */
  predicate Follows(a: Attempt, b: Attempt) {
    a.id < b.id || RetryOf(a, b)
  }

  /** The hand-offs so far, the waiting queue and the occupied slot continue one another. */
  ghost predicate InOrder(h: seq<Attempt>, pending: seq<Attempt>, slots: seq<Attempt>) {
    && (forall i :: 0 <= i < |h| - 1 ==> Follows(h[i], h[i + 1]))
    && (forall i, j :: 0 <= i < j < |pending| ==> pending[i].id < pending[j].id)
    && (h != [] ==> forall i :: 0 <= i < |pending| ==>
          h[|h| - 1].id < pending[i].id || (i == 0 && slots == [] && RetryOf(h[|h| - 1], pending[0])))
    && (slots != [] ==> h != [] && slots == [h[|h| - 1]])
  }

  ghost predicate Ordered(e: Engine) {
    InOrder(HandOffs(e.log), e.pending, Slots(e))
  }

  /** Request ids only grow, and every attempt number is between one and the maximum. */
  ghost predicate Known(e: Engine, lastId: nat) {
    && (forall r :: r in Entered(e.log) ==> r.id <= lastId && 1 <= r.attempt <= r.maxAttempts)
    && (forall i :: 0 <= i < |HandOffs(e.log)| ==> HandOffs(e.log)[i] in Entered(e.log))
  }

  /** An attempt enters once, and never after a later attempt of the same request. */
  ghost predicate EnteredOnce(e: Engine) {
    && (forall r :: Entered(e.log)[r] <= 1)
    && (forall r, l :: r in Entered(e.log) && l in LiveBag(e) && r.id == l.id ==> r.attempt <= l.attempt)
  }

  ghost predicate Core(e: Engine, lastId: nat) {
    && Conserved(e) && OneSlot(e) && GuardKept(e)
    && Ordered(e) && Known(e, lastId) && EnteredOnce(e)
  }

  ghost predicate Inv(e: Engine, c: Config, lastId: nat) {
    Core(e, lastId) && Bounded(e, c)
  }

  lemma IdleInv(c: Config)
    ensures Inv(IDLE, c, 0)
  {
    assert Slots(IDLE) == [] && Live(IDLE) == [];
    assert HandOffs(IDLE.log) == [] && Entered(IDLE.log) == multiset{} == Done(IDLE.log);
  }

  // ----- one log entry at a time -----

  /** `f` is `e` with one more log entry. */
  ghost predicate Logged(e: Engine, f: Engine, event: Event) {
    f.log == e.log + [event]
  }

  lemma ConservedMove(e: Engine, f: Engine, event: Event)
    requires Conserved(e) && Logged(e, f, event)
    requires LiveBag(f) + DoneBy(event) == LiveBag(e) + EnteredBy(event)
    ensures Conserved(f)
  {
    hide LiveBag, EnteredBy, DoneBy;
    Snoc(e.log, event);
    assert Entered(f.log) == Done(e.log) + (LiveBag(e) + EnteredBy(event));
  }

  lemma GuardMove(e: Engine, f: Engine, event: Event)
    requires GuardKept(e) && Logged(e, f, event)
    requires f.halted == TrippedBy(event, e.halted)
    requires event.Handed? && event.r.guarded ==> !e.halted
    ensures GuardKept(f)
  {
    hide TrippedBy, Tripped;
    Snoc(e.log, event);
    forall k | 0 <= k < |f.log| && f.log[k].Handed? && f.log[k].r.guarded
      ensures !Tripped(f.log[..k])
    {
      assert f.log[..k] == e.log[..k];
    }
  }

  lemma KnownMove(e: Engine, f: Engine, event: Event, lastId: nat)
    requires Known(e, lastId) && Logged(e, f, event) && EnteredBy(event) == multiset{}
    requires event.Handed? ==> event.r in Entered(e.log)
    ensures Known(f, lastId)
  {
    hide EnteredBy, Entered, HandOffs;
    Snoc(e.log, event);
    assert Entered(f.log) == Entered(e.log);
  }

  lemma EnteredOnceMove(e: Engine, f: Engine, event: Event)
    requires EnteredOnce(e) && Logged(e, f, event) && EnteredBy(event) == multiset{} && LiveBag(f) <= LiveBag(e)
    ensures EnteredOnce(f)
  {
    hide EnteredBy, Entered, LiveBag;
    Snoc(e.log, event);
    assert Entered(f.log) == Entered(e.log);
  }

  /** A move by which nothing enters: what leaves the live attempts is finished. */
  lemma LeavingMove(e: Engine, f: Engine, event: Event, lastId: nat)
    requires Core(e, lastId) && Logged(e, f, event) && EnteredBy(event) == multiset{}
    requires LiveBag(f) + DoneBy(event) == LiveBag(e)
    requires f.halted == TrippedBy(event, e.halted)
    requires event.Handed? ==> event.r in LiveBag(e) && !(event.r.guarded && e.halted)
    requires OneSlot(f) && Ordered(f)
    ensures Core(f, lastId)
  {
    hide LiveBag, Entered, Done, GuardKept, Known, EnteredOnce, Ordered, OneSlot, TrippedBy, DoneBy, EnteredBy;
    ConservedMove(e, f, event);
    GuardMove(e, f, event);
    KnownMove(e, f, event, lastId);
    EnteredOnceMove(e, f, event);
  }

  /** A move by which one attempt enters, new in its id or in its attempt number. */
  lemma EnteringMove(e: Engine, f: Engine, event: Event, lastId: nat, lastId': nat)
    requires EnteredOnce(e) && Known(e, lastId) && Logged(e, f, event) && lastId <= lastId'
    requires event.Submitted? || event.Retried?
    requires event.r.id <= lastId' && 1 <= event.r.attempt <= event.r.maxAttempts
    requires forall r :: r in Entered(e.log) && r.id == event.r.id ==> r.attempt < event.r.attempt
    requires LiveBag(f) <= LiveBag(e) + multiset{event.r}
    requires forall r :: r in LiveBag(e) ==> r.id != event.r.id
    ensures EnteredOnce(f) && Known(f, lastId')
  {
    hide LiveBag, Entered, HandOffs;
    Snoc(e.log, event);
    assert event.r !in Entered(e.log);
    assert Entered(f.log) == Entered(e.log) + multiset{event.r};
    assert HandOffs(f.log) == HandOffs(e.log) + [] == HandOffs(e.log);
  }

  /** `r` is new in its id, or in its attempt number with no live attempt of its id. */
  ghost predicate NewTo(e: Engine, r: Attempt) {
    && (forall x :: x in Entered(e.log) && x.id == r.id ==> x.attempt < r.attempt)
    && (forall x :: x in LiveBag(e) ==> x.id != r.id)
  }

  lemma EnteringCore(e: Engine, f: Engine, event: Event, lastId: nat, lastId': nat)
    requires Core(e, lastId) && Logged(e, f, event) && lastId <= lastId'
    requires event.Submitted? || event.Retried?
    requires event.r.id <= lastId' && 1 <= event.r.attempt <= event.r.maxAttempts && NewTo(e, event.r)
    requires LiveBag(f) == LiveBag(e) + multiset{event.r} && f.halted == e.halted
    requires OneSlot(f) && Ordered(f)
    ensures Core(f, lastId')
  {
    hide LiveBag, Entered, Done, GuardKept, Known, EnteredOnce, Ordered, OneSlot, Conserved;
    ConservedMove(e, f, event);
    GuardMove(e, f, event);
    EnteringMove(e, f, event, lastId, lastId');
  }

  // ----- the elementary moves keep the invariant -----

  lemma LiveParts(e: Engine)
    ensures LiveBag(e) == multiset(e.pending) + multiset(Slots(e))
  {
  }

  lemma BagCons(r: Attempt, s: seq<Attempt>)
    ensures multiset([r] + s) == multiset{r} + multiset(s) == multiset(s + [r])
    ensures multiset([r]) == multiset{r}
  {
  }

  lemma OrderDrop(h: seq<Attempt>, pending: seq<Attempt>, slots: seq<Attempt>)
    requires InOrder(h, pending, slots) && pending != []
    ensures InOrder(h, pending[1..], slots)
  {
    assert forall i :: 0 <= i < |pending| - 1 ==> pending[1..][i] == pending[i + 1];
    assert h != [] ==> forall i :: 1 <= i < |pending| ==> h[|h| - 1].id < pending[i].id;
  }

  lemma OrderFree(h: seq<Attempt>, pending: seq<Attempt>, slots: seq<Attempt>)
    requires InOrder(h, pending, slots)
    ensures InOrder(h, pending, [])
  {
  }

  lemma OrderHand(h: seq<Attempt>, pending: seq<Attempt>)
    requires InOrder(h, pending, []) && pending != []
    ensures InOrder(h + [pending[0]], pending[1..], [pending[0]])
  {
    var g := h + [pending[0]];
    forall i | 0 <= i < |g| - 1
      ensures Follows(g[i], g[i + 1])
    {
      if i == |h| - 1 {
        assert g[i] == h[|h| - 1] && g[i + 1] == pending[0];
      }
    }
    assert forall i :: 0 <= i < |pending| - 1 ==> pending[1..][i] == pending[i + 1];
  }

  /** The front of the queue is finished without being handed over. */
  lemma DropFront(e: Engine, lastId: nat, outcome: Outcome)
    requires Core(e, lastId) && e.pending != []
    ensures Core(Finish(e.(pending := e.pending[1..]), e.pending[0], outcome), lastId)
  {
    hide Conserved, GuardKept, EnteredOnce, Known, Entered, Done, HandOffs, Tripped, GuardFailure, InOrder;
    var event := Finished(e.pending[0], outcome);
    var f := Finish(e.(pending := e.pending[1..]), e.pending[0], outcome);
    assert Live(e) == [event.r] + Live(f);
    Snoc(e.log, event);
    assert HandOffs(f.log) == HandOffs(e.log);
    OrderDrop(HandOffs(e.log), e.pending, Slots(e));
    LeavingMove(e, f, event, lastId);
  }

  /** A slot is finished. */
  lemma FinishSlot(e: Engine, lastId: nat, outcome: Outcome)
    requires Core(e, lastId) && Slots(e) != []
    ensures Core(SlotFinished(e, outcome), lastId)
  {
    hide Conserved, GuardKept, EnteredOnce, Known, Entered, Done, HandOffs, Tripped, GuardFailure, InOrder;
    var event := Finished(Slots(e)[0], outcome);
    var f := Finish(e.(activeWrite := None, awaiting := None), Slots(e)[0], outcome);
    assert Live(e) == Live(f) + [event.r];
    Snoc(e.log, event);
    assert HandOffs(f.log) == HandOffs(e.log);
    OrderFree(HandOffs(e.log), e.pending, Slots(e));
    LeavingMove(e, f, event, lastId);
  }

  /** The front of the queue is handed to the transport. */
  lemma HandOver(e: Engine, lastId: nat)
    requires Core(e, lastId) && CanDrive(e)
    requires !(e.pending[0].guarded && e.halted)
    ensures Core(DriveOne(e, Takes), lastId)
  {
    hide Conserved, GuardKept, EnteredOnce, Known, Entered, Done, HandOffs, Tripped, GuardFailure, InOrder, LiveBag;
    var r := e.pending[0];
    var event := Handed(r);
    var f := DriveOne(e, Takes);
    LiveParts(e);
    LiveParts(f);
    BagCons(r, e.pending[1..]);
    assert e.pending == [r] + e.pending[1..];
    Snoc(e.log, event);
    assert Slots(e) == [] && Slots(f) == [r] && HandOffBy(event) == [r];
    OrderHand(HandOffs(e.log), e.pending);
    LeavingMove(e, f, event, lastId);
  }

  /** A written request starts to await its acknowledgement. */
  lemma StartAwaiting(e: Engine, lastId: nat, deadlineMs: nat)
    requires Core(e, lastId) && e.activeWrite.Some?
    ensures Core(e.(activeWrite := None, awaiting := Some(Waiting(e.activeWrite.value, deadlineMs)),
                   log := e.log + [Acknowledging(e.activeWrite.value)]), lastId)
  {
    hide Conserved, GuardKept, EnteredOnce, Known, Entered, Done, HandOffs, Tripped, GuardFailure, InOrder;
    var r := e.activeWrite.value;
    var event := Acknowledging(r);
    var f := e.(activeWrite := None, awaiting := Some(Waiting(r, deadlineMs)), log := e.log + [event]);
    assert Slots(e) == [r] == Slots(f) && Live(e) == Live(f);
    Snoc(e.log, event);
    assert HandOffs(f.log) == HandOffs(e.log);
    LeavingMove(e, f, event, lastId);
  }

  /** The breaker is reset. */
  lemma Reset(e: Engine, lastId: nat)
    requires Core(e, lastId)
    ensures Core(ResetGuard(e), lastId)
  {
    hide Conserved, GuardKept, EnteredOnce, Known, Entered, Done, HandOffs, Tripped, GuardFailure, InOrder;
    var f := ResetGuard(e);
    assert Live(e) == Live(f);
    Snoc(e.log, GuardReset);
    assert HandOffs(f.log) == HandOffs(e.log);
    LeavingMove(e, f, GuardReset, lastId);
  }

  lemma OrderAdd(h: seq<Attempt>, pending: seq<Attempt>, slots: seq<Attempt>, r: Attempt)
    requires InOrder(h, pending, slots)
    requires (h != [] ==> h[|h| - 1].id < r.id) && forall i :: 0 <= i < |pending| ==> pending[i].id < r.id
    ensures InOrder(h, pending + [r], slots)
  {
    var q := pending + [r];
    assert forall i :: 0 <= i < |pending| ==> q[i] == pending[i];
  }

  lemma OrderDropLast(h: seq<Attempt>, pending: seq<Attempt>, slots: seq<Attempt>, r: Attempt)
    requires InOrder(h, pending + [r], slots)
    ensures InOrder(h, pending, slots)
  {
    var q := pending + [r];
    assert forall i :: 0 <= i < |pending| ==> q[i] == pending[i];
  }

  lemma OrderRetry(h: seq<Attempt>, pending: seq<Attempt>)
    requires h != [] && InOrder(h, pending, [h[|h| - 1]]) && RetryOf(h[|h| - 1], NextAttempt(h[|h| - 1]))
    ensures InOrder(h, [NextAttempt(h[|h| - 1])] + pending, [])
  {
    var q := [NextAttempt(h[|h| - 1])] + pending;
    assert forall i :: 1 <= i < |q| ==> q[i] == pending[i - 1];
  }

  /** A log entry that is no hand-off leaves the hand-off order as it was. */
  lemma Quiet(log: seq<Event>, event: Event)
    requires !event.Handed?
    ensures HandOffs(log + [event]) == HandOffs(log)
  {
    Snoc(log, event);
    assert HandOffs(log) + [] == HandOffs(log);
  }

  lemma JoinBag(e: Engine, f: Engine, r: Attempt)
    requires f.pending == e.pending + [r] && Slots(f) == Slots(e)
    ensures LiveBag(f) == LiveBag(e) + multiset{r}
  {
    hide Slots;
    LiveParts(e);
    LiveParts(f);
    BagCons(r, e.pending);
    hide LiveBag;
  }

  lemma RetryBag(f: Engine, g: Engine, r: Attempt)
    requires g.pending == [r] + f.pending && Slots(f) == Slots(g)
    ensures LiveBag(g) == LiveBag(f) + multiset{r}
  {
    hide Slots;
    LiveParts(f);
    LiveParts(g);
    BagCons(r, f.pending);
    hide LiveBag;
  }

  /** A fresh request joins the end of the queue. */
  lemma Join(e: Engine, lastId: nat, r: Attempt)
    requires Core(e, lastId) && r.id > lastId && 1 <= r.attempt <= r.maxAttempts
    ensures Core(e.(pending := e.pending + [r], log := e.log + [Submitted(r)]), r.id)
  {
    var f := e.(pending := e.pending + [r], log := e.log + [Submitted(r)]);
    BelowFresh(e, lastId);
    assert NewTo(e, r);
    JoinBag(e, f, r);
    OrderAdd(HandOffs(e.log), e.pending, Slots(e), r);
    Quiet(e.log, Submitted(r));
    hide Conserved, GuardKept, EnteredOnce, Known, Entered, Done, HandOffs, Tripped, InOrder, LiveBag, NewTo;
    EnteringCore(e, f, Submitted(r), lastId, r.id);
  }

  /** All ids the scheduler has seen, live or handed over, are at most `lastId`. */
  lemma BelowFresh(e: Engine, lastId: nat)
    requires Core(e, lastId)
    ensures forall r :: r in Entered(e.log) ==> r.id <= lastId
    ensures forall r :: r in LiveBag(e) ==> r.id <= lastId
    ensures forall i :: 0 <= i < |e.pending| ==> e.pending[i].id <= lastId
    ensures HandOffs(e.log) != [] ==> HandOffs(e.log)[|HandOffs(e.log)| - 1].id <= lastId
  {
    hide GuardKept, EnteredOnce, InOrder, Entered, Done, HandOffs;
    forall r | r in LiveBag(e)
      ensures r.id <= lastId
    {
      assert r in Entered(e.log);
    }
    forall i | 0 <= i < |e.pending|
      ensures e.pending[i].id <= lastId
    {
      assert Live(e)[i] == e.pending[i];
      assert e.pending[i] in LiveBag(e);
    }
  }

  /** The last of the queue is finished, as if it had never joined. */
  lemma DropLast(e: Engine, lastId: nat, pending: seq<Attempt>, r: Attempt, outcome: Outcome)
    requires Core(e, lastId) && e.pending == pending + [r]
    ensures Core(Finish(e.(pending := pending), r, outcome), lastId)
  {
    var f := Finish(e.(pending := pending), r, outcome);
    JoinBag(f, e, r);
    OrderDropLast(HandOffs(e.log), pending, Slots(e), r);
    Quiet(e.log, Finished(r, outcome));
    hide Conserved, GuardKept, EnteredOnce, Known, Entered, Done, HandOffs, Tripped, InOrder, LiveBag;
    LeavingMove(e, f, Finished(r, outcome), lastId);
  }

  /** The engine after the slot was finished with `outcome`. */
  function SlotFinished(e: Engine, outcome: Outcome): Engine
    requires Slots(e) != []
  {
    Finish(e.(activeWrite := None, awaiting := None), Slots(e)[0], outcome)
  }

  function Requeued(f: Engine, next: Attempt): Engine {
    f.(pending := [next] + f.pending, log := f.log + [Retried(next)])
  }

  lemma RetryOrder(e: Engine, outcome: Outcome)
    requires OneSlot(e) && Ordered(e) && Slots(e) != []
    requires var r := Slots(e)[0]; r.guarded && r.attempt < r.maxAttempts
    ensures Ordered(Requeued(SlotFinished(e, outcome), NextAttempt(Slots(e)[0])))
  {
    var f := SlotFinished(e, outcome);
    var g := Requeued(f, NextAttempt(Slots(e)[0]));
    assert Slots(f) == [] && Slots(g) == [];
    OrderRetry(HandOffs(e.log), e.pending);
    Quiet(e.log, Finished(Slots(e)[0], outcome));
    Quiet(f.log, Retried(NextAttempt(Slots(e)[0])));
  }

  lemma RetryNew(e: Engine, lastId: nat, outcome: Outcome)
    requires Core(e, lastId) && Slots(e) != []
    ensures NewTo(SlotFinished(e, outcome), NextAttempt(Slots(e)[0]))
    ensures Slots(e)[0].id <= lastId && 1 <= Slots(e)[0].attempt
  {
    var f := SlotFinished(e, outcome);
    NotLater(e, lastId, f);
    Snoc(e.log, Finished(Slots(e)[0], outcome));
    assert Entered(f.log) == Entered(e.log);
  }

  /** The next attempt of the request that was just in the slot returns to the front. */
  lemma Retry(e: Engine, lastId: nat, outcome: Outcome)
    requires Core(e, lastId) && Slots(e) != []
    requires var r := Slots(e)[0]; r.guarded && r.attempt < r.maxAttempts
    ensures Core(Requeued(SlotFinished(e, outcome), NextAttempt(Slots(e)[0])), lastId)
  {
    var next := NextAttempt(Slots(e)[0]);
    var f := SlotFinished(e, outcome);
    var g := Requeued(f, next);
    RetryNew(e, lastId, outcome);
    RetryOrder(e, outcome);
    FinishSlot(e, lastId, outcome);
    RetryBag(f, g, next);
    assert OneSlot(g);
    hide Conserved, GuardKept, EnteredOnce, Known, Entered, Done, HandOffs, Tripped, Ordered, LiveBag, NewTo, OneSlot;
    EnteringCore(f, g, Retried(next), lastId, lastId);
  }

  /** What entered under the id of the slot's request entered no later than it; the others are other requests. */
  lemma NotLater(e: Engine, lastId: nat, f: Engine)
    requires Core(e, lastId) && Slots(e) != [] && f.pending == e.pending && Slots(f) == []
    ensures var r := Slots(e)[0];
      && r.id <= lastId && 1 <= r.attempt
      && (forall x :: x in Entered(e.log) && x.id == r.id ==> x.attempt <= r.attempt)
      && (forall x :: x in LiveBag(f) ==> x.id != r.id)
  {
    hide GuardKept, HandOffs, Tripped, Done;
    var r := Slots(e)[0];
    assert Live(e)[|e.pending|] == r;
    assert r in LiveBag(e);
    assert r in Entered(e.log);
    assert Live(f) == e.pending;
    forall x | x in LiveBag(f)
      ensures x.id != r.id
    {
      var i :| 0 <= i < |e.pending| && e.pending[i] == x;
    }
  }

  // ----- outstanding writes -----

  ghost predicate NoneLive(e: Engine, id: nat) {
    forall x :: x in LiveBag(e) ==> x.id != id
  }

  /** The hand-offs the transport has not reported on yet: the active write is one of them, and every other
      one belongs to a request that is neither waiting nor in a slot. */
  ghost predicate Tracked(e: Engine, out: multiset<Attempt>) {
    && (forall r :: r in out ==> out[r] == 1 && r in Entered(e.log) && (e.activeWrite == Some(r) || NoneLive(e, r.id)))
    && (e.activeWrite.Some? ==> e.activeWrite.value in out)
  }

  /** A move by which nothing is handed over and the active write stays. */
  lemma TrackedQuiet(e: Engine, f: Engine, out: multiset<Attempt>)
    requires Tracked(e, out) && f.activeWrite == e.activeWrite
    requires Entered(e.log) <= Entered(f.log)
    requires forall x :: x in LiveBag(f) && x !in LiveBag(e) ==> forall r :: r in out ==> x.id != r.id
    ensures Tracked(f, out)
  {
    hide Entered, LiveBag;
  }

  /** The ids of the live attempts differ, the occupied slot's from all waiting ones. */
  lemma SlotAlone(e: Engine)
    requires OneSlot(e) && Ordered(e) && Slots(e) != []
    ensures LiveBag(e) == multiset(e.pending) + multiset{Slots(e)[0]}
    ensures forall i :: 0 <= i < |e.pending| ==> e.pending[i].id != Slots(e)[0].id
  {
    hide HandOffs;
    LiveParts(e);
    BagCons(Slots(e)[0], []);
    assert Slots(e) == [Slots(e)[0]];
  }

  lemma SlotAloneBag(e: Engine, x: Attempt)
    requires OneSlot(e) && Ordered(e) && Slots(e) != [] && x in multiset(e.pending)
    ensures x.id != Slots(e)[0].id
  {
    SlotAlone(e);
    assert x in e.pending;
  }

  /** The active write leaves its slot without the transport having reported on it. */
  lemma TrackedCancel(e: Engine, f: Engine, out: multiset<Attempt>)
    requires Tracked(e, out) && e.activeWrite.Some? && f.activeWrite.None?
    requires Entered(f.log) == Entered(e.log) && LiveBag(f) <= LiveBag(e) && NoneLive(f, e.activeWrite.value.id)
    ensures Tracked(f, out)
  {
    hide Entered, LiveBag;
  }

  /** The transport reports on the active write. */
  lemma TrackedReport(e: Engine, f: Engine, out: multiset<Attempt>)
    requires Tracked(e, out) && e.activeWrite.Some? && f.activeWrite.None?
    requires Entered(f.log) == Entered(e.log) && LiveBag(f) <= LiveBag(e)
    ensures Tracked(f, out - multiset{e.activeWrite.value})
  {
    hide Entered, LiveBag;
  }

  /** A live attempt is handed over. */
  lemma TrackedHandOver(e: Engine, f: Engine, out: multiset<Attempt>, r: Attempt)
    requires Tracked(e, out) && e.activeWrite.None? && f.activeWrite == Some(r)
    requires Entered(f.log) == Entered(e.log) && LiveBag(f) == LiveBag(e)
    requires r in LiveBag(e) && r in Entered(e.log)
    ensures Tracked(f, out + multiset{r})
  {
    hide Entered, LiveBag;
  }

  /** Everything a step promises at once. */
  ghost predicate Good(e: Engine, c: Config, lastId: nat, out: multiset<Attempt>) {
    Inv(e, c, lastId) && Tracked(e, out)
  }

  /** The active write, where there was none before. */
  function Handing(e: Engine, f: Engine): seq<Attempt> {
    if e.activeWrite.None? && f.activeWrite.Some? then [f.activeWrite.value] else []
  }

  lemma FinishedFrontGood(e: Engine, c: Config, lastId: nat, out: multiset<Attempt>, outcome: Outcome)
    requires Good(e, c, lastId, out) && e.pending != []
    ensures var f := Finish(e.(pending := e.pending[1..]), e.pending[0], outcome);
      Good(f, c, lastId, out) && HandOffs(f.log) == HandOffs(e.log)
  {
    var f := Finish(e.(pending := e.pending[1..]), e.pending[0], outcome);
    DropFront(e, lastId, outcome);
    Snoc(e.log, Finished(e.pending[0], outcome));
    Quiet(e.log, Finished(e.pending[0], outcome));
    FewerLive(e, f);
    hide Core, Entered, Done, HandOffs, LiveBag, GuardFailure;
    TrackedQuiet(e, f, out);
  }

  lemma FewerLive(e: Engine, f: Engine)
    requires e.pending != [] && f.pending == e.pending[1..] && Slots(f) == Slots(e)
    ensures LiveBag(f) <= LiveBag(e)
  {
    hide Slots;
    LiveParts(e);
    LiveParts(f);
    assert e.pending == [e.pending[0]] + e.pending[1..];
    hide LiveBag;
  }

  lemma HandOverGood(e: Engine, c: Config, lastId: nat, out: multiset<Attempt>)
    requires Good(e, c, lastId, out) && CanDrive(e) && !(e.pending[0].guarded && e.halted)
    ensures var f := DriveOne(e, Takes);
      Good(f, c, lastId, out + multiset{e.pending[0]}) && HandOffs(f.log) == HandOffs(e.log) + [e.pending[0]]
  {
    hide Core, Entered, Done, HandOffs, LiveBag, Tracked;
    var f, r := DriveOne(e, Takes), e.pending[0];
    HandOver(e, lastId);
    Snoc(e.log, Handed(r));
    HandOverBag(e, f, lastId);
    assert Entered(f.log) == Entered(e.log);
    TrackedHandOver(e, f, out, r);
  }

  lemma HandOverBag(e: Engine, f: Engine, lastId: nat)
    requires CanDrive(e) && Core(e, lastId) && f == DriveOne(e, Takes) && f.activeWrite == Some(e.pending[0])
    ensures LiveBag(f) == LiveBag(e) && e.pending[0] in LiveBag(e) && e.pending[0] in Entered(e.log)
  {
    hide Core, LiveBag, Entered;
    LiveParts(e);
    LiveParts(f);
    BagCons(e.pending[0], e.pending[1..]);
    assert e.pending == [e.pending[0]] + e.pending[1..];
    assert Slots(f) == [e.pending[0]] && Slots(e) == [];
    FrontEntered(e, lastId);
  }

  lemma FrontEntered(e: Engine, lastId: nat)
    requires Core(e, lastId) && e.pending != []
    ensures e.pending[0] in LiveBag(e) && e.pending[0] in Entered(e.log)
  {
    hide GuardKept, Ordered, Known, EnteredOnce, Entered, Done, OneSlot;
    LiveParts(e);
  }

  /** The scheduler loop: all invariants, and at most one hand-off. */
  lemma {:induction false} DriveGood(e: Engine, c: Config, lastId: nat, out: multiset<Attempt>, offline: bool, answers: seq<Answer>)
    requires Good(e, c, lastId, out)
    ensures var f := Drive(e, offline, answers);
      && Good(f, c, lastId, out + multiset(Handing(e, f)))
      && HandOffs(f.log) == HandOffs(e.log) + Handing(e, f)
      && (!offline ==> !CanDrive(f))
    decreases |e.pending|
  {
    hide Good, HandOffs;
    if offline || !CanDrive(e) {
      assert HandOffs(e.log) + [] == HandOffs(e.log) && out + multiset([]) == out;
    } else if First(answers) == Takes && !(e.pending[0].guarded && e.halted) {
      HandOverGood(e, c, lastId, out);
    } else {
      FinishedFrontGood(e, c, lastId, out, Rejected);
      DriveGood(DriveOne(e, First(answers)), c, lastId, out, offline, Rest(answers));
    }
  }

  // ----- the steps -----

  /** A step without a hand-off. */
  ghost predicate QuietStep(e: Engine, f: Engine) {
    HandOffs(f.log) == HandOffs(e.log)
  }

  lemma ResetGood(e: Engine, c: Config, lastId: nat, out: multiset<Attempt>)
    requires Good(e, c, lastId, out)
    ensures Good(ResetGuard(e), c, lastId, out) && QuietStep(e, ResetGuard(e))
  {
    var f := ResetGuard(e);
    Reset(e, lastId);
    Snoc(e.log, GuardReset);
    Quiet(e.log, GuardReset);
    assert Live(f) == Live(e);
    hide Core, Entered, Done, HandOffs;
    TrackedQuiet(e, f, out);
  }

  lemma {:induction false} ResetsGood(e: Engine, c: Config, lastId: nat, out: multiset<Attempt>, times: nat)
    requires Good(e, c, lastId, out)
    ensures Good(ResetGuards(e, times), c, lastId, out) && QuietStep(e, ResetGuards(e, times))
    decreases times
  {
    hide Good, HandOffs;
    if times > 0 {
      ResetGood(e, c, lastId, out);
      ResetsGood(ResetGuard(e), c, lastId, out, times - 1);
    }
  }

  /** The queue with a fresh request at its end, before any limit is applied. */
  function Joined(e: Engine, r: Attempt): Engine {
    e.(pending := e.pending + [r], log := e.log + [Submitted(r)])
  }

  lemma JoinedGood(e: Engine, lastId: nat, out: multiset<Attempt>, r: Attempt)
    requires Core(e, lastId) && Tracked(e, out) && r.id > lastId && 1 <= r.attempt <= r.maxAttempts
    ensures Core(Joined(e, r), r.id) && Tracked(Joined(e, r), out) && QuietStep(e, Joined(e, r))
  {
    hide Core, Done, HandOffs, LiveBag, Entered, Tripped;
    var f := Joined(e, r);
    Join(e, lastId, r);
    BelowFresh(e, lastId);
    Quiet(e.log, Submitted(r));
    Snoc(e.log, Submitted(r));
    JoinBag(e, f, r);
    TrackedQuiet(e, f, out);
  }

  lemma LastOutGood(e: Engine, lastId: nat, out: multiset<Attempt>, pending: seq<Attempt>, r: Attempt, outcome: Outcome)
    requires Core(e, lastId) && Tracked(e, out) && e.pending == pending + [r]
    ensures var f := Finish(e.(pending := pending), r, outcome);
      Core(f, lastId) && Tracked(f, out) && QuietStep(e, f)
  {
    var f := Finish(e.(pending := pending), r, outcome);
    DropLast(e, lastId, pending, r, outcome);
    Quiet(e.log, Finished(r, outcome));
    Snoc(e.log, Finished(r, outcome));
    JoinBag(f, e, r);
    hide Core, Done, HandOffs, LiveBag, Entered, GuardFailure;
    TrackedQuiet(e, f, out);
  }

  /** Accepting a request under any overflow policy keeps every invariant, the queue bound included. */
  lemma EnqueueGood(e: Engine, c: Config, lastId: nat, out: multiset<Attempt>, request: Attempt)
    requires Good(e, c, lastId, out) && request.id > lastId && request.attempt <= 1
    ensures Good(Enqueue(e, c, request), c, request.id, out) && QuietStep(e, Enqueue(e, c, request))
  {
    hide Core, Tracked, HandOffs, GuardFailure;
    var r := Normalized(c, request);
    var joined := Joined(e, r);
    JoinedGood(e, lastId, out, r);
    if !(r.guarded && e.halted) && |e.pending| + Busy(e) < c.maxPending {
      assert Enqueue(e, c, request) == joined;
    } else if !(r.guarded && e.halted) && c.policy == DropOldestWaiting && e.pending != [] {
      assert joined.pending[0] == e.pending[0] && joined.pending[1..] == e.pending[1..] + [r];
      FrontOutGood(joined, r.id, out, Dropped);
      assert Enqueue(e, c, request) == Finish(joined.(pending := joined.pending[1..]), joined.pending[0], Dropped);
    } else {
      var outcome := if !(r.guarded && e.halted) && c.policy == DropNewest then Dropped else Rejected;
      LastOutGood(joined, r.id, out, e.pending, r, outcome);
      assert joined.(pending := e.pending) == e.(log := e.log + [Submitted(r)]);
      assert Enqueue(e, c, request) == Finish(joined.(pending := e.pending), r, outcome);
    }
  }

  lemma FrontOutGood(e: Engine, lastId: nat, out: multiset<Attempt>, outcome: Outcome)
    requires Core(e, lastId) && Tracked(e, out) && e.pending != []
    ensures var f := Finish(e.(pending := e.pending[1..]), e.pending[0], outcome);
      Core(f, lastId) && Tracked(f, out) && QuietStep(e, f)
  {
    FinishedFrontGood(e, Config(|e.pending| + Busy(e), RejectNew, 0, 0), lastId, out, outcome);
  }

  /** The ids of a batch grow, and grow beyond those seen before; every request starts at its first attempt. */
  ghost predicate FreshBatch(requests: seq<Attempt>, lastId: nat) {
    && (forall i :: 0 <= i < |requests| ==> requests[i].id > lastId && requests[i].attempt <= 1)
    && (forall i, j :: 0 <= i < j < |requests| ==> requests[i].id < requests[j].id)
  }

  function LastId(requests: seq<Attempt>, lastId: nat): nat {
    if requests == [] then lastId else requests[|requests| - 1].id
  }

  lemma {:induction false} EnqueueAllGood(e: Engine, c: Config, lastId: nat, out: multiset<Attempt>, requests: seq<Attempt>)
    requires Good(e, c, lastId, out) && FreshBatch(requests, lastId)
    ensures var f := EnqueueAll(e, c, requests);
      Good(f, c, LastId(requests, lastId), out) && QuietStep(e, f)
    decreases |requests|
  {
    hide Good, HandOffs, Enqueue;
    if requests != [] {
      EnqueueGood(e, c, lastId, out, requests[0]);
      EnqueueAllGood(Enqueue(e, c, requests[0]), c, requests[0].id, out, requests[1..]);
    }
  }

  lemma AwaitingOutGood(e: Engine, c: Config, lastId: nat, out: multiset<Attempt>, outcome: Outcome)
    requires Good(e, c, lastId, out) && e.awaiting.Some?
    ensures var f := Finish(e.(awaiting := None), e.awaiting.value.request, outcome);
      Good(f, c, lastId, out) && QuietStep(e, f)
  {
    var r := e.awaiting.value.request;
    var f := Finish(e.(awaiting := None), r, outcome);
    assert Slots(e) == [r] && f == SlotFinished(e, outcome);
    FinishSlot(e, lastId, outcome);
    Quiet(e.log, Finished(r, outcome));
    Snoc(e.log, Finished(r, outcome));
    LiveParts(e);
    LiveParts(f);
    hide Core, Done, HandOffs, LiveBag, Entered, GuardFailure;
    TrackedQuiet(e, f, out);
  }

  /** The write ends with a final outcome; the transport has reported on it. */
  lemma WriteOutGood(e: Engine, c: Config, lastId: nat, out: multiset<Attempt>, outcome: Outcome)
    requires Good(e, c, lastId, out) && e.activeWrite.Some?
    ensures var r := e.activeWrite.value;
      var f := Finish(e.(activeWrite := None), r, outcome);
      Good(f, c, lastId, out - multiset{r}) && QuietStep(e, f)
  {
    var r := e.activeWrite.value;
    var f := Finish(e.(activeWrite := None), r, outcome);
    assert Slots(e) == [r] && f == SlotFinished(e, outcome);
    FinishSlot(e, lastId, outcome);
    Quiet(e.log, Finished(r, outcome));
    Snoc(e.log, Finished(r, outcome));
    LiveParts(e);
    LiveParts(f);
    hide Core, Done, HandOffs, LiveBag, Entered, GuardFailure;
    TrackedReport(e, f, out);
  }

  /** The write is cancelled; the transport will still report on it, too late. */
  lemma WriteCancelledGood(e: Engine, c: Config, lastId: nat, out: multiset<Attempt>)
    requires Good(e, c, lastId, out) && e.activeWrite.Some?
    ensures var r := e.activeWrite.value;
      var f := Finish(e, r, Canceled).(activeWrite := None);
      Good(f, c, lastId, out) && QuietStep(e, f)
  {
    var r := e.activeWrite.value;
    var f := Finish(e, r, Canceled).(activeWrite := None);
    assert Slots(e) == [r] && Slots(f) == [] && f == SlotFinished(e, Canceled);
    FinishSlot(e, lastId, Canceled);
    Quiet(e.log, Finished(r, Canceled));
    Snoc(e.log, Finished(r, Canceled));
    LiveParts(e);
    LiveParts(f);
    forall x | x in LiveBag(f)
      ensures x.id != r.id
    {
      SlotAloneBag(e, x);
    }
    hide Core, Done, HandOffs, LiveBag, Entered, GuardFailure;
    TrackedCancel(e, f, out);
  }

  /** A written request starts to await its acknowledgement. */
  lemma AwaitGood(e: Engine, c: Config, lastId: nat, out: multiset<Attempt>, deadlineMs: nat)
    requires Good(e, c, lastId, out) && e.activeWrite.Some?
    ensures var r := e.activeWrite.value;
      var f := e.(activeWrite := None, awaiting := Some(Waiting(r, deadlineMs)), log := e.log + [Acknowledging(r)]);
      Good(f, c, lastId, out - multiset{r}) && QuietStep(e, f)
  {
    var r := e.activeWrite.value;
    var f := e.(activeWrite := None, awaiting := Some(Waiting(r, deadlineMs)), log := e.log + [Acknowledging(r)]);
    StartAwaiting(e, lastId, deadlineMs);
    Quiet(e.log, Acknowledging(r));
    Snoc(e.log, Acknowledging(r));
    assert Live(f) == Live(e);
    hide Core, Done, HandOffs, Entered;
    TrackedReport(e, f, out);
  }

  /** The timed-out request is requeued in front. */
  lemma RetryGood(e: Engine, c: Config, lastId: nat, out: multiset<Attempt>)
    requires Good(e, c, lastId, out) && e.awaiting.Some?
    requires var r := e.awaiting.value.request; r.guarded && r.attempt < r.maxAttempts
    ensures var r := e.awaiting.value.request;
      var f := Finish(e.(awaiting := None), r, Timeout);
      Good(Requeued(f, NextAttempt(r)), c, lastId, out) && QuietStep(e, Requeued(f, NextAttempt(r)))
  {
    var r := e.awaiting.value.request;
    var f := Finish(e.(awaiting := None), r, Timeout);
    var g := Requeued(f, NextAttempt(r));
    assert Slots(e) == [r] && f == SlotFinished(e, Timeout);
    Retry(e, lastId, Timeout);
    AwaitingOutGood(e, c, lastId, out, Timeout);
    Quiet(f.log, Retried(NextAttempt(r)));
    Snoc(f.log, Retried(NextAttempt(r)));
    RetryBag(f, g, NextAttempt(r));
    SlotIdNotOut(e, out);
    hide Core, Done, HandOffs, LiveBag, Entered, GuardFailure;
    TrackedQuiet(f, g, out);
  }

  lemma SlotIdNotOut(e: Engine, out: multiset<Attempt>)
    requires Tracked(e, out) && e.awaiting.Some? && e.activeWrite.None?
    ensures forall r :: r in out ==> r.id != e.awaiting.value.request.id
  {
    LiveParts(e);
    assert e.awaiting.value.request in LiveBag(e);
  }

  lemma {:induction false} CancelPendingGood(e: Engine, c: Config, lastId: nat, out: multiset<Attempt>)
    requires Good(e, c, lastId, out)
    ensures Good(CancelPending(e), c, lastId, out) && QuietStep(e, CancelPending(e))
    decreases |e.pending|
  {
    hide Good, HandOffs;
    if e.pending != [] {
      FinishedFrontGood(e, c, lastId, out, Canceled);
      CancelPendingGood(Finish(e.(pending := e.pending[1..]), e.pending[0], Canceled), c, lastId, out);
    }
  }

  // ----- runs -----

  /** What the outside world does: the transport reports on a hand-off, the script publishes a batch, the
      periodic check runs, or everything is cancelled (connection reopened, closed, or protocol reloaded). */
  datatype Input =
    | Report(r: Attempt, outcome: Outcome, nowMs: nat, offline: bool, answers: seq<Answer>)
    | Batch(offline: bool, resets: nat, requests: seq<Attempt>, results: seq<bool>, answers: seq<Answer>)
    | Check(nowMs: nat, pipeline: Pipeline, offline: bool, answers: seq<Answer>)
    | Cancel

  function Step(e: Engine, c: Config, input: Input): Engine {
    match input
    case Report(r, outcome, nowMs, offline, answers) => WriteEnded(e, r.id, outcome, nowMs, offline, answers)
    case Batch(offline, resets, requests, results, answers) => Outputs(e, c, offline, resets, requests, results, answers)
    case Check(nowMs, pipeline, offline, answers) => CheckTimeout(e, nowMs, pipeline, offline, answers)
    case Cancel => CancelAll(e)
  }

  /** The engine together with what the outside world still owes it. */
  datatype World = World(engine: Engine, out: multiset<Attempt>, lastId: nat)

  const START: World := World(IDLE, multiset{}, 0)

  /** The assumptions on the outside world: the transport reports once on each hand-off, and the script numbers
      its requests upwards. */
  ghost predicate Possible(w: World, input: Input) {
    match input
    case Report(r, _, _, _, _) => r in w.out
    case Batch(_, _, requests, _, _) => FreshBatch(requests, w.lastId)
    case _ => true
  }

  ghost function NewHandOffs(e: Engine, f: Engine): multiset<Attempt> {
    multiset(HandOffs(f.log)) - multiset(HandOffs(e.log))
  }

  ghost function Advance(w: World, c: Config, input: Input): World {
    var f := Step(w.engine, c, input);
    World(f,
          (if input.Report? then w.out - multiset{input.r} else w.out) + NewHandOffs(w.engine, f),
          if input.Batch? then LastId(input.requests, w.lastId) else w.lastId)
  }

  ghost predicate Possibles(w: World, c: Config, inputs: seq<Input>)
    decreases |inputs|
  {
    inputs == [] || (Possible(w, inputs[0]) && Possibles(Advance(w, c, inputs[0]), c, inputs[1..]))
  }

  ghost function Run(w: World, c: Config, inputs: seq<Input>): World
    decreases |inputs|
  {
    if inputs == [] then w else Run(Advance(w, c, inputs[0]), c, inputs[1..])
  }

  ghost predicate WorldGood(w: World, c: Config) {
    Good(w.engine, c, w.lastId, w.out)
  }

  lemma HandingIsNew(e: Engine, x: Engine, f: Engine)
    requires QuietStep(e, x) && HandOffs(f.log) == HandOffs(x.log) + Handing(x, f)
    ensures NewHandOffs(e, f) == multiset(Handing(x, f))
  {
    hide Handing;
  }

  lemma DrivenIsNew(e: Engine, x: Engine, c: Config, lastId: nat, out: multiset<Attempt>, offline: bool, answers: seq<Answer>)
    requires QuietStep(e, x) && Good(x, c, lastId, out)
    ensures multiset(Handing(x, Drive(x, offline, answers))) == NewHandOffs(e, Drive(x, offline, answers))
  {
    hide Good, NewHandOffs, Drive;
    DriveGood(x, c, lastId, out, offline, answers);
    HandingIsNew(e, x, Drive(x, offline, answers));
  }

  lemma QuietIsNew(e: Engine, f: Engine, out: multiset<Attempt>)
    requires QuietStep(e, f)
    ensures out + NewHandOffs(e, f) == out
  {
  }

  /** A report is about the active write, or about a request that is gone: then nothing happens at all. */
  lemma LateReport(e: Engine, c: Config, lastId: nat, out: multiset<Attempt>, r: Attempt)
    requires Good(e, c, lastId, out) && r in out
    ensures e.activeWrite.Some? && e.activeWrite.value.id == r.id ==> e.activeWrite.value == r
  {
    if e.activeWrite.Some? && e.activeWrite.value != r {
      LiveParts(e);
      assert e.activeWrite.value in LiveBag(e);
    }
  }

  lemma FinalReportGood(e: Engine, c: Config, lastId: nat, out: multiset<Attempt>, outcome: Outcome, offline: bool, answers: seq<Answer>)
    requires Good(e, c, lastId, out) && e.activeWrite.Some?
    ensures var r := e.activeWrite.value;
      var f := Drive(Finish(e.(activeWrite := None), r, outcome), offline, answers);
      Good(f, c, lastId, out - multiset{r} + NewHandOffs(e, f))
  {
    hide Good, HandOffs, Drive, NewHandOffs;
    var r := e.activeWrite.value;
    var x := Finish(e.(activeWrite := None), r, outcome);
    WriteOutGood(e, c, lastId, out, outcome);
    DriveGood(x, c, lastId, out - multiset{r}, offline, answers);
    HandingIsNew(e, x, Drive(x, offline, answers));
  }

  lemma SentReportGood(e: Engine, c: Config, lastId: nat, out: multiset<Attempt>, deadlineMs: nat)
    requires Good(e, c, lastId, out) && e.activeWrite.Some?
    ensures var r := e.activeWrite.value;
      var f := e.(activeWrite := None, awaiting := Some(Waiting(r, deadlineMs)), log := e.log + [Acknowledging(r)]);
      Good(f, c, lastId, out - multiset{r} + NewHandOffs(e, f))
  {
    hide Good, HandOffs, NewHandOffs;
    var r := e.activeWrite.value;
    var f := e.(activeWrite := None, awaiting := Some(Waiting(r, deadlineMs)), log := e.log + [Acknowledging(r)]);
    AwaitGood(e, c, lastId, out, deadlineMs);
    QuietIsNew(e, f, out - multiset{r});
  }

  /** A report about anything but the active write changes nothing. */
  lemma ReportIgnored(e: Engine, c: Config, input: Input)
    requires input.Report? && (e.activeWrite.None? || e.activeWrite.value.id != input.r.id)
    ensures Step(e, c, input) == e
  {
  }

  lemma ReportSent(e: Engine, c: Config, input: Input)
    requires input.Report? && e.activeWrite == Some(input.r) && input.outcome == Sent && input.r.kind == Request
    ensures Step(e, c, input) == e.(activeWrite := None, log := e.log + [Acknowledging(input.r)],
                                    awaiting := Some(Waiting(input.r, input.nowMs + input.r.timeoutMs)))
  {
  }

  lemma ReportFinal(e: Engine, c: Config, input: Input)
    requires input.Report? && e.activeWrite == Some(input.r) && !(input.outcome == Sent && input.r.kind == Request)
    ensures Step(e, c, input)
         == Drive(Finish(e.(activeWrite := None), input.r, input.outcome), input.offline, input.answers)
  {
  }

  /** The world after a report, spelled out. */
  lemma ReportedGood(w: World, c: Config, input: Input)
    requires input.Report?
    ensures var f := Step(w.engine, c, input);
      WorldGood(Advance(w, c, input), c) <==>
      Good(f, c, w.lastId, w.out - multiset{input.r} + NewHandOffs(w.engine, f))
  {
    hide Good, NewHandOffs, Step;
  }

  lemma ReportGood(w: World, c: Config, input: Input)
    requires WorldGood(w, c) && Possible(w, input) && input.Report?
    ensures WorldGood(Advance(w, c, input), c)
  {
    hide Good, HandOffs, NewHandOffs, Step, Advance, FreshBatch;
    var e, r := w.engine, input.r;
    LateReport(e, c, w.lastId, w.out, r);
    ReportedGood(w, c, input);
    if e.activeWrite != Some(r) {
      ReportIgnored(e, c, input);
      IgnoredGood(e, c, w.lastId, w.out, r);
      QuietIsNew(e, e, w.out - multiset{r});
    } else if input.outcome == Sent && r.kind == Request {
      ReportSent(e, c, input);
      SentReportGood(e, c, w.lastId, w.out, input.nowMs + r.timeoutMs);
    } else {
      ReportFinal(e, c, input);
      FinalReportGood(e, c, w.lastId, w.out, input.outcome, input.offline, input.answers);
    }
  }

  lemma IgnoredGood(e: Engine, c: Config, lastId: nat, out: multiset<Attempt>, r: Attempt)
    requires Good(e, c, lastId, out) && r in out && e.activeWrite != Some(r)
    ensures Good(e, c, lastId, out - multiset{r})
  {
    hide Inv, Entered, LiveBag;
  }

  lemma AcknowledgeGood(e: Engine, c: Config, lastId: nat, out: multiset<Attempt>, results: seq<bool>)
    requires Good(e, c, lastId, out)
    ensures Good(Acknowledge(e, results), c, lastId, out) && QuietStep(e, Acknowledge(e, results))
  {
    hide Good, HandOffs;
    if results != [] && e.awaiting.Some? {
      AwaitingOutGood(e, c, lastId, out, if results[0] then Completed else Failed);
    }
  }

  lemma BatchGood(w: World, c: Config, input: Input)
    requires WorldGood(w, c) && Possible(w, input) && input.Batch?
    ensures WorldGood(Advance(w, c, input), c)
  {
    var e := w.engine;
    var last := LastId(input.requests, w.lastId);
    if input.offline {
      LaterIdGood(e, c, w.lastId, w.out, last, input.requests);
      QuietIsNew(e, e, w.out);
    } else {
      hide Good, HandOffs, Drive, NewHandOffs, FreshBatch, LastId;
      ResetsGood(e, c, w.lastId, w.out, input.resets);
      var x1 := ResetGuards(e, input.resets);
      EnqueueAllGood(x1, c, w.lastId, w.out, input.requests);
      var x2 := EnqueueAll(x1, c, input.requests);
      AcknowledgeGood(x2, c, last, w.out, input.results);
      var x := Acknowledge(x2, input.results);
      DriveGood(x, c, last, w.out, false, input.answers);
      HandingIsNew(e, x, Drive(x, false, input.answers));
    }
  }

  lemma LaterIdGood(e: Engine, c: Config, lastId: nat, out: multiset<Attempt>, later: nat, requests: seq<Attempt>)
    requires Good(e, c, lastId, out) && FreshBatch(requests, lastId) && later == LastId(requests, lastId)
    ensures Good(e, c, later, out)
  {
    hide Conserved, GuardKept, Ordered, EnteredOnce, Tracked, Entered, HandOffs;
  }

  lemma CheckGood(w: World, c: Config, input: Input)
    requires WorldGood(w, c) && input.Check?
    ensures WorldGood(Advance(w, c, input), c)
  {
    hide Good, HandOffs, Drive, NewHandOffs;
    var e := w.engine;
    if e.awaiting.None? || input.nowMs < e.awaiting.value.deadlineMs || !Drained(input.pipeline) {
      QuietIsNew(e, e, w.out);
    } else {
      var r := e.awaiting.value.request;
      var f := Finish(e.(awaiting := None), r, Timeout);
      var x := if r.guarded && r.attempt < r.maxAttempts then Requeued(f, NextAttempt(r)) else f;
      if r.guarded && r.attempt < r.maxAttempts {
        RetryGood(e, c, w.lastId, w.out);
      } else {
        AwaitingOutGood(e, c, w.lastId, w.out, Timeout);
      }
      DriveGood(x, c, w.lastId, w.out, input.offline, input.answers);
      HandingIsNew(e, x, Drive(x, input.offline, input.answers));
    }
  }

  lemma CancelGood(w: World, c: Config)
    requires WorldGood(w, c)
    ensures WorldGood(Advance(w, c, Cancel), c)
  {
    hide Good, HandOffs, NewHandOffs;
    var e := w.engine;
    var e1 := if e.activeWrite.Some? then Finish(e, e.activeWrite.value, Canceled).(activeWrite := None) else e;
    if e.activeWrite.Some? {
      WriteCancelledGood(e, c, w.lastId, w.out);
    }
    var e2 := if e1.awaiting.Some? then Finish(e1, e1.awaiting.value.request, Canceled).(awaiting := None) else e1;
    if e1.awaiting.Some? {
      AwaitingOutGood(e1, c, w.lastId, w.out, Canceled);
      assert e2 == Finish(e1.(awaiting := None), e1.awaiting.value.request, Canceled);
    }
    CancelPendingGood(e2, c, w.lastId, w.out);
    QuietIsNew(e, CancelPending(e2), w.out);
  }

  lemma {:induction false} RunGood(w: World, c: Config, inputs: seq<Input>)
    requires WorldGood(w, c) && Possibles(w, c, inputs)
    ensures WorldGood(Run(w, c, inputs), c)
    decreases |inputs|
  {
    hide WorldGood, Advance, Possible;
    if inputs != [] {
      match inputs[0] {
        case Report(_, _, _, _, _) => ReportGood(w, c, inputs[0]);
        case Batch(_, _, _, _, _) => BatchGood(w, c, inputs[0]);
        case Check(_, _, _, _) => CheckGood(w, c, inputs[0]);
        case Cancel => CancelGood(w, c);
      }
      RunGood(Advance(w, c, inputs[0]), c, inputs[1..]);
    }
  }

  lemma StartGood(c: Config)
    ensures WorldGood(START, c)
  {
    IdleInv(c);
  }

  lemma Reached(c: Config, inputs: seq<Input>)
    requires Possibles(START, c, inputs)
    ensures WorldGood(Run(START, c, inputs), c)
  {
    StartGood(c);
    RunGood(START, c, inputs);
  }

  // ----- what every run keeps -----

  /** `b` was handed over some hand-offs after `a`: it is a later request, or that much later an attempt of the
      same one. */
  predicate HandedInOrder(a: Attempt, b: Attempt, later: nat) {
    a.id < b.id || (a.guarded && b == a.(attempt := a.attempt + later) && b.attempt <= b.maxAttempts)
  }

  /** Every attempt that ever entered is, exactly once, either waiting, in a slot, or finished; no attempt
      enters or is finished twice; and at most one slot is occupied. */
  lemma EachAttemptOnce(c: Config, inputs: seq<Input>, r: Attempt)
    requires Possibles(START, c, inputs)
    ensures var e := Run(START, c, inputs).engine;
      && Entered(e.log)[r] == Done(e.log)[r] + multiset(e.pending)[r] + multiset(Slots(e))[r] <= 1
      && (e.activeWrite.None? || e.awaiting.None?)
  {
    var w := Run(START, c, inputs);
    Reached(c, inputs);
    hide Run, Good;
    GoodOnce(w.engine, c, w.lastId, w.out, r);
  }

  lemma GoodOnce(e: Engine, c: Config, lastId: nat, out: multiset<Attempt>, r: Attempt)
    requires Good(e, c, lastId, out)
    ensures Entered(e.log)[r] == Done(e.log)[r] + multiset(e.pending)[r] + multiset(Slots(e))[r] <= 1
    ensures OneSlot(e)
  {
    LiveParts(e);
    hide Ordered, GuardKept, Known, Tracked, Entered, Done, LiveBag;
  }

  /** Hand-offs follow the order of acceptance; attempts of one request are consecutive, numbered upwards,
      and never more than its maximum. */
  lemma HandOffOrder(c: Config, inputs: seq<Input>, i: nat, j: nat)
    requires Possibles(START, c, inputs)
    requires i < j < |HandOffs(Run(START, c, inputs).engine.log)|
    ensures var h := HandOffs(Run(START, c, inputs).engine.log); HandedInOrder(h[i], h[j], j - i)
  {
    var w := Run(START, c, inputs);
    Reached(c, inputs);
    hide Run, Good, HandOffs;
    GoodHandOffs(w.engine, c, w.lastId, w.out, i, j);
  }

  lemma GoodHandOffs(e: Engine, c: Config, lastId: nat, out: multiset<Attempt>, i: nat, j: nat)
    requires Good(e, c, lastId, out) && i < j < |HandOffs(e.log)|
    ensures HandedInOrder(HandOffs(e.log)[i], HandOffs(e.log)[j], j - i)
  {
    hide Conserved, GuardKept, Known, EnteredOnce, Tracked, HandOffs;
    FollowsChain(HandOffs(e.log), i, j);
  }

  lemma {:induction false} FollowsChain(h: seq<Attempt>, i: nat, j: nat)
    requires forall k :: 0 <= k < |h| - 1 ==> Follows(h[k], h[k + 1])
    requires i < j < |h|
    ensures HandedInOrder(h[i], h[j], j - i)
    decreases j
  {
    assert Follows(h[j - 1], h[j]);
    if i < j - 1 {
      FollowsChain(h, i, j - 1);
    }
  }

  /** Waiting and active requests together never exceed the configured limit, whatever the overflow policy. */
  lemma QueueBound(c: Config, inputs: seq<Input>)
    requires Possibles(START, c, inputs)
    ensures var e := Run(START, c, inputs).engine; |e.pending| + Busy(e) <= c.maxPending
  {
    Reached(c, inputs);
    hide Run, Core, Tracked;
  }

  /** The end of a guarded attempt that opens the breaker. */
  predicate Terminal(event: Event) {
    && event.Finished? && event.r.guarded
    && (event.outcome in {Failed, Rejected, Dropped} || (event.outcome == Timeout && event.r.attempt >= event.r.maxAttempts))
  }

  /** Some guarded attempt failed for good, and the breaker was not reset since. */
  ghost predicate OpenSince(log: seq<Event>, k: nat) {
    k < |log| && Terminal(log[k]) && forall m :: k < m < |log| ==> !log[m].GuardReset?
  }

  lemma OneMoreEntry(log: seq<Event>, event: Event, k: nat)
    ensures OpenSince(log + [event], k) <==> if k == |log| then Terminal(event) else OpenSince(log, k) && !event.GuardReset?
    ensures OpenSince(log, k) ==> k < |log|
  {
    var more := log + [event];
    assert forall m :: 0 <= m < |log| ==> more[m] == log[m];
    assert more[|log|] == event;
  }

  lemma {:induction false} TrippedMeans(log: seq<Event>)
    ensures Tripped(log) <==> exists k: nat :: OpenSince(log, k)
    decreases |log|
  {
    if log != [] {
      hide OpenSince, Tripped;
      var before, last := log[..|log| - 1], log[|log| - 1];
      assert log == before + [last];
      Snoc(before, last);
      TrippedMeans(before);
      OneMoreEntry(before, last, |before|);
      if k: nat :| OpenSince(log, k) {
        OneMoreEntry(before, last, k);
      }
      if k: nat :| OpenSince(before, k) {
        OneMoreEntry(before, last, k);
      }
    }
  }

  /** The breaker is open exactly when a guarded attempt failed for good since the last reset, and no guarded
      attempt was ever handed over while it was open. */
  lemma GuardLatch(c: Config, inputs: seq<Input>)
    requires Possibles(START, c, inputs)
    ensures var e := Run(START, c, inputs).engine;
      && (e.halted <==> exists k: nat :: OpenSince(e.log, k))
      && forall k, i: nat :: 0 <= k < |e.log| && e.log[k].Handed? && e.log[k].r.guarded ==> !OpenSince(e.log[..k], i)
  {
    var e := Run(START, c, inputs).engine;
    Reached(c, inputs);
    hide Run, Conserved, Ordered, Known, EnteredOnce, Tracked, Tripped, OpenSince;
    TrippedMeans(e.log);
    forall k, i: nat | 0 <= k < |e.log| && e.log[k].Handed? && e.log[k].r.guarded
      ensures !OpenSince(e.log[..k], i)
    {
      TrippedMeans(e.log[..k]);
    }
  }

  lemma {:induction false} DoneGrows(log: seq<Event>, i: nat, j: nat, r: Attempt)
    requires i <= j <= |log|
    ensures Done(log[..i])[r] <= Done(log[..j])[r]
    decreases j
  {
    if i < j {
      assert log[..j][..j - 1] == log[..j - 1];
      DoneGrows(log, i, j - 1, r);
    }
  }

  lemma DoneCounts(log: seq<Event>, i: nat)
    requires i < |log| && log[i].Finished?
    ensures Done(log[..i + 1])[log[i].r] == Done(log[..i])[log[i].r] + 1
  {
    assert log[..i + 1][..i] == log[..i];
  }

  lemma Reported(log: seq<Event>, i: nat, j: nat)
    requires i < j < |log| && log[i].Finished? && log[j].Finished?
    ensures Done(log)[log[j].r] >= if log[i].r == log[j].r then 2 else 1
  {
    hide Done;
    DoneCounts(log, i);
    DoneGrows(log, i + 1, j, log[j].r);
    DoneCounts(log, j);
    DoneGrows(log, j + 1, |log|, log[j].r);
    assert log[..|log|] == log;
  }

  /** No attempt is given two final outcomes, and none that never entered is given one. */
  lemma FinishedOnce(c: Config, inputs: seq<Input>, i: nat, j: nat)
    requires Possibles(START, c, inputs)
    requires var log := Run(START, c, inputs).engine.log; i < j < |log| && log[i].Finished? && log[j].Finished?
    ensures var log := Run(START, c, inputs).engine.log; log[i].r != log[j].r && log[j].r in Entered(log)
  {
    hide *;
    var log := Run(START, c, inputs).engine.log;
    EachAttemptOnce(c, inputs, log[j].r);
    Reported(log, i, j);
  }

  /** A report on a write that is no longer active, say because it was cancelled, changes nothing. */
  lemma LateReportIgnored(c: Config, inputs: seq<Input>, report: Input)
    requires Possibles(START, c, inputs) && report.Report? && Possible(Run(START, c, inputs), report)
    requires Run(START, c, inputs).engine.activeWrite != Some(report.r)
    ensures Step(Run(START, c, inputs).engine, c, report) == Run(START, c, inputs).engine
  {
    var w := Run(START, c, inputs);
    Reached(c, inputs);
    hide Run, Inv;
    LateReport(w.engine, c, w.lastId, w.out, report.r);
    ReportIgnored(w.engine, c, report);
  }

  lemma {:induction false} CancelPendingEmpty(e: Engine)
    ensures CancelPending(e).pending == [] && Slots(CancelPending(e)) == Slots(e)
    decreases |e.pending|
  {
    if e.pending != [] {
      CancelPendingEmpty(Finish(e.(pending := e.pending[1..]), e.pending[0], Canceled));
    }
  }

  /** Cancelling leaves nothing waiting and nothing in a slot. */
  lemma CancelEmpties(e: Engine)
    ensures Live(CancelAll(e)) == []
  {
    var e1 := if e.activeWrite.Some? then Finish(e, e.activeWrite.value, Canceled).(activeWrite := None) else e;
    var e2 := if e1.awaiting.Some? then Finish(e1, e1.awaiting.value.request, Canceled).(awaiting := None) else e1;
    CancelPendingEmpty(e2);
  }

  // ----- acknowledgement against timeout -----

  /** The inputs that may take a request out of its acknowledgement wait at the given deadline. */
  predicate EndsWait(input: Input, deadlineMs: nat) {
    match input
    case Report(_, _, _, _, _) => false
    case Batch(offline, _, _, results, _) => !offline && results != []
    case Check(nowMs, pipeline, _, _) => nowMs >= deadlineMs && Drained(pipeline)
    case Cancel => true
  }

  lemma {:induction false} EnqueueAllAwaiting(e: Engine, c: Config, requests: seq<Attempt>)
    ensures EnqueueAll(e, c, requests).awaiting == e.awaiting
    decreases |requests|
  {
    if requests != [] {
      EnqueueAllAwaiting(Enqueue(e, c, requests[0]), c, requests[1..]);
    }
  }

  lemma {:induction false} ResetsAwaiting(e: Engine, times: nat)
    ensures ResetGuards(e, times).awaiting == e.awaiting
    decreases times
  {
    if times > 0 {
      ResetsAwaiting(ResetGuard(e), times - 1);
    }
  }

  /** What the scheduler loop adds to the log: hand-offs and rejections only. */
  lemma {:induction false} DriveLog(e: Engine, offline: bool, answers: seq<Answer>) returns (more: seq<Event>)
    ensures Drive(e, offline, answers).log == e.log + more
    ensures forall event :: event in more ==> event.Handed? || (event.Finished? && event.outcome == Rejected)
    decreases |e.pending|
  {
    if offline || !CanDrive(e) {
      more := [];
    } else {
      var x := DriveOne(e, First(answers));
      var later := DriveLog(x, offline, Rest(answers));
      more := x.log[|e.log|..] + later;
      assert x.log == e.log + x.log[|e.log|..];
    }
  }

  lemma {:induction false} EnteredSame(log: seq<Event>, more: seq<Event>)
    requires forall event :: event in more ==> EnteredBy(event) == multiset{}
    ensures Entered(log + more) == Entered(log)
    decreases |more|
  {
    if more == [] {
      assert log + more == log;
    } else {
      var init, last := more[..|more| - 1], more[|more| - 1];
      assert log + more == (log + init) + [last];
      Snoc(log + init, last);
      EnteredSame(log, init);
    }
  }

  lemma NextNotEntered(e: Engine, c: Config, lastId: nat, out: multiset<Attempt>)
    requires Good(e, c, lastId, out) && e.activeWrite.Some?
    ensures NextAttempt(e.activeWrite.value) !in Entered(e.log)
  {
    LiveParts(e);
    assert e.activeWrite.value in LiveBag(e);
  }

  /** The engine a timeout check drives on from: the request timed out and, if it may, requeued. */
  function TimedOut(e: Engine): Engine
    requires e.awaiting.Some?
  {
    var r := e.awaiting.value.request;
    var f := Finish(e.(awaiting := None), r, Timeout);
    if r.guarded && r.attempt < r.maxAttempts then Requeued(f, NextAttempt(r)) else f
  }

  lemma CheckCases(e: Engine, c: Config, input: Input)
    requires input.Check? && e.awaiting.Some?
    ensures Step(e, c, input) ==
      if EndsWait(input, e.awaiting.value.deadlineMs) then Drive(TimedOut(e), input.offline, input.answers) else e
  {
    hide Drive;
  }

  lemma BatchKeepsWait(e: Engine, c: Config, input: Input)
    requires input.Batch? && e.awaiting.Some? && !EndsWait(input, e.awaiting.value.deadlineMs)
    ensures Step(e, c, input).awaiting == e.awaiting
  {
    hide Enqueue;
    ResetsAwaiting(e, input.resets);
    EnqueueAllAwaiting(ResetGuards(e, input.resets), c, input.requests);
  }

  /** A request awaiting its acknowledgement is only ever ended by an acknowledgement, by cancellation, or by a
      check after the deadline that finds every stage of the receive pipeline empty: bytes already received,
      which may carry the acknowledgement, always go first. Such a check does end it. */
  lemma WaitEnds(w: World, c: Config, input: Input)
    requires WorldGood(w, c) && w.engine.awaiting.Some?
    ensures var e, f := w.engine, Step(w.engine, c, input);
      && (f.awaiting != e.awaiting ==> EndsWait(input, e.awaiting.value.deadlineMs))
      && (input.Check? && EndsWait(input, e.awaiting.value.deadlineMs) ==>
            f.awaiting.None? && Finished(e.awaiting.value.request, Timeout) in f.log)
  {
    var e := w.engine;
    assert e.activeWrite.None?;
    hide Inv, Tracked, Drive, Enqueue, Outputs, Step;
    match input
    case Report(_, _, _, _, _) => ReportIgnored(e, c, input);
    case Batch(_, _, _, _, _) =>
      if !EndsWait(input, e.awaiting.value.deadlineMs) {
        BatchKeepsWait(e, c, input);
      }
    case Check(_, _, offline, answers) =>
      CheckCases(e, c, input);
      var x := TimedOut(e);
      var more := DriveLog(x, offline, answers);
      DriveAwaiting(x, offline, answers);
      assert x.log[|e.log|] == Finished(e.awaiting.value.request, Timeout);
      assert (x.log + more)[|e.log|] == x.log[|e.log|];
    case Cancel =>
  }

  lemma {:induction false} DriveAwaiting(e: Engine, offline: bool, answers: seq<Answer>)
    ensures Drive(e, offline, answers).awaiting == e.awaiting
    decreases |e.pending|
  {
    if !offline && CanDrive(e) {
      DriveAwaiting(DriveOne(e, First(answers)), offline, Rest(answers));
    }
  }

  lemma ReportedRetry(e: Engine, c: Config, lastId: nat, out: multiset<Attempt>, input: Input)
    requires Good(e, c, lastId, out) && input.Report? && input.outcome == Timeout && e.activeWrite == Some(input.r)
    ensures NextAttempt(input.r) !in Entered(Step(e, c, input).log)
    ensures Finished(input.r, Timeout) in Step(e, c, input).log
  {
    var r := input.r;
    NextNotEntered(e, c, lastId, out);
    ReportFinal(e, c, input);
    hide Good, Drive, Step;
    var x := Finish(e.(activeWrite := None), r, Timeout);
    var more := DriveLog(x, input.offline, input.answers);
    EnteredSame(x.log, more);
    Snoc(e.log, Finished(r, Timeout));
    assert (x.log + more)[|e.log|] == Finished(r, Timeout);
  }

  lemma CheckedRetry(e: Engine, c: Config, input: Input)
    requires input.Check? && e.awaiting.Some? && EndsWait(input, e.awaiting.value.deadlineMs)
    requires var r := e.awaiting.value.request; r.guarded && r.attempt < r.maxAttempts
    ensures NextAttempt(e.awaiting.value.request) in Entered(Step(e, c, input).log)
  {
    CheckCases(e, c, input);
    hide Drive, Step;
    var r := e.awaiting.value.request;
    var x := TimedOut(e);
    var more := DriveLog(x, input.offline, input.answers);
    EnteredSame(x.log, more);
    Snoc(Finish(e.(awaiting := None), r, Timeout).log, Retried(NextAttempt(r)));
  }

  /** The documented promise of the guard state "retrying" is that the next attempt goes back to the front of
      the queue. Of the two ways a guarded attempt before its last can time out, the promise is kept exactly
      by the acknowledgement timeout; a write that times out in the transport is reported as retrying too,
      but its next attempt never enters. */
  lemma RetryingPromise(w: World, c: Config, input: Input, r: Attempt)
    requires WorldGood(w, c) && ReportedGuard(r, Timeout) == Some(Retrying)
    requires
      || (input.Report? && input.outcome == Timeout && input.r == r && w.engine.activeWrite == Some(r))
      || (input.Check? && w.engine.awaiting.Some? && w.engine.awaiting.value.request == r
          && EndsWait(input, w.engine.awaiting.value.deadlineMs))
    ensures Finished(r, Timeout) in Step(w.engine, c, input).log
    ensures NextAttempt(r) in Entered(Step(w.engine, c, input).log) <==> input.Check?
  {
    if input.Report? {
      hide Good, Step;
      ReportedRetry(w.engine, c, w.lastId, w.out, input);
    } else {
      WaitEnds(w, c, input);
      hide Good, Step;
      CheckedRetry(w.engine, c, input);
    }
  }

  /** A request of two attempts whose first write times out in the transport: reported as retrying, and gone. */
  lemma WriteTimeoutNotRetried()
    ensures
      var c, r := Config(4, RejectNew, 100, 100), Attempt(1, Request, true, 1, 2, 50);
      var inputs := [Batch(false, 0, [r], [], [Takes]), Report(r, Timeout, 10, false, [])];
      && Possibles(START, c, inputs) && ReportedGuard(r, Timeout) == Some(Retrying)
      && Finished(r, Timeout) in Run(START, c, inputs).engine.log
      && NextAttempt(r) !in Entered(Run(START, c, inputs).engine.log)
  {
    hide *;
    var c, r := Config(4, RejectNew, 100, 100), Attempt(1, Request, true, 1, 2, 50);
    var batch, report := Batch(false, 0, [r], [], [Takes]), Report(r, Timeout, 10, false, []);
    OneInput(START, c, batch);
    TwoInputs(START, c, batch, report);
    FirstHandOff(c, r, batch);
    ConcreteRequest(r);
    Reached(c, [batch]);
    LostByReport(Advance(START, c, batch), c, report, r);
  }

  lemma ConcreteRequest(r: Attempt)
    requires r == Attempt(1, Request, true, 1, 2, 50)
    ensures ReportedGuard(r, Timeout) == Some(Retrying)
  {
  }

  lemma OneInput(w: World, c: Config, first: Input)
    ensures Possibles(w, c, [first]) <==> Possible(w, first)
    ensures Run(w, c, [first]) == Advance(w, c, first)
  {
    hide Possible, Advance;
    assert [first][1..] == [];
  }

  lemma TwoInputs(w: World, c: Config, first: Input, second: Input)
    ensures Possibles(w, c, [first, second]) <==> Possible(w, first) && Possible(Advance(w, c, first), second)
    ensures Run(w, c, [first, second]) == Advance(Advance(w, c, first), c, second)
  {
    hide Possible, Advance;
    assert [first, second][1..] == [second];
    OneInput(Advance(w, c, first), c, second);
  }

  lemma LostByReport(w: World, c: Config, report: Input, r: Attempt)
    requires WorldGood(w, c) && report.Report? && report.outcome == Timeout && report.r == r
    requires w.engine.activeWrite == Some(r) && ReportedGuard(r, Timeout) == Some(Retrying)
    ensures Finished(r, Timeout) in Advance(w, c, report).engine.log
    ensures NextAttempt(r) !in Entered(Advance(w, c, report).engine.log)
  {
    hide WorldGood, Step;
    RetryingPromise(w, c, report, r);
  }

  lemma FirstHandOff(c: Config, r: Attempt, batch: Input)
    requires c.maxPending > 0 && r.id > 0 && r.attempt == 1 && r.maxAttempts >= 1 && r.timeoutMs > 0
    requires batch == Batch(false, 0, [r], [], [Takes])
    ensures Possible(START, batch) && Advance(START, c, batch).engine.activeWrite == Some(r)
    ensures forall outcome, nowMs, offline, answers ::
      Possible(Advance(START, c, batch), Report(r, outcome, nowMs, offline, answers))
  {
    hide Step, HandOffs;
    FirstStep(c, r, batch);
    FirstHanded(r);
  }

  lemma FirstHanded(r: Attempt)
    ensures HandOffs([Submitted(r), Handed(r)]) == [r] && HandOffs([]) == []
  {
    Snoc([], Submitted(r));
    Snoc([Submitted(r)], Handed(r));
    assert [] + [Submitted(r)] == [Submitted(r)] && [Submitted(r)] + [Handed(r)] == [Submitted(r), Handed(r)];
  }

  lemma FirstStep(c: Config, r: Attempt, batch: Input)
    requires c.maxPending > 0 && r.attempt == 1 && r.maxAttempts >= 1 && r.timeoutMs > 0
    requires batch == Batch(false, 0, [r], [], [Takes])
    ensures Step(IDLE, c, batch) == Engine([], Some(r), None, false, [Submitted(r), Handed(r)])
  {
    var queued := Engine([r], None, None, false, [Submitted(r)]);
    assert Enqueue(IDLE, c, r) == queued;
    OneQueued(IDLE, c, r);
    OneTaken(queued);
    assert [Submitted(r)] + [Handed(r)] == [Submitted(r), Handed(r)] && [r][1..] == [];
  }

  lemma OneQueued(e: Engine, c: Config, r: Attempt)
    ensures EnqueueAll(e, c, [r]) == Enqueue(e, c, r)
  {
    hide Enqueue;
    assert [r][1..] == [];
  }

  lemma OneTaken(e: Engine)
    requires CanDrive(e) && DriveOne(e, Takes).activeWrite.Some?
    ensures Drive(e, false, [Takes]) == DriveOne(e, Takes)
  {
    hide DriveOne;
    assert [Takes][1..] == [];
  }
}
