/** Parsed rows waiting to be shown, and the account of how many rows of a finished rebuild were shown or
  * dropped. */
module FrameRows {
  import opened Basics

  datatype Phase = Rebuilding | Display | Completed

  datatype Status = Status(phase: Phase, displayTotal: nat, displayPending: nat, displaySubmitted: nat, discardedRows: nat)

  /** Every row handed over is still waiting, was shown, or was dropped since. */
  predicate Balanced(s: Status, discardedBefore: nat) {
    && discardedBefore <= s.discardedRows
    && s.displayTotal == s.displayPending + s.displaySubmitted + (s.discardedRows - discardedBefore)
  }

  /** The front of the queue stays the end of the handed rows when rows leave it. */
  lemma FrontLeaves<R>(queue: seq<R>, handed: seq<R>, unsettled: nat, n: nat)
    requires n <= |queue| && unsettled <= |queue| && unsettled <= |handed|
    requires queue[..unsettled] == handed[|handed| - unsettled..]
    ensures var left := unsettled - Min(n, unsettled);
      left <= |queue| - n && queue[n..][..left] == handed[|handed| - left..]
  {
    if n < unsettled {
      assert queue[n..][..unsettled - n] == queue[..unsettled][n..];
      assert handed[|handed| - unsettled..][n..] == handed[|handed| - unsettled + n..];
    }
  }

  class PendingRows<R(==)> {
    var pending: seq<R>
    var shown: seq<R>
    var status: Option<Status>

    /** The rows of the finished rebuild, and what the task had dropped before it handed them over. */
    ghost var handed: seq<R>
    ghost var discardedBefore: nat

    /** The rows of the rebuild that are not settled are the front of the queue, in their order. */
    ghost predicate Accounted()
      reads this
    {
      status.Some? && !status.value.phase.Rebuilding? ==>
        var s := status.value;
        && Balanced(s, discardedBefore)
        && s.displayTotal == |handed| && s.displayPending <= |pending|
        && pending[..s.displayPending] == handed[|handed| - s.displayPending..]
        && (s.phase.Completed? ==> s.displayPending == 0)
    }

    ghost predicate Valid()
      reads this
    {
      && Accounted()
      && (status.Some? && status.value.phase.Display? ==> status.value.displayPending > 0)
    }

    constructor ()
      ensures Valid() && pending == [] && shown == [] && status == None
    {
      pending, shown, status, handed, discardedBefore := [], [], None, [], 0;
    }

    /** Notes that the first `count` rows of the queue are about to leave it. */
    method SettleTransferHistoryRows(count: nat, discarded: bool)
      requires status.Some? && status.value.phase.Display? ==> Balanced(status.value, discardedBefore)
      modifies `status
      ensures old(status).None? || !old(status).value.phase.Display? ==> status == old(status)
      ensures old(status).Some? && old(status).value.phase.Display? ==>
        && status.Some? && Balanced(status.value, discardedBefore)
        && var before, amount := old(status).value, Min(count, old(status).value.displayPending);
           status.value == Status(if amount == before.displayPending then Completed else Display, before.displayTotal,
             before.displayPending - amount, before.displaySubmitted + (if discarded then 0 else amount),
             before.discardedRows + (if discarded then amount else 0))
    {
      if status.None? || !status.value.phase.Display? {
        return;
      }
      var s := status.value;
      var amount := Min(count, s.displayPending);
      s := s.(displayPending := s.displayPending - amount);
      if discarded {
        s := s.(discardedRows := s.discardedRows + amount);
      } else {
        s := s.(displaySubmitted := s.displaySubmitted + amount);
      }
      if s.displayPending == 0 {
        s := s.(phase := Completed);
      }
      status := Some(s);
    }

    /** Drops the oldest waiting rows beyond the limit. */
    method TrimPendingTransferFrameRowsToLimit(limit: nat)
      requires Accounted()
      modifies `pending, `status
      ensures Accounted() && (old(Valid()) ==> Valid())
      ensures pending == old(pending)[|old(pending)| - Min(limit, |old(pending)|)..]
      ensures status.Some? <==> old(status).Some?
      ensures status.Some? && !status.value.phase.Rebuilding? ==>
        status.value.displaySubmitted == old(status).value.displaySubmitted
      ensures status.Some? ==> (status.value.phase.Rebuilding? <==> old(status).value.phase.Rebuilding?)
    {
      var rows;
      if limit == 0 {
        rows := Leave(|pending|, true);
        return;
      }
      if |pending| <= limit {
        return;
      }
      rows := Leave(|pending| - limit, true);
    }

    /** Takes the first `count` rows off the queue, one by one, and settles them. */
    method Leave(count: nat, discarded: bool) returns (rows: seq<R>)
      requires Accounted() && count <= |pending|
      modifies `pending, `status
      ensures Accounted() && (old(Valid()) ==> Valid())
      ensures rows == old(pending)[..count] && pending == old(pending)[count..]
      ensures status.Some? <==> old(status).Some?
      ensures status.Some? ==> (status.value.phase.Rebuilding? <==> old(status).value.phase.Rebuilding?)
      ensures status.Some? && !status.value.phase.Rebuilding? && discarded ==>
        status.value.displaySubmitted == old(status).value.displaySubmitted
    {
      if status.Some? && !status.value.phase.Rebuilding? {
        FrontLeaves(pending, handed, status.value.displayPending, count);
      }
      rows := [];
      ghost var before := pending;
      while |rows| < count
        invariant |rows| <= count && rows == before[..|rows|] && pending == before[|rows|..]
        invariant status == old(status)
      {
        rows := rows + [pending[0]];
        pending := pending[1..];
      }
      SettleTransferHistoryRows(count, discarded);
    }

    /** Rows parsed from live data go to the end of the queue. */
    method EnqueueTransferFrameRows(rows: seq<R>, limit: nat)
      requires Valid()
      modifies `pending, `status
      ensures Valid()
      ensures rows == [] ==> unchanged(this)
      ensures rows != [] ==>
        var all := old(pending) + rows;
        pending == all[|all| - Min(limit, |all|)..]
    {
      if rows == [] {
        return;
      }
      ghost var before := pending;
      for i := 0 to |rows|
        invariant pending == before + rows[..i]
        invariant Valid() && status == old(status)
      {
        pending := pending + [rows[i]];
      }
      assert rows[..|rows|] == rows;
      TrimPendingTransferFrameRowsToLimit(limit);
    }

    /** Shows up to `maxRows` waiting rows, unless a rebuild is running. */
    method FlushPendingTransferFrameRows(maxRows: nat, limit: nat, rebuilding: bool) returns (any: bool)
      requires Accounted()
      modifies `pending, `shown, `status
      ensures Accounted() && (old(Valid()) ==> Valid())
      ensures any == (!rebuilding && old(pending) != [] && maxRows > 0)
      ensures !any ==> unchanged(this)
      ensures any ==>
        var n := Min(maxRows, |old(pending)|);
        && shown == old(shown) + old(pending)[..n]
        && pending == old(pending)[|old(pending)| - Min(limit, |old(pending)| - n)..]
      ensures status.Some? <==> old(status).Some?
      ensures status.Some? ==> (status.value.phase.Rebuilding? <==> old(status).value.phase.Rebuilding?)
    {
      if rebuilding || pending == [] || maxRows == 0 {
        return false;
      }
      var rows := Leave(Min(maxRows, |pending|), false);
      shown := shown + rows;
      TrimPendingTransferFrameRowsToLimit(limit);
      any := true;
    }

    /** A finished rebuild replaces the shown and the waiting rows by its own; they are then settled as they
      * leave the queue, whatever live rows are added behind them. */
    method HandOver(rebuilt: seq<R>, limit: nat, maxRows: nat)
      requires status.Some? && status.value.phase.Rebuilding?
      modifies this
      ensures Valid() && status.Some? && !status.value.phase.Rebuilding?
      ensures handed == rebuilt && discardedBefore == old(status).value.discardedRows
      ensures status.value.displayTotal == |rebuilt|
      ensures var kept := rebuilt[|rebuilt| - Min(limit, |rebuilt|)..];
        shown == kept[..Min(maxRows, |kept|)] && pending == kept[Min(maxRows, |kept|)..]
    {
      hide Balanced;
      Replace(rebuilt);
      TrimPendingTransferFrameRowsToLimit(limit);
      ghost var kept := pending;
      var any := FlushPendingTransferFrameRows(maxRows, limit, false);
      assert [] + kept[..Min(maxRows, |kept|)] == kept[..Min(maxRows, |kept|)];
      SettleNothing();
    }

    method Replace(rebuilt: seq<R>)
      requires status.Some? && status.value.phase.Rebuilding?
      modifies this
      ensures Accounted() && pending == rebuilt && shown == [] && handed == rebuilt
      ensures discardedBefore == old(status).value.discardedRows
      ensures status.Some? && status.value.phase.Display?
    {
      var s := status.value;
      shown := [];
      status := Some(Status(Display, |rebuilt|, |rebuilt|, 0, s.discardedRows));
      pending, handed, discardedBefore := rebuilt, rebuilt, s.discardedRows;
    }

    /** A result without rows is complete at once. */
    method SettleNothing()
      requires Accounted() && status.Some? && !status.value.phase.Rebuilding?
      modifies `status
      ensures Valid() && status.Some? && !status.value.phase.Rebuilding? && status.value.displayTotal == |handed|
    {
      SettleTransferHistoryRows(0, false);
    }
  }
}
