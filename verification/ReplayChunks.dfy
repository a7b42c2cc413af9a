/** Replaying recorded bytes to the parser: they are cut into chunks of a fixed size whatever the events were,
  * and the parser is waited for after a bounded number of bytes. */
module ReplayChunks {
  import opened Basics
  import opened Bytes

  datatype StreamBuffer = StreamBuffer(capacity: nat, dropOldest: bool)

  const LARGE_CHUNK: nat := 65536
  const SYNC_BYTES: nat := 1048576

  /** The chunk size for a stream buffer.  A buffer that drops its oldest bytes is never filled by more than
    * half with one chunk, unless it is too small for that. */
  function ChunkBytes(buffer: Option<StreamBuffer>): (n: nat)
    ensures n >= 1
    ensures buffer.Some? && buffer.value.dropOldest && buffer.value.capacity >= 2 ==>
      2 * n <= buffer.value.capacity < 2 * n + 2
    ensures buffer.Some? && buffer.value.dropOldest && buffer.value.capacity < 2 ==> n == 1
    ensures buffer.None? || !buffer.value.dropOldest ==> n == 65536
  {
    match buffer
    case None => LARGE_CHUNK
    case Some(b) =>
      if b.dropOldest then (if b.capacity / 2 < 1 then 1 else b.capacity / 2) else LARGE_CHUNK
  }

  function Joined(chunks: seq<seq<byte>>): seq<byte> {
    if chunks == [] then [] else chunks[0] + Joined(chunks[1..])
  }

  lemma {:induction false} JoinedSnoc(chunks: seq<seq<byte>>, c: seq<byte>)
    ensures Joined(chunks + [c]) == Joined(chunks) + c
  {
    if chunks == [] {
      assert [c][1..] == [] && chunks + [c] == [c];
      assert c + [] == c;
    } else {
      assert (chunks + [c])[1..] == chunks[1..] + [c];
      JoinedSnoc(chunks[1..], c);
      assert chunks[0] + (Joined(chunks[1..]) + c) == chunks[0] + Joined(chunks[1..]) + c;
    }
  }

  /** The bytes in pieces of `size`, the last one possibly shorter. */
  function Pieces(bytes: seq<byte>, size: nat): seq<seq<byte>>
    requires size > 0
    decreases |bytes|
  {
    if bytes == [] then []
    else if |bytes| <= size then [bytes]
    else [bytes[..size]] + Pieces(bytes[size..], size)
  }

  lemma {:induction false} PiecesJoin(bytes: seq<byte>, size: nat)
    requires size > 0
    ensures Joined(Pieces(bytes, size)) == bytes
    ensures forall p :: p in Pieces(bytes, size) ==> 0 < |p| <= size
    decreases |bytes|
  {
    hide Pieces;
    if bytes == [] {
      NoPieces(size);
    } else {
      var n := if size < |bytes| then size else |bytes|;
      OnePiece(bytes, size, n);
      PiecesJoin(bytes[n..], size);
      var rest := Pieces(bytes[n..], size);
      assert ([bytes[..n]] + rest)[1..] == rest;
      assert bytes[..n] + bytes[n..] == bytes;
    }
  }

  /** The batching of one replay. */
  class Batcher {
    const chunkBytes: nat
    var batch: seq<byte>
    var pendingBytes: nat
    /** What was posted to the worker, and the pieces the frame view was given. */
    var posted: seq<seq<byte>>
    var shown: seq<seq<byte>>
    /** All bytes replayed, and how many of the posted ones the worker was waited for. */
    ghost var replayed: seq<byte>
    ghost var synced: nat

    ghost predicate Valid()
      reads this
    {
      && chunkBytes >= 1 && |batch| < chunkBytes
      && replayed == Joined(posted) + batch && Joined(shown) == replayed
      && (forall c :: c in posted ==> 0 < |c| <= chunkBytes)
      && (forall c :: c in shown ==> 0 < |c| <= chunkBytes)
      && synced + pendingBytes == |Joined(posted)|
    }

    constructor (buffer: Option<StreamBuffer>)
      ensures Valid() && replayed == [] && posted == [] && pendingBytes == 0 && batch == []
      ensures chunkBytes == ChunkBytes(buffer)
    {
      chunkBytes := ChunkBytes(buffer);
      batch, pendingBytes, posted, shown, replayed, synced := [], 0, [], [], [], 0;
    }

    method Post(chunk: seq<byte>)
      modifies `posted
      ensures posted == old(posted) + [chunk] && Joined(posted) == Joined(old(posted)) + chunk
    {
      JoinedSnoc(posted, chunk);
      posted := posted + [chunk];
    }

    /** Posts what is held and waits for the worker. */
    method FlushRawCaptureReplayBatch()
      requires Valid()
      modifies `batch, `posted, `pendingBytes, `synced
      ensures Valid() && batch == [] && pendingBytes == 0
      ensures Joined(posted) == replayed && synced == |replayed|
      ensures posted == old(posted) + if old(batch) == [] then [] else [old(batch)]
    {
      hide Joined;
      if batch != [] {
        pendingBytes := pendingBytes + |batch|;
        Post(batch);
        batch := [];
        assert replayed == Joined(posted) + [];
      }
      if pendingBytes == 0 {
        return;
      }
      synced := synced + pendingBytes;
      pendingBytes := 0;
    }

    /** Takes the bytes of one event.  Afterwards fewer bytes are held than make up a chunk, every posted chunk
      * made here is a full one, and fewer bytes than the threshold are not waited for. */
    method EnqueueRawCaptureBytes(bytes: seq<byte>)
      requires Valid() && pendingBytes + |batch| < 1048576
      modifies this
      ensures Valid() && pendingBytes + |batch| < 1048576
      ensures replayed == old(replayed) + bytes
      ensures old(posted) <= posted
      ensures shown == old(shown) + Pieces(bytes, chunkBytes)
      ensures forall i :: |old(posted)| <= i < |posted| ==>
        |posted[i]| == chunkBytes || (i == |posted| - 1 && batch == [] && pendingBytes == 0)
    {
      hide Joined, Pieces;
      if bytes == [] {
        NoPieces(chunkBytes);
        assert replayed + [] == replayed;
        return;
      }
      Show(bytes);
      Hold(bytes);
      if pendingBytes + |batch| >= SYNC_BYTES {
        FlushRawCaptureReplayBatch();
      }
    }

    /** The frame view gets the bytes in chunks of its own. */
    method Show(bytes: seq<byte>)
      requires chunkBytes >= 1
      modifies `shown
      ensures shown == old(shown) + Pieces(bytes, chunkBytes)
      ensures Joined(shown) == Joined(old(shown)) + bytes
      ensures (forall c :: c in old(shown) ==> 0 < |c| <= chunkBytes) ==>
        forall c :: c in shown ==> 0 < |c| <= chunkBytes
    {
      ghost var before := shown;
      var cursor := 0;
      assert bytes[0..] == bytes;
      while cursor < |bytes|
        invariant cursor <= |bytes|
        invariant shown + Pieces(bytes[cursor..], chunkBytes) == before + Pieces(bytes, chunkBytes)
      {
        var chunkSize := if chunkBytes < |bytes| - cursor then chunkBytes else |bytes| - cursor;
        var rest := bytes[cursor..];
        assert rest[..chunkSize] == bytes[cursor..cursor + chunkSize] && rest[chunkSize..] == bytes[cursor + chunkSize..];
        OnePiece(rest, chunkBytes, chunkSize);
        shown := shown + [bytes[cursor..cursor + chunkSize]];
        cursor := cursor + chunkSize;
      }
      assert bytes[|bytes|..] == [];
      assert shown + [] == shown;
      PiecesJoin(bytes, chunkBytes);
      JoinedConcat(before, Pieces(bytes, chunkBytes));
    }

    /** Completes the held chunk, posts the full chunks of the rest, and holds what remains. */
    method Hold(bytes: seq<byte>)
      requires Posting(replayed) && bytes != []
      modifies `batch, `posted, `pendingBytes, `synced, `replayed
      ensures replayed == old(replayed) + bytes && Posting(replayed)
      ensures old(posted) <= posted && FullFrom(|old(posted)|)
    {
      hide Joined;
      ghost var before := replayed;
      var cursor := CompleteBatch(bytes);
      while |bytes| - cursor >= chunkBytes
        invariant cursor <= |bytes| && (cursor < |bytes| ==> batch == [])
        invariant Posting(before + bytes[..cursor]) && old(posted) <= posted && replayed == before
        invariant FullFrom(|old(posted)|)
      {
        PostFull(before, bytes, cursor);
        cursor := cursor + chunkBytes;
      }
      HoldRest(before, bytes, cursor);
      replayed := replayed + bytes;
    }

    /** The posted chunks and the held one are `all`, and no chunk is too long. */
    ghost predicate Posting(all: seq<byte>)
      reads this
    {
      && chunkBytes >= 1 && |batch| < chunkBytes
      && all == Joined(posted) + batch
      && (forall c :: c in posted ==> 0 < |c| <= chunkBytes)
      && synced + pendingBytes == |Joined(posted)|
    }

    /** The chunks posted from `n` on are full ones. */
    ghost predicate FullFrom(n: nat)
      reads this
    {
      forall i :: n <= i < |posted| ==> |posted[i]| == chunkBytes
    }

    method CompleteBatch(bytes: seq<byte>) returns (cursor: nat)
      requires Posting(replayed)
      modifies `batch, `posted, `pendingBytes
      ensures cursor <= |bytes| && (cursor < |bytes| ==> batch == [])
      ensures Posting(replayed + bytes[..cursor]) && old(posted) <= posted && FullFrom(|old(posted)|)
    {
      hide Joined;
      cursor := 0;
      assert replayed + bytes[..0] == replayed;
      if batch != [] {
        var required := chunkBytes - |batch|;
        var copied := if required < |bytes| then required else |bytes|;
        assert Joined(posted) + (batch + bytes[..copied]) == replayed + bytes[..copied];
        batch := batch + bytes[..copied];
        cursor := copied;
        if |batch| == chunkBytes {
          Post(batch);
          batch := [];
          pendingBytes := pendingBytes + chunkBytes;
          assert Joined(posted) + [] == Joined(posted);
        }
      }
    }

    method PostFull(ghost before: seq<byte>, bytes: seq<byte>, cursor: nat)
      requires cursor + chunkBytes <= |bytes| && batch == [] && Posting(before + bytes[..cursor])
      modifies `posted, `pendingBytes, `synced
      ensures Posting(before + bytes[..cursor + chunkBytes]) && old(posted) <= posted
      ensures posted == old(posted) + [bytes[cursor..cursor + chunkBytes]]
    {
      hide Joined;
      var chunk := bytes[cursor..cursor + chunkBytes];
      assert before + bytes[..cursor + chunkBytes] == before + bytes[..cursor] + chunk;
      assert Joined(posted) + [] == Joined(posted);
      Post(chunk);
      assert Joined(posted) + [] == Joined(posted);
      pendingBytes := pendingBytes + chunkBytes;
      if pendingBytes >= SYNC_BYTES {
        // With nothing held a flush only waits for the worker.
        synced := synced + pendingBytes;
        pendingBytes := 0;
      }
    }

    method HoldRest(ghost before: seq<byte>, bytes: seq<byte>, cursor: nat)
      requires cursor <= |bytes| < cursor + chunkBytes && (cursor < |bytes| ==> batch == [])
      requires Posting(before + bytes[..cursor])
      modifies `batch
      ensures Posting(before + bytes)
    {
      hide Joined;
      assert before + bytes == before + bytes[..cursor] + bytes[cursor..];
      if cursor < |bytes| {
        assert Joined(posted) + batch + bytes[cursor..] == Joined(posted) + (batch + bytes[cursor..]);
        batch := batch + bytes[cursor..];
      }
    }
  }

  lemma NoPieces(size: nat)
    requires size > 0
    ensures Pieces([], size) == []
  {
  }

  lemma OnePiece(rest: seq<byte>, size: nat, n: nat)
    requires size > 0 && rest != [] && n == if size < |rest| then size else |rest|
    ensures 0 < n <= |rest| && Pieces(rest, size) == [rest[..n]] + Pieces(rest[n..], size)
  {
    assert n == |rest| ==> rest[..n] == rest && rest[n..] == [];
  }

  lemma {:induction false} JoinedConcat(a: seq<seq<byte>>, b: seq<seq<byte>>)
    ensures Joined(a + b) == Joined(a) + Joined(b)
  {
    if a == [] {
      assert a + b == b;
    } else {
      assert (a + b)[1..] == a[1..] + b;
      JoinedConcat(a[1..], b);
      assert a[0] + (Joined(a[1..]) + Joined(b)) == a[0] + Joined(a[1..]) + Joined(b);
    }
  }

  lemma NothingJoined()
    ensures Joined([]) == []
  {
  }

  // ---------------------------------------------------------------- one oversized event

  /** Posting an event that is larger than the stream buffer, a slice at a time, as far as the worker takes it.
    * `taken` is how much of each slice the worker accepts. */
  method ReplayOversizedEvent(bytes: seq<byte>, buffer: StreamBuffer, turns: nat, taken: nat -> nat)
    returns (posted: seq<seq<byte>>, offset: nat)
    ensures offset <= |bytes| && Joined(posted) == bytes[..offset]
    ensures forall c :: c in posted ==> 0 < |c| <= ChunkBytes(Some(buffer))
    ensures (forall t :: taken(t) > 0) && turns >= |bytes| ==> offset == |bytes|
  {
    hide Joined;
    NothingJoined();
    posted, offset := [], 0;
    for turn := 0 to turns
      invariant offset <= |bytes| && Joined(posted) == bytes[..offset]
      invariant forall c :: c in posted ==> 0 < |c| <= ChunkBytes(Some(buffer))
      invariant (forall t :: taken(t) > 0) ==> offset >= turn
    {
      if offset == |bytes| {
        break;
      }
      var end := if |bytes| < offset + ChunkBytes(Some(buffer)) then |bytes| else offset + ChunkBytes(Some(buffer));
      var slice := bytes[offset..end];
      var n := if taken(turn) < |slice| then taken(turn) else |slice|;
      if n > 0 {
        JoinedSnoc(posted, slice[..n]);
        assert slice[..n] == bytes[offset..offset + n];
        assert bytes[..offset] + bytes[offset..offset + n] == bytes[..offset + n];
        posted := posted + [slice[..n]];
        offset := offset + n;
      }
    }
  }
}
