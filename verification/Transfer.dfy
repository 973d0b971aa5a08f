// Uploading a revision in chunks, storing it, and pulling it back in frames.
module Transfer {
  import opened Lists
  import opened Revisions
  import opened Store

  function Concat(chunks: seq<Blob>): Blob {
    if chunks == [] then [] else Concat(chunks[..|chunks| - 1]) + chunks[|chunks| - 1]
  }

  lemma ConcatSnoc(chunks: seq<Blob>, x: Blob)
    ensures Concat(chunks + [x]) == Concat(chunks) + x
  {
    assert (chunks + [x])[..|chunks|] == chunks;
  }

  lemma {:induction false} ConcatPrefix(chunks: seq<Blob>, n: nat)
    requires n <= |chunks|
    ensures |Concat(chunks[..n])| <= |Concat(chunks)|
    decreases |chunks|
  {
    if n < |chunks| {
      ConcatPrefix(chunks[..|chunks| - 1], n);
      assert chunks[..|chunks| - 1][..n] == chunks[..n];
    } else {
      assert chunks[..n] == chunks;
    }
  }

  // ----- upload -----

  datatype ChunkReply = Next | Complete | TooLarge | Exceeds | WrongSize

  // The chunks that make an upload of the declared size and piece count complete.
  ghost predicate Fits(size: int, pieces: int, chunks: seq<Blob>) {
    |chunks| == pieces && |Concat(chunks)| == size && forall c | c in chunks :: |c| <= PIECE_SIZE
  }

  // `Pending`: an upload in progress and its staged file.
  class Upload {
    const size: int
    const pieces: int
    var received: int
    var bytes: int
    var staged: Blob
    ghost var chunks: seq<Blob>

    ghost predicate Valid()
      reads this
    {
      && staged == Concat(chunks) && bytes == |staged| <= size && received == |chunks| <= pieces
      && forall c | c in chunks :: |c| <= PIECE_SIZE
    }

    constructor (size: int, pieces: int)
      requires 0 < size && 0 < pieces
      ensures Valid() && chunks == [] && this.size == size && this.pieces == pieces
    {
      this.size, this.pieces := size, pieces;
      received, bytes, staged, chunks := 0, 0, [], [];
    }

    // `upload_chunk` up to the commit. After any reply but `Next` and `Complete` the
    // connection is closed and the staged file discarded.
    method Chunk(data: Blob) returns (reply: ChunkReply)
      requires Valid() && received < pieces
      modifies this
      ensures chunks == old(chunks) + (if reply == TooLarge then [] else [data])
      ensures reply == TooLarge <==> |data| > PIECE_SIZE
      ensures reply == Exceeds <==> |data| <= PIECE_SIZE && old(bytes) + |data| > size
      ensures reply == Next ==> Valid() && received < pieces
      ensures reply == Complete <==> Fits(size, pieces, old(chunks) + [data])
      ensures reply == Complete ==> Valid() && staged == Concat(chunks)
      ensures reply == WrongSize ==> |chunks| == pieces && |Concat(chunks)| < size
    {
      if |data| > PIECE_SIZE { return TooLarge; }
      received := received + 1;
      bytes := bytes + |data|;
      ConcatSnoc(chunks, data);
      chunks := chunks + [data];
      if received > pieces || bytes > size { return Exceeds; }
      staged := staged + data;
      if received < pieces { return Next; }
      if bytes != size { return WrongSize; }
      return Complete;
    }
  }

  // A client that sends the given chunks one after another ends with a complete upload
  // exactly when the first `pieces` of them fit the declaration, and what was staged is
  // what was sent.
  method UploadAll(size: int, pieces: int, chunks: seq<Blob>) returns (staged: Option<Blob>)
    requires 0 < size && 0 < pieces
    ensures staged.Some? <==> pieces <= |chunks| && Fits(size, pieces, chunks[..pieces])
    ensures staged.Some? ==> staged.value == Concat(chunks[..pieces])
  {
    var upload := new Upload(size, pieces);
    for i := 0 to |chunks|
      invariant fresh(upload) && upload.Valid() && upload.size == size && upload.pieces == pieces
      invariant upload.chunks == chunks[..i] && i < pieces
    {
      assert chunks[..i] + [chunks[i]] == chunks[..i + 1];
      if pieces <= |chunks| { assert chunks[..i + 1] == chunks[..pieces][..i + 1]; }
      UploadStops(size, pieces, chunks, i + 1);
      var reply := upload.Chunk(chunks[i]);
      if reply == Complete { return Some(upload.staged); }
      if reply != Next { return None; }
    }
    return None;
  }

  // Once a prefix is too large, or full without being complete, nothing later helps.
  lemma UploadStops(size: int, pieces: int, chunks: seq<Blob>, n: nat)
    requires n <= |chunks| && n <= pieces
    ensures pieces <= |chunks| && Fits(size, pieces, chunks[..pieces]) ==>
      |Concat(chunks[..n])| <= size && forall c | c in chunks[..n] :: |c| <= PIECE_SIZE
  {
    if pieces <= |chunks| {
      ConcatPrefix(chunks[..pieces], n);
      assert chunks[..pieces][..n] == chunks[..n];
      assert forall c | c in chunks[..n] :: c in chunks[..pieces];
    }
  }

  // ----- content chunks -----

  // `content_chunk`
  function ContentChunk(t: Tables, uid: int, offset: int, length: int): Outcome<Blob> {
    if offset < 0 || !(0 <= length <= PIECE_SIZE) then Refused(Inconsistent)
    else match Find(t.revisions, uid)
      case None => Refused(NotFound)
      case Some(r) =>
        if offset + length > r.size then Refused(Inconsistent)
        else if (r.uid in t.contents) == r.inline.Some? then Refused(ContentChanged)
        else
          var blob := Content(t, r).value;
          if |blob| != r.size then Refused(ContentChanged) else Done(blob[offset..offset + length])
  }

  // What a uid denotes: its row and its bytes never change, they can only go.
  ghost predicate Keeps(t: Tables, uid: int, r: Rev, blob: Blob) {
    var o := Find(t.revisions, uid);
    o.None? || (&& o.value.size == r.size && Content(t, o.value) == Some(blob)
                && (o.value.inline.Some? <==> o.value.uid !in t.contents))
  }

  // ----- pull -----

  // One read of a frame.
  method ReadFrame(t: Tables, uid: int, offset: nat, len: nat, ghost r: Rev, ghost blob: Blob)
    returns (frame: Option<Blob>)
    requires Keeps(t, uid, r, blob) && r.size == |blob| && offset + len <= |blob| && len <= PIECE_SIZE
    ensures frame == if Find(t.revisions, uid).Some? then Some(blob[offset..offset + len]) else None
  {
    ChunkRead(t, uid, r, blob, offset, len);
    var chunk := ContentChunk(t, uid, offset, len);
    frame := if chunk.Done? then Some(chunk.value) else None;
  }

  // The frame loop of `pull`. `views` are the tables at the successive reads; the loop
  // ends early when they run out (the connection was cut) or a read fails.
  method Pull(views: seq<Tables>, uid: int, ghost r: Rev, size: nat, ghost blob: Blob)
    returns (frames: seq<Blob>, complete: bool)
    requires r.size == size == |blob| && forall t | t in views :: Keeps(t, uid, r, blob)
    ensures Concat(frames) <= blob
    ensures forall f | f in frames :: 0 < |f| <= PIECE_SIZE
    ensures complete ==> Concat(frames) == blob && |frames| == Pieces(size)
    ensures |views| >= Pieces(size) && (forall t | t in views :: Find(t.revisions, uid).Some?) ==> complete
  {
    frames, complete := [], false;
    var offset := 0;
    while offset < size
      invariant Pulled(frames, blob, offset) && |frames| <= |views|
    {
      if |frames| == |views| { return; }
      var len := if size - offset < PIECE_SIZE then size - offset else PIECE_SIZE;
      assert views[|frames|] in views;
      var frame := ReadFrame(views[|frames|], uid, offset, len, r, blob);
      if frame.None? { return; }
      PullTurn(frames, blob, offset, len);
      frames := frames + [frame.value];
      offset := offset + len;
    }
    assert blob[..size] == blob;
    complete := true;
  }

  // The first `offset` bytes have been sent, in full frames unless it was the last one.
  ghost predicate Pulled(frames: seq<Blob>, blob: Blob, offset: nat) {
    && offset <= |blob| && Concat(frames) == blob[..offset] && (forall f | f in frames :: 0 < |f| <= PIECE_SIZE)
    && (offset == |blob| || offset == |frames| * PIECE_SIZE) && |frames| == Pieces(offset)
  }

  lemma PullTurn(frames: seq<Blob>, blob: Blob, offset: nat, len: nat)
    requires Pulled(frames, blob, offset) && offset < |blob|
    requires len == if |blob| - offset < PIECE_SIZE then |blob| - offset else PIECE_SIZE
    ensures Pulled(frames + [blob[offset..offset + len]], blob, offset + len)
  {
    ConcatSnoc(frames, blob[offset..offset + len]);
    assert blob[..offset + len] == blob[..offset] + blob[offset..offset + len];
  }

  // A read gives the bytes asked for, or fails because the row is gone.
  lemma ChunkRead(t: Tables, uid: int, r: Rev, blob: Blob, offset: nat, len: nat)
    requires Keeps(t, uid, r, blob) && r.size == |blob| && offset + len <= |blob| && len <= PIECE_SIZE
    ensures var chunk := ContentChunk(t, uid, offset, len);
      if Find(t.revisions, uid).Some? then chunk == Done(blob[offset..offset + len]) else chunk.Refused?
  {
  }

  // ----- the bytes behind a revision -----

  // A stored upload is read back as it was staged.
  lemma AddFileStores(t: Tables, r: NewRev, staged: Blob, allowed: bool, lim: Limits, ts: int)
    requires Inv(t) && AddFile(t, r, staged, allowed, lim, ts).1.Done?
    ensures var (n, o) := AddFile(t, r, staged, allowed, lim, ts);
      && Find(n.revisions, o.value.uid) == Some(o.value) && o.value.size == r.size == |staged|
      && Keeps(n, o.value.uid, o.value, staged)
  {
    AddFileInv(t, r, staged, allowed, lim, ts);
    var (n, o) := AddFile(t, r, staged, allowed, lim, ts);
    assert RowOk(n, o.value);
  }

  // A restored revision is read back with the bytes of the row it brings back: the live row
  // named, or the newest live row of the path below the tombstone named.
  lemma RestoreCopies(
    t: Tables, x: Rev, q: Rev, device: string, user: nat, allowed: bool, lim: Limits, fits: bool, ts: int)
    requires Inv(t) && x in t.revisions && Brings(Rows(t, x.vault), x, q)
    requires Restore(t, x.vault, x.uid, device, user, allowed, lim, fits, ts).1.Done?
    ensures var (n, o) := Restore(t, x.vault, x.uid, device, user, allowed, lim, fits, ts);
      && o.value.Some?
      && var row := o.value.value;
         && Copies(row, q, x.vault, device, user, ts) && row.path == x.path
         && Find(n.revisions, row.uid) == Some(row) && Content(n, row) == Content(t, q)
         && (q.size > 0 ==> Content(t, q).Some? && Keeps(n, row.uid, row, Content(t, q).value))
  {
    assert RowOk(t, x);
    RestoreExact(t, x, q, device, user, allowed, lim, fits, ts);
    var (n, o) := Restore(t, x.vault, x.uid, device, user, allowed, lim, fits, ts);
    assert RowOk(n, o.value.value) && RowOk(t, q);
  }
}
