// A stored upload through every later run: what a pull reads is what was uploaded.
module Durability {
  import opened Lists
  import opened Revisions
  import opened Store
  import opened Database
  import opened DatabaseRun
  import Epoch
  import Transfer

  // Whatever transactions come between, the uid denotes the same bytes or nothing.
  lemma StoredForGood(s: State, steps: seq<Step>, r: Rev, blob: Blob)
    requires Sound(s) && Runs(s, steps)
    requires r in s.db.tables.revisions && r.size > 0 && Content(s.db.tables, r) == Some(blob)
    ensures Transfer.Keeps(End(s, steps).db.tables, r.uid, r, blob)
  {
    RunFollows(s, steps);
    RunSound(s, steps);
    FollowsKeeps(s.db.tables, End(s, steps).db.tables, r, blob);
  }

  lemma FollowsKeeps(t: Tables, n: Tables, r: Rev, blob: Blob)
    requires Inv(t) && Inv(n) && Follows(t, n) && r in t.revisions && r.size > 0 && Content(t, r) == Some(blob)
    ensures Transfer.Keeps(n, r.uid, r, blob)
  {
    var o := Find(n.revisions, r.uid);
    if o.Some? {
      assert RowOk(t, r) && RowOk(n, o.value) && Descends(t, n, o.value);
      var p :| p in t.revisions && o.value == Epoch.Retag(o.value.vault)(p) && Content(n, o.value) == Content(t, p);
      SortedIndex(t.revisions, p, r);
    }
  }

  // ----- the whole way -----

  // The revision has not been purged or deleted.
  predicate Stands(s: State, uid: int) { Find(s.db.tables.revisions, uid).Some? }
  ghost predicate StandsThrough(s: State, runs: seq<seq<Step>>, uid: int) {
    forall run | run in runs :: Stands(End(s, run), uid)
  }

  // The frames of a pull whose reads happen after arbitrary further transactions.
  method PullThroughRuns(s: State, runs: seq<seq<Step>>, ghost r: Rev, uid: nat, size: nat, ghost blob: Blob)
    returns (frames: seq<Blob>, complete: bool)
    requires Sound(s) && r in s.db.tables.revisions && r.uid == uid && r.size == size > 0
    requires Content(s.db.tables, r) == Some(blob) && forall run | run in runs :: Runs(s, run)
    ensures Transfer.Concat(frames) <= blob && forall f | f in frames :: 0 < |f| <= PIECE_SIZE
    ensures complete ==> Transfer.Concat(frames) == blob && |frames| == Pieces(size)
    ensures |runs| >= Pieces(size) && StandsThrough(s, runs, uid) ==> complete
  {
    var views := Map(runs, (run: seq<Step>) => End(s, run).db.tables);
    forall t | t in views ensures Transfer.Keeps(t, uid, r, blob) {
      var i :| 0 <= i < |views| && views[i] == t;
      assert runs[i] in runs;
      StoredForGood(s, runs[i], r, blob);
    }
    assert RowOk(s.db.tables, r);
    if StandsThrough(s, runs, uid) {
      forall t | t in views ensures Find(t.revisions, uid).Some? {
        var i :| 0 <= i < |views| && views[i] == t;
        assert runs[i] in runs && Stands(End(s, runs[i]), uid);
      }
    }
    frames, complete := Transfer.Pull(views, uid, r, size, blob);
  }

  function Storing(who: Caller, rev: NewRev, staged: Blob, lim: Limits, now: int): Step {
    Step(PushFile(who, rev, staged, lim), now)
  }

  function Stored(s: State, who: Caller, rev: NewRev, staged: Blob, lim: Limits, now: int): (Tables, Outcome<Rev>) {
    AddFile(s.db.tables, rev, staged, MayWrite(s.db, who, rev.vault, now), lim, now)
  }

  lemma StoringNext(s: State, who: Caller, rev: NewRev, staged: Blob, lim: Limits, now: int)
    ensures Next(s, Storing(who, rev, staged, lim, now)).db.tables == Stored(s, who, rev, staged, lim, now).0
  {
  }

  lemma StoringKeeps(s: State, who: Caller, rev: NewRev, staged: Blob, lim: Limits, now: int)
    requires Inv(s.db.tables) && Stored(s, who, rev, staged, lim, now).1.Done?
    ensures var (n, o) := Stored(s, who, rev, staged, lim, now);
      && o.value in n.revisions && o.value.size == rev.size == |staged| > 0 && Content(n, o.value) == Some(staged)
      && o.value.uid == s.db.tables.sequence + 1 && rev.pieces == Pieces(rev.size)
  {
    Transfer.AddFileStores(s.db.tables, rev, staged, MayWrite(s.db, who, rev.vault, now), lim, now);
  }

  // The chunks a client sends until the declared number is reached.
  function Sent(chunks: seq<Blob>, pieces: int): seq<Blob> {
    if 0 <= pieces <= |chunks| then chunks[..pieces] else chunks
  }

  // Uploaded in any chunking, stored by a transaction on any sound database, and pulled
  // while any further transactions go on: the frames are always a prefix of what was
  // uploaded, and a completed pull is all of it in exactly the declared pieces.
  method UploadAndPull(
    s: State, who: Caller, rev: NewRev, chunks: seq<Blob>, lim: Limits, now: int, runs: seq<seq<Step>>)
    returns (stored: bool, frames: seq<Blob>, complete: bool)
    requires Sound(s) && rev.user == who.user && 0 < rev.size && 0 < rev.pieces
    requires forall run | run in runs ::
               Runs(Next(s, Storing(who, rev, Transfer.Concat(Sent(chunks, rev.pieces)), lim, now)), run)
    ensures var sent := Sent(chunks, rev.pieces); var bytes := Transfer.Concat(sent);
      && (stored <==> Transfer.Fits(rev.size, rev.pieces, sent) && Stored(s, who, rev, bytes, lim, now).1.Done?)
      && (stored ==> Transfer.Concat(frames) <= bytes && forall f | f in frames :: 0 < |f| <= PIECE_SIZE)
      && (stored && complete ==> Transfer.Concat(frames) == bytes && |frames| == rev.pieces)
    ensures var n := Next(s, Storing(who, rev, Transfer.Concat(Sent(chunks, rev.pieces)), lim, now));
      stored && |runs| >= rev.pieces && StandsThrough(n, runs, s.db.tables.sequence + 1) ==> complete
  {
    stored, frames, complete := false, [], false;
    var staged := Transfer.UploadAll(rev.size, rev.pieces, chunks);
    if staged.None? { return; }
    var (_, o) := Stored(s, who, rev, staged.value, lim, now);
    if o.Refused? { return; }
    StoringNext(s, who, rev, staged.value, lim, now);
    StoringKeeps(s, who, rev, staged.value, lim, now);
    StepSound(s, Storing(who, rev, staged.value, lim, now));
    stored := true;
    var after := Next(s, Storing(who, rev, staged.value, lim, now));
    frames, complete := PullThroughRuns(after, runs, o.value, o.value.uid, o.value.size, staged.value);
  }
}
