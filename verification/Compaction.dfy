// Purging history: deletions that keep the newest row of every path, and what they
// leave unchanged for every client.
module Compaction {
  import opened Lists
  import opened Revisions

  // A deletion that never touches a head.
  ghost predicate KeepsHeads(rows: seq<Rev>, keep: Rev -> bool) {
    forall r | r in rows :: IsHead(rows, r) ==> keep(r)
  }

  // `purge`: DELETE ... WHERE uid NOT IN (SELECT MAX(uid) ... GROUP BY path)
  function Purged(rows: seq<Rev>): seq<Rev> { Filter(rows, HeadOf(rows)) }

  // `purge-deleted`: DELETE the other rows of every path whose head is a tombstone.
  predicate Spared(rows: seq<Rev>, r: Rev) {
    !exists d | d in rows :: IsHead(rows, d) && d.deleted && d.path == r.path && d.uid != r.uid
  }
  function SparedIn(rows: seq<Rev>): Rev -> bool { (r: Rev) => Spared(rows, r) }
  function PurgedDeleted(rows: seq<Rev>): seq<Rev> { Filter(rows, SparedIn(rows)) }

  lemma PurgesKeepHeads(rows: seq<Rev>)
    requires Sorted(rows)
    ensures KeepsHeads(rows, HeadOf(rows)) && KeepsHeads(rows, SparedIn(rows))
  {
    forall r, d | r in rows && d in rows && IsHead(rows, r) && IsHead(rows, d) && d.path == r.path
      ensures d.uid == r.uid
    {
      HeadIsLast(rows, r);
      HeadIsLast(rows, d);
    }
  }

  lemma CompactHead(rows: seq<Rev>, keep: Rev -> bool, r: Rev)
    requires Sorted(rows) && KeepsHeads(rows, keep)
    ensures IsHead(Filter(rows, keep), r) <==> IsHead(rows, r)
  {
    if IsHead(Filter(rows, keep), r) {
      LastIsHead(rows, r.path);
      SortedIndex(rows, r, Last(rows, r.path).value);
    }
  }

  lemma CompactLast(rows: seq<Rev>, keep: Rev -> bool, p: string)
    requires Sorted(rows) && KeepsHeads(rows, keep)
    ensures Last(Filter(rows, keep), p) == Last(rows, p)
  {
    var kept := Filter(rows, keep);
    FilterSorted(rows, keep);
    LastIsHead(rows, p);
    LastIsHead(kept, p);
    if Last(rows, p).Some? {
      var r := Last(rows, p).value;
      CompactHead(rows, keep, r);
      HeadIsLast(kept, r);
    }
  }

  // Catching up from any cursor, with any mirror whatsoever, ends in the same mirror
  // whether or not the history was compacted in between.
  lemma CompactionKeepsReplay(rows: seq<Rev>, keep: Rev -> bool, cursor: nat, m: Mirror)
    requires Sorted(rows) && KeepsHeads(rows, keep)
    ensures Replay(m, Changes(Filter(rows, keep), cursor)) == Replay(m, Changes(rows, cursor))
  {
    var kept := Filter(rows, keep);
    var a, b := Changes(kept, cursor), Changes(rows, cursor);
    FilterSorted(rows, keep);
    FilterSorted(rows, Above(cursor));
    FilterSorted(kept, Above(cursor));
    forall p ensures Last(a, p) == Last(b, p) {
      ChangesLast(rows, cursor, p);
      ChangesLast(kept, cursor, p);
      CompactLast(rows, keep, p);
    }
    forall p ensures At(Replay(m, a), p) == At(Replay(m, b), p) {
      ReplayAt(m, a, p);
      ReplayAt(m, b, p);
    }
    MirrorsAgree(Replay(m, a), Replay(m, b));
  }

  // After a cursor a path shows its last row or nothing.
  lemma ChangesLast(rows: seq<Rev>, cursor: nat, p: string)
    requires Sorted(rows)
    ensures Last(Changes(rows, cursor), p)
         == if Last(rows, p).Some? && Last(rows, p).value.uid > cursor then Last(rows, p) else None
  {
    var a := Changes(rows, cursor);
    FilterSorted(rows, Above(cursor));
    LastIsHead(rows, p);
    LastIsHead(a, p);
    if Last(rows, p).Some? && Last(rows, p).value.uid > cursor {
      var r := Last(rows, p).value;
      assert IsHead(a, r);
      HeadIsLast(a, r);
    }
  }

  // A fresh client is sent the same snapshot, row for row.
  lemma CompactionKeepsSnapshot(rows: seq<Rev>, keep: Rev -> bool)
    requires Sorted(rows) && KeepsHeads(rows, keep)
    ensures Snapshot(Filter(rows, keep)) == Snapshot(rows)
    ensures Live(Filter(rows, keep)) == Live(rows)
  {
    var kept := Filter(rows, keep);
    FilterSorted(rows, keep);
    FilterSorted(rows, LiveHead(rows));
    FilterSorted(kept, LiveHead(kept));
    forall r ensures r in Snapshot(kept) <==> r in Snapshot(rows) { CompactHead(rows, keep, r); }
    SortedUnique(Snapshot(kept), Snapshot(rows));
    SnapshotIsLive(kept);
    SnapshotIsLive(rows);
  }

  lemma CompactionKeepsTotals(rows: seq<Rev>, keep: Rev -> bool)
    requires Sorted(rows) && KeepsHeads(rows, keep)
    ensures LiveBytes(Filter(rows, keep)) == LiveBytes(rows)
    ensures MaxUid(Filter(rows, keep)) == MaxUid(rows)
  {
    var kept := Filter(rows, keep);
    FilterSorted(rows, keep);
    FilterSorted(rows, LiveFile(rows));
    FilterSorted(kept, LiveFile(kept));
    forall r ensures r in Filter(kept, LiveFile(kept)) <==> r in Filter(rows, LiveFile(rows)) {
      CompactHead(rows, keep, r);
    }
    SortedUnique(Filter(kept, LiveFile(kept)), Filter(rows, LiveFile(rows)));
    CompactionKeepsMax(rows, keep);
  }

  lemma CompactionKeepsMax(rows: seq<Rev>, keep: Rev -> bool)
    requires Sorted(rows) && KeepsHeads(rows, keep)
    ensures MaxUid(Filter(rows, keep)) == MaxUid(rows)
  {
    if rows != [] {
      var r := MaxUidIn(rows);
      assert IsHead(rows, r) && r in Filter(rows, keep);
      var k := MaxUidIn(Filter(rows, keep));
    }
  }

  // Purging twice is purging once, and purging tombstone history first changes nothing.
  lemma PurgeAbsorbs(rows: seq<Rev>)
    requires Sorted(rows)
    ensures Purged(Purged(rows)) == Purged(rows)
    ensures Purged(PurgedDeleted(rows)) == Purged(rows)
  {
    PurgesKeepHeads(rows);
    PurgedOfCompact(rows, HeadOf(rows));
    PurgedOfCompact(rows, SparedIn(rows));
  }

  lemma PurgedOfCompact(rows: seq<Rev>, keep: Rev -> bool)
    requires Sorted(rows) && KeepsHeads(rows, keep)
    ensures Purged(Filter(rows, keep)) == Purged(rows)
  {
    var kept := Filter(rows, keep);
    FilterSorted(rows, keep);
    FilterSorted(rows, HeadOf(rows));
    FilterSorted(kept, HeadOf(kept));
    forall r ensures r in Purged(kept) <==> r in Purged(rows) { CompactHead(rows, keep, r); }
    SortedUnique(Purged(kept), Purged(rows));
  }

  // The list of deleted files is the one thing purging does not keep: it becomes empty,
  // so it survives exactly when it was empty before.
  lemma PurgeEmptiesDeleted(rows: seq<Rev>, suppress: bool)
    requires Sorted(rows)
    ensures Deleted(Purged(rows), suppress) == [] && Deleted(PurgedDeleted(rows), suppress) == []
    ensures Deleted(Purged(rows), suppress) == Deleted(rows, suppress) <==> Deleted(rows, suppress) == []
    ensures Deleted(PurgedDeleted(rows), suppress) == Deleted(rows, suppress) <==> Deleted(rows, suppress) == []
  {
    PurgesKeepHeads(rows);
    var a, b := Purged(rows), PurgedDeleted(rows);
    forall r | r in a ensures !Listed(a, suppress, r) { CompactHead(rows, HeadOf(rows), r); }
    forall r | r in b ensures !Listed(b, suppress, r) { CompactHead(rows, SparedIn(rows), r); }
    FilterNone(a, ListedIn(a, suppress));
    FilterNone(b, ListedIn(b, suppress));
  }

  // One pushed file that was then deleted is listed, and no longer listed after a purge.
  lemma PurgeForgetsDeletedFile(r: Rev)
    requires r.uid == 1 && !r.deleted
    ensures var rows := [r, r.(uid := 2, deleted := true, size := 0, pieces := 0, inline := None)];
            Deleted(rows, false) == [rows[1]] && Deleted(Purged(rows), false) == []
  {
    var d := r.(uid := 2, deleted := true, size := 0, pieces := 0, inline := None);
    var rows := [r, d];
    PurgeEmptiesDeleted(rows, false);
    FilterSorted(rows, ListedIn(rows, false));
    assert r in rows && d in rows && Listed(rows, false, d);
    SortedUnique(Deleted(rows, false), [d]);
  }

  // ----- purging one vault of the whole table -----

  // DELETE FROM revisions WHERE vault_id = v AND NOT keep
  function DropFrom(table: seq<Rev>, v: VaultId, keep: Rev -> bool): seq<Rev> {
    Filter(table, Outside(v, keep))
  }
  function Outside(v: VaultId, keep: Rev -> bool): Rev -> bool { (r: Rev) => r.vault != v || keep(r) }

  lemma DropFromVault(table: seq<Rev>, v: VaultId, keep: Rev -> bool)
    ensures VaultRows(DropFrom(table, v, keep), v) == Filter(VaultRows(table, v), keep)
  {
    var both := (r: Rev) => r.vault == v && keep(r);
    FilterFilter(table, Outside(v, keep), InVault(v), both);
    FilterFilter(table, InVault(v), keep, both);
  }

  lemma DropFromOther(table: seq<Rev>, v: VaultId, keep: Rev -> bool, w: VaultId)
    requires w != v
    ensures VaultRows(DropFrom(table, v, keep), w) == VaultRows(table, w)
  {
    FilterFilter(table, Outside(v, keep), InVault(w), InVault(w));
  }
}
