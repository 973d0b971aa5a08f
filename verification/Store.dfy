// The vault, revision and content tables with their derived columns and the runtime
// byte counter, and the transactions that change them. A refused transaction leaves
// the tables as they were.
module Store {
  import opened Lists
  import opened Revisions
  import opened Compaction

  const MAX_VAULTS: nat := 100

  datatype Vault = Vault(owner: nat, profile: string, size: nat, version: nat)

  // `usage` is the trigger-maintained ciphertext counter, `sequence` the AUTOINCREMENT
  // high-water mark of `revisions`, `contents` the external content table.
  datatype Tables = Tables(
    vaults: map<VaultId, Vault>, revisions: seq<Rev>, contents: map<nat, Blob>, sequence: nat, usage: int)

  datatype NewRev = NewRev(
    vault: VaultId, path: string, related: Option<string>, info: Info, folder: bool, deleted: bool,
    size: int, pieces: int, device: string, user: nat, expected: Option<int>)

  datatype Limits = Limits(global: int, owner: int)

  datatype Reason =
    | Inconsistent | Unauthorized | InvalidBoundary | Conflict | BadAccounting | QuotaExceeded
    | SequenceExhausted | ContentChanged | NoticeTooLarge | NotFound | VaultLimit | DuplicateId
    | MarkerLimit

  datatype Outcome<+T> = Done(value: T) | Refused(why: Reason)

  const Empty := Tables(map[], [], map[], 0, 0)

  // ceil(size / 2 MiB)
  function Pieces(size: int): int { (size + PIECE_SIZE - 1) / PIECE_SIZE }

  function Rows(t: Tables, v: VaultId): seq<Rev> { VaultRows(t.revisions, v) }

  function Uids(rows: seq<Rev>): set<nat> { set r | r in rows :: r.uid }

  function Find(rows: seq<Rev>, uid: int): (o: Option<Rev>)
    ensures o.Some? ==> o.value in rows && o.value.uid == uid
    ensures o.None? ==> forall r | r in rows :: r.uid != uid
  {
    if rows == [] then None
    else
      assert rows == rows[..|rows| - 1] + [rows[|rows| - 1]];
      if rows[|rows| - 1].uid == uid then Some(rows[|rows| - 1]) else Find(rows[..|rows| - 1], uid)
  }

  // Where a row's bytes are: the external table first, the legacy inline column otherwise.
  function Content(t: Tables, r: Rev): Option<Blob> {
    if r.uid in t.contents then Some(t.contents[r.uid]) else r.inline
  }

  function OwnedBy(vaults: map<VaultId, Vault>, owner: nat): Rev -> bool {
    (r: Rev) => r.vault in vaults && vaults[r.vault].owner == owner
  }
  function OwnerBytes(t: Tables, owner: nat): nat { Bytes(Filter(t.revisions, OwnedBy(t.vaults, owner))) }

  // ----- admission -----

  function QuotaCheck(t: Tables, v: VaultId, additional: int, lim: Limits): Option<Reason>
    requires v in t.vaults
  {
    var used := OwnerBytes(t, t.vaults[v].owner);
    if additional < 0 || lim.global < 0 || lim.owner < 0 then Some(BadAccounting)
    else if additional == 0 then None
    else if lim.global == 0 || lim.owner == 0 then Some(QuotaExceeded)
    else if t.usage > lim.global || additional > lim.global - t.usage
         || used > lim.owner || additional > lim.owner - used then Some(QuotaExceeded)
    else None
  }

  function VersionCheck(t: Tables, r: NewRev): Option<Reason>
    requires r.vault in t.vaults
  {
    if r.expected.None? then None
    else if !(0 <= r.expected.value <= MAX_JS_SAFE_INTEGER) then Some(InvalidBoundary)
    else if t.vaults[r.vault].version != r.expected.value then Some(Conflict)
    else None
  }

  // `allowed` is the verdict of `authorize_mutation` inside the transaction: a live
  // session of an active user who owns the vault or is an active member of it.
  function Admission(t: Tables, r: NewRev, allowed: bool, lim: Limits): Option<Reason> {
    if !allowed || r.vault !in t.vaults then Some(Unauthorized)
    else if VersionCheck(t, r).Some? then VersionCheck(t, r)
    else if QuotaCheck(t, r.vault, r.size, lim).Some? then QuotaCheck(t, r.vault, r.size, lim)
    else if t.sequence + 1 > MAX_JS_SAFE_INTEGER then Some(SequenceExhausted)
    else None
  }

  function NewRow(t: Tables, r: NewRev, ts: int): Rev
    requires r.size >= 0 && r.pieces >= 0
  {
    Rev(t.sequence + 1, r.vault, r.path, r.related, r.info, r.folder, r.deleted, r.size, r.pieces, None,
        r.device, r.user, ts)
  }

  // INSERT with its trigger, the content row if any, and `refresh_vault`.
  function Commit(t: Tables, row: Rev, content: Option<Blob>): Tables
    requires row.vault in t.vaults
  {
    var revisions := t.revisions + [row];
    var size := LiveBytes(VaultRows(revisions, row.vault));
    Tables(t.vaults[row.vault := t.vaults[row.vault].(size := size, version := row.uid)],
           revisions,
           if content.Some? then t.contents[row.uid := content.value] else t.contents,
           row.uid,
           t.usage + row.size)
  }

  // ----- push -----

  function AddEmpty(t: Tables, r: NewRev, allowed: bool, lim: Limits, ts: int): (Tables, Outcome<Rev>) {
    if r.size != 0 || r.pieces != 0 then (t, Refused(Inconsistent))
    else match Admission(t, r, allowed, lim)
      case Some(why) => (t, Refused(why))
      case None => (Commit(t, NewRow(t, r, ts), None), Done(NewRow(t, r, ts)))
  }

  function AddFile(t: Tables, r: NewRev, staged: Blob, allowed: bool, lim: Limits, ts: int): (Tables, Outcome<Rev>) {
    if r.folder || r.deleted || r.size <= 0 || r.pieces != Pieces(r.size) then (t, Refused(Inconsistent))
    else match Admission(t, r, allowed, lim)
      case Some(why) => (t, Refused(why))
      case None =>
        if |staged| != r.size then (t, Refused(ContentChanged))
        else (Commit(t, NewRow(t, r, ts), Some(staged)), Done(NewRow(t, r, ts)))
  }

  // ----- restore -----

  function LiveBefore(p: string, uid: nat): Rev -> bool { (r: Rev) => r.path == p && r.uid < uid && !r.deleted }

  // The row whose content a restore of `target` brings back.
  function RestoreSource(t: Tables, target: Rev): Option<Rev> {
    if target.deleted then Last(Filter(Rows(t, target.vault), LiveBefore(target.path, target.uid)), target.path)
    else Some(target)
  }

  function RestoredRow(t: Tables, target: Rev, source: Rev, device: string, user: nat, ts: int): Rev {
    Rev(t.sequence + 1, target.vault, target.path, None, source.info, source.folder, false, source.size,
        source.pieces, None, device, user, ts)
  }

  // `fits` is the verdict of the bounded-notice check on the restored row.
  function RestoreFrom(t: Tables, target: Rev, source: Rev, device: string, user: nat, lim: Limits, fits: bool, ts: int)
    : (Tables, Outcome<Option<Rev>>)
    requires target.vault in t.vaults
  {
    var quota := QuotaCheck(t, target.vault, source.size, lim);
    var bytes := if source.size > 0 then Content(t, source) else None;
    if quota.Some? then (t, Refused(quota.value))
    else if t.sequence + 1 > MAX_JS_SAFE_INTEGER then (t, Refused(SequenceExhausted))
    else if source.size > 0 && (bytes.None? || |bytes.value| != source.size) then (t, Refused(ContentChanged))
    else if !fits then (t, Refused(NoticeTooLarge))
    else
      var row := RestoredRow(t, target, source, device, user, ts);
      (Commit(t, row, bytes), Done(Some(row)))
  }

  function Restore(
    t: Tables, v: VaultId, uid: int, device: string, user: nat, allowed: bool, lim: Limits, fits: bool, ts: int)
    : (Tables, Outcome<Option<Rev>>)
  {
    if !allowed || v !in t.vaults then (t, Refused(Unauthorized))
    else match Find(Rows(t, v), uid)
      case None => (t, Done(None))
      case Some(target) =>
        match RestoreSource(t, target)
        case None => (t, Done(None))
        case Some(source) => RestoreFrom(t, target, source, device, user, lim, fits, ts)
  }

  // ----- deletion -----

  function Not(f: Rev -> bool): Rev -> bool { (r: Rev) => !f(r) }

  // DELETE FROM revisions, its trigger, and the cascade to `revision_content`.
  function Delete(t: Tables, keep: Rev -> bool): Tables {
    t.(revisions := Filter(t.revisions, keep),
       contents := t.contents - Uids(Filter(t.revisions, Not(keep))),
       usage := t.usage - Bytes(Filter(t.revisions, Not(keep))))
  }

  function Refreshed(t: Tables, v: VaultId): Tables
    requires v in t.vaults
  {
    t.(vaults := t.vaults[v := t.vaults[v].(size := LiveBytes(Rows(t, v)))])
  }

  function Purge(t: Tables, v: VaultId, allowed: bool): (Tables, Outcome<()>) {
    if !allowed || v !in t.vaults then (t, Refused(Unauthorized))
    else (Refreshed(Delete(t, Outside(v, HeadOf(Rows(t, v)))), v), Done(()))
  }

  // The offline `purge-deleted` command.
  function PurgeDeleted(t: Tables, v: VaultId): (Tables, Outcome<nat>) {
    if v !in t.vaults then (t, Refused(NotFound))
    else
      var keep := Outside(v, SparedIn(Rows(t, v)));
      (Refreshed(Delete(t, keep), v), Done(|Filter(t.revisions, Not(keep))|))
  }

  // ----- vaults -----

  function Create(t: Tables, id: VaultId, owner: nat, profile: string, allowed: bool): (Tables, Outcome<()>) {
    if !allowed then (t, Refused(Unauthorized))
    else if |t.vaults| >= MAX_VAULTS then (t, Refused(VaultLimit))
    else if id in t.vaults then (t, Refused(DuplicateId))
    else (t.(vaults := t.vaults[id := Vault(owner, profile, 0, 0)]), Done(()))
  }

  // DELETE FROM vaults WHERE id = v, with its cascades.
  function DropVault(t: Tables, v: VaultId): Tables {
    Delete(t.(vaults := t.vaults - {v}), Not(InVault(v)))
  }

  // A migrated vault starts again empty under a new id; the old id and history go.
  function ReplaceVault(t: Tables, v: VaultId, w: VaultId, profile: string): Tables
    requires v in t.vaults && w !in t.vaults
  {
    DropVault(t.(vaults := t.vaults[w := Vault(t.vaults[v].owner, profile, 0, 0)]), v)
  }

  // ----- what the database verifier demands, strengthened to be inductive -----

  ghost predicate Located(t: Tables, r: Rev) {
    && (r.size == 0 ==> r.inline.None? && r.uid !in t.contents)
    && (r.size > 0 ==> (r.inline.Some? <==> r.uid !in t.contents))
    && (r.inline.Some? ==> |r.inline.value| == r.size)
    && (r.uid in t.contents ==> |t.contents[r.uid]| == r.size)
  }

  ghost predicate RowOk(t: Tables, r: Rev) {
    && 1 <= r.uid <= t.sequence && r.vault in t.vaults
    && r.pieces == Pieces(r.size) && (r.folder || r.deleted ==> r.size == 0)
    && Located(t, r)
  }

  ghost predicate VaultOk(t: Tables, v: VaultId)
    requires v in t.vaults
  {
    t.vaults[v].size == LiveBytes(Rows(t, v)) && t.vaults[v].version == MaxUid(Rows(t, v))
  }

  ghost predicate Inv(t: Tables) {
    && Sorted(t.revisions) && (forall r {:trigger RowOk(t, r)} | r in t.revisions :: RowOk(t, r))
    && t.sequence <= MAX_JS_SAFE_INTEGER
    && t.contents.Keys <= Uids(t.revisions)
    && t.usage == Bytes(t.revisions)
    && |t.vaults| <= MAX_VAULTS
    && (forall v {:trigger VaultOk(t, v)} | v in t.vaults :: VaultOk(t, v))
  }

  // ----- preservation -----

  lemma RowsSnoc(table: seq<Rev>, row: Rev, v: VaultId)
    ensures VaultRows(table + [row], v) == if row.vault == v then VaultRows(table, v) + [row] else VaultRows(table, v)
  {
    FilterSnoc(table, row, InVault(v));
  }

  lemma MaxSnoc(rows: seq<Rev>, row: Rev)
    requires 0 < row.uid && forall r | r in rows :: r.uid < row.uid
    ensures MaxUid(rows + [row]) == row.uid
  {
    if rows != [] { var r := MaxUidIn(rows); }
    assert (rows + [row])[..|rows|] == rows;
  }

  // A row that may be inserted: the next uid, and content exactly when it has bytes.
  ghost predicate Insertable(t: Tables, row: Rev, content: Option<Blob>) {
    && row.vault in t.vaults && row.uid == t.sequence + 1 <= MAX_JS_SAFE_INTEGER
    && row.pieces == Pieces(row.size) && (row.folder || row.deleted ==> row.size == 0)
    && row.inline.None? && (content.Some? <==> row.size > 0) && (content.Some? ==> |content.value| == row.size)
  }

  // The tables after `row` was committed to them.
  ghost predicate Commits(t: Tables, n: Tables, row: Rev) {
    && row.vault in t.vaults && row.uid == t.sequence + 1 == n.sequence
    && n.revisions == t.revisions + [row] && n.vaults.Keys == t.vaults.Keys && Inv(n)
    && n.contents - {row.uid} == t.contents - {row.uid}
    && (forall v | v in t.vaults ::
          n.vaults[v].owner == t.vaults[v].owner && n.vaults[v].profile == t.vaults[v].profile)
  }

  // What a committed row does to the live state of its vault: a tombstone takes its path
  // away, anything else becomes what the path shows. Other vaults keep their rows.
  ghost predicate ShowsIn(t: Tables, n: Tables, row: Rev) {
    && Live(Rows(n, row.vault)) == (if row.deleted then Live(Rows(t, row.vault)) - {row.path}
                                    else Live(Rows(t, row.vault))[row.path := row])
    && (forall w {:trigger Rows(n, w)} | w != row.vault :: Rows(n, w) == Rows(t, w))
  }

  lemma CommitShows(t: Tables, n: Tables, row: Rev)
    requires n.revisions == t.revisions + [row]
    ensures ShowsIn(t, n, row)
  {
    forall w ensures Rows(n, w) == if w == row.vault then Rows(t, w) + [row] else Rows(t, w) {
      RowsSnoc(t.revisions, row, w);
    }
    ReplayConcat(map[], Rows(t, row.vault), [row]);
    assert Replay(Live(Rows(t, row.vault)), [row]) == Apply(Live(Rows(t, row.vault)), row);
  }

  lemma CommitInv(t: Tables, row: Rev, content: Option<Blob>)
    requires Inv(t) && Insertable(t, row, content)
    ensures Inv(Commit(t, row, content))
  {
    CommitRows(t, row, content);
    CommitTotals(t, row, content);
    forall v | v in t.vaults ensures VaultOk(Commit(t, row, content), v) { CommitVault(t, row, content, v); }
  }

  lemma CommitSound(t: Tables, row: Rev, content: Option<Blob>)
    requires Inv(t) && Insertable(t, row, content)
    ensures Commits(t, Commit(t, row, content), row)
  {
    CommitInv(t, row, content);
    CommitTotals(t, row, content);
    CommitContents(t, row, content);
  }

  lemma CommitContents(t: Tables, row: Rev, content: Option<Blob>)
    requires row.vault in t.vaults
    ensures Commit(t, row, content).contents - {row.uid} == t.contents - {row.uid}
  {
  }

  lemma CommitTotals(t: Tables, row: Rev, content: Option<Blob>)
    requires row.vault in t.vaults && t.usage == Bytes(t.revisions)
    ensures var n := Commit(t, row, content);
      n.usage == Bytes(n.revisions) && n.vaults.Keys == t.vaults.Keys && |n.vaults| == |t.vaults|
  {
    BytesSnoc(t.revisions, row);
    var n := Commit(t, row, content);
    assert n.vaults.Keys == t.vaults.Keys;
    assert |n.vaults| == |n.vaults.Keys| && |t.vaults| == |t.vaults.Keys|;
  }

  lemma CommitVault(t: Tables, row: Rev, content: Option<Blob>, v: VaultId)
    requires Inv(t) && Insertable(t, row, content) && v in t.vaults
    ensures VaultOk(Commit(t, row, content), v)
  {
    forall r | r in t.revisions ensures r.uid < row.uid { assert RowOk(t, r); }
    RowsSnoc(t.revisions, row, v);
    MaxSnoc(Rows(t, v), row);
    assert VaultOk(t, v);
  }

  lemma CommitRows(t: Tables, row: Rev, content: Option<Blob>)
    requires Inv(t) && Insertable(t, row, content)
    ensures var n := Commit(t, row, content);
      Sorted(n.revisions) && (forall r | r in n.revisions :: RowOk(n, r)) && n.contents.Keys <= Uids(n.revisions)
  {
    var n := Commit(t, row, content);
    forall r | r in t.revisions ensures r.uid < row.uid { assert RowOk(t, r); }
    SortedSnoc(t.revisions, row);
    forall r | r in n.revisions ensures RowOk(n, r) {
      if r in t.revisions { assert RowOk(t, r); }
    }
    forall u | u in n.contents ensures u in Uids(n.revisions) {
      if u in t.contents {
        var r :| r in t.revisions && r.uid == u;
        assert r in n.revisions;
      } else {
        assert row in n.revisions;
      }
    }
  }

  lemma VersionBound(t: Tables, v: VaultId)
    requires Inv(t) && v in t.vaults
    ensures t.vaults[v].version == MaxUid(Rows(t, v)) <= t.sequence
  {
    assert VaultOk(t, v);
    if Rows(t, v) != [] {
      var r := MaxUidIn(Rows(t, v));
      assert RowOk(t, r);
    }
  }

  // The size of a vault is what a fresh client is sent of it, byte for byte.
  lemma SizeIsLive(t: Tables, v: VaultId)
    requires Inv(t) && v in t.vaults
    ensures t.vaults[v].size == Bytes(Snapshot(Rows(t, v)))
  {
    var rows := Rows(t, v);
    var live, file, rest := Snapshot(rows), LiveFile(rows), Not(LiveFile(rows));
    BytesSplit(live, file, rest);
    FilterFilter(rows, LiveHead(rows), file, file);
    forall r | r in Filter(live, rest) ensures r.size == 0 { assert RowOk(t, r); }
    BytesNone(Filter(live, rest));
    assert VaultOk(t, v);
  }

  lemma DeleteUids(t: Tables, keep: Rev -> bool)
    requires Sorted(t.revisions) && t.contents.Keys <= Uids(t.revisions)
    ensures forall r | r in t.revisions && keep(r) :: r.uid !in Uids(Filter(t.revisions, Not(keep)))
    ensures Delete(t, keep).contents.Keys <= Uids(Filter(t.revisions, keep))
  {
    var gone := Filter(t.revisions, Not(keep));
    forall r, g | r in t.revisions && keep(r) && g in gone ensures g.uid != r.uid {
      if g.uid == r.uid { SortedIndex(t.revisions, g, r); }
    }
    forall u | u in t.contents && u !in Uids(gone) ensures u in Uids(Filter(t.revisions, keep)) {
      var r :| r in t.revisions && r.uid == u;
      assert !keep(r) ==> r in gone;
    }
  }

  lemma DeleteInv(t: Tables, keep: Rev -> bool)
    requires Sorted(t.revisions) && t.usage == Bytes(t.revisions) && t.contents.Keys <= Uids(t.revisions)
    requires forall r | r in t.revisions && keep(r) :: RowOk(t, r)
    ensures var n := Delete(t, keep);
      && Sorted(n.revisions) && n.usage == Bytes(n.revisions) && n.contents.Keys <= Uids(n.revisions)
      && (forall r | r in n.revisions :: RowOk(n, r) && Content(n, r) == Content(t, r))
  {
    var n := Delete(t, keep);
    FilterSorted(t.revisions, keep);
    BytesSplit(t.revisions, keep, Not(keep));
    DeleteUids(t, keep);
    forall r | r in n.revisions ensures RowOk(n, r) && Content(n, r) == Content(t, r) { assert RowOk(t, r); }
  }

  // A row that is still there with its bytes.
  ghost predicate Survives(t: Tables, n: Tables, r: Rev) { r in n.revisions && Content(n, r) == Content(t, r) }

  // Every head of the vault and every row of another vault survive.
  ghost predicate HeadsSurvive(t: Tables, n: Tables, v: VaultId) {
    forall r {:trigger Survives(t, n, r)} | r in t.revisions && (r.vault != v || IsHead(Rows(t, v), r)) ::
      Survives(t, n, r)
  }

  // Compaction leaves every derived column of every vault as it was.
  lemma CompactInv(t: Tables, v: VaultId, keep: Rev -> bool)
    requires Inv(t) && v in t.vaults && KeepsHeads(Rows(t, v), keep)
    ensures var n := Refreshed(Delete(t, Outside(v, keep)), v);
      Inv(n) && n.vaults == t.vaults && n.sequence == t.sequence && n.revisions == DropFrom(t.revisions, v, keep)
  {
    var d := Delete(t, Outside(v, keep));
    var n := Refreshed(d, v);
    DeleteInv(t, Outside(v, keep));
    DropFromVault(t.revisions, v, keep);
    FilterSorted(t.revisions, InVault(v));
    CompactionKeepsTotals(Rows(t, v), keep);
    assert VaultOk(t, v);
    assert n.vaults == t.vaults;
    forall w | w in t.vaults ensures VaultOk(n, w) {
      assert VaultOk(t, w);
      if w != v { DropFromOther(t.revisions, v, keep, w); }
    }
    assert forall r | r in n.revisions :: RowOk(n, r) by {
      forall r | r in n.revisions ensures RowOk(n, r) { assert RowOk(d, r); }
    }
  }

  lemma CompactSurvives(t: Tables, v: VaultId, keep: Rev -> bool)
    requires Inv(t) && v in t.vaults && KeepsHeads(Rows(t, v), keep)
    ensures HeadsSurvive(t, Refreshed(Delete(t, Outside(v, keep)), v), v)
  {
    var d := Delete(t, Outside(v, keep));
    forall r | r in t.revisions && (r.vault != v || IsHead(Rows(t, v), r)) ensures Survives(t, Refreshed(d, v), r) {
      RowSurvives(t, Outside(v, keep), r);
    }
  }

  lemma RowSurvives(t: Tables, keep: Rev -> bool, r: Rev)
    requires Inv(t) && r in t.revisions && keep(r)
    ensures Survives(t, Delete(t, keep), r)
  {
    forall q | q in t.revisions ensures RowOk(t, q) {}
    DeleteInv(t, keep);
  }

  // A row stays, with its bytes, or goes.
  ghost predicate Leaves(t: Tables, n: Tables, r: Rev, stays: bool) {
    (r in n.revisions <==> stays) && (stays ==> Content(n, r) == Content(t, r))
  }

  lemma DeleteLeaves(t: Tables, v: VaultId, keep: Rev -> bool, r: Rev)
    requires Inv(t) && v in t.vaults && r in t.revisions
    ensures Leaves(t, Refreshed(Delete(t, Outside(v, keep)), v), r, r.vault != v || keep(r))
  {
    if r.vault != v || keep(r) { RowSurvives(t, Outside(v, keep), r); }
  }

  // The last row of its path in the vault, or a row of another vault.
  predicate Newest(t: Tables, v: VaultId, r: Rev) { r.vault != v || Last(Rows(t, v), r.path) == Some(r) }

  // The path was deleted: its last row is a tombstone.
  predicate Tombstoned(rows: seq<Rev>, p: string) { Last(rows, p).Some? && Last(rows, p).value.deleted }

  // Exactly the last row of every path of the vault is left of it.
  ghost predicate OnlyNewest(t: Tables, n: Tables, v: VaultId) {
    && (forall r | r in n.revisions :: r in t.revisions)
    && (forall r {:trigger Newest(t, v, r)} | r in t.revisions :: Leaves(t, n, r, Newest(t, v, r)))
  }

  // Exactly the history of deleted files is gone: of a path whose last row is a tombstone
  // that row is left, of every other path all rows are.
  ghost predicate OnlyHistoryGone(t: Tables, n: Tables, v: VaultId) {
    && (forall r | r in n.revisions :: r in t.revisions)
    && (forall r {:trigger Newest(t, v, r)} | r in t.revisions ::
          Leaves(t, n, r, Newest(t, v, r) || !Tombstoned(Rows(t, v), r.path)))
  }

  lemma PurgeExact(t: Tables, v: VaultId)
    requires Inv(t) && v in t.vaults
    ensures OnlyNewest(t, Purge(t, v, true).0, v)
  {
    FilterSorted(t.revisions, InVault(v));
    forall r | r in t.revisions ensures Leaves(t, Purge(t, v, true).0, r, Newest(t, v, r)) {
      DeleteLeaves(t, v, HeadOf(Rows(t, v)), r);
      HeadIsLast(Rows(t, v), r);
    }
  }

  // A purge leaves exactly the last row of every path of the vault, and the other vaults.
  lemma PurgeInv(t: Tables, v: VaultId, allowed: bool)
    requires Inv(t)
    ensures var (n, o) := Purge(t, v, allowed);
      && Inv(n) && n.vaults == t.vaults && n.sequence == t.sequence && HeadsSurvive(t, n, v)
      && (if allowed && v in t.vaults then o == Done(()) && OnlyNewest(t, n, v)
          else o == Refused(Unauthorized) && n == t)
  {
    if allowed && v in t.vaults {
      FilterSorted(t.revisions, InVault(v));
      PurgesKeepHeads(Rows(t, v));
      CompactInv(t, v, HeadOf(Rows(t, v)));
      CompactSurvives(t, v, HeadOf(Rows(t, v)));
      PurgeExact(t, v);
    }
  }

  lemma SparedExact(rows: seq<Rev>, r: Rev)
    requires Sorted(rows) && r in rows
    ensures Spared(rows, r) <==> !Tombstoned(rows, r.path) || Last(rows, r.path) == Some(r)
  {
    LastIsHead(rows, r.path);
    var l := Last(rows, r.path).value;
    if l.uid == r.uid { SortedIndex(rows, l, r); }
    forall d | d in rows && IsHead(rows, d) && d.path == r.path ensures d == l { HeadIsLast(rows, d); }
  }

  lemma PurgeDeletedExact(t: Tables, v: VaultId)
    requires Inv(t) && v in t.vaults
    ensures var (n, o) := PurgeDeleted(t, v); OnlyHistoryGone(t, n, v) && o == Done(|t.revisions| - |n.revisions|)
  {
    var keep := SparedIn(Rows(t, v));
    FilterSorted(t.revisions, InVault(v));
    FilterLengths(t.revisions, Outside(v, keep), Not(Outside(v, keep)));
    forall r | r in t.revisions
      ensures Leaves(t, PurgeDeleted(t, v).0, r, Newest(t, v, r) || !Tombstoned(Rows(t, v), r.path))
    {
      DeleteLeaves(t, v, keep, r);
      if r.vault == v { SparedExact(Rows(t, v), r); }
    }
  }

  // The offline purge removes exactly the history of deleted files and answers how many
  // rows it removed.
  lemma PurgeDeletedInv(t: Tables, v: VaultId)
    requires Inv(t)
    ensures var (n, o) := PurgeDeleted(t, v);
      && Inv(n) && n.vaults == t.vaults && n.sequence == t.sequence && HeadsSurvive(t, n, v)
      && (if v in t.vaults then OnlyHistoryGone(t, n, v) && o == Done(|t.revisions| - |n.revisions|)
          else o == Refused(NotFound) && n == t)
  {
    if v in t.vaults {
      FilterSorted(t.revisions, InVault(v));
      PurgesKeepHeads(Rows(t, v));
      CompactInv(t, v, SparedIn(Rows(t, v)));
      CompactSurvives(t, v, SparedIn(Rows(t, v)));
      PurgeDeletedExact(t, v);
    }
  }

  lemma DropVaultRows(t: Tables, v: VaultId, w: VaultId)
    ensures Rows(DropVault(t, v), w) == if w == v then [] else Rows(t, w)
  {
    if w == v {
      FilterNone(DropVault(t, v).revisions, InVault(v));
    } else {
      FilterFilter(t.revisions, Not(InVault(v)), InVault(w), InVault(w));
    }
  }

  // Nothing of another vault changes.
  ghost predicate OthersSurvive(t: Tables, n: Tables, v: VaultId) {
    && (forall w {:trigger Rows(n, w)} | w in t.vaults && w != v :: Rows(n, w) == Rows(t, w))
    && (forall r {:trigger Survives(t, n, r)} | r in t.revisions && r.vault != v :: Survives(t, n, r))
  }

  lemma DropSurvives(t: Tables, v: VaultId)
    requires Inv(t)
    ensures OthersSurvive(t, DropVault(t, v), v)
  {
    var n, s := DropVault(t, v), t.(vaults := t.vaults - {v});
    forall r | r in s.revisions && r.vault != v ensures RowOk(s, r) { assert RowOk(t, r); }
    DeleteInv(s, Not(InVault(v)));
    forall w | w in t.vaults && w != v ensures Rows(n, w) == Rows(t, w) { DropVaultRows(t, v, w); }
    forall r | r in t.revisions && r.vault != v ensures Survives(t, n, r) { assert r in n.revisions; }
  }

  lemma DropVaultInv(t: Tables, v: VaultId)
    requires Inv(t)
    ensures var n := DropVault(t, v);
      Inv(n) && n.vaults == t.vaults - {v} && n.sequence == t.sequence && OthersSurvive(t, n, v)
  {
    var n, s := DropVault(t, v), t.(vaults := t.vaults - {v});
    forall r | r in s.revisions && r.vault != v ensures RowOk(s, r) { assert RowOk(t, r); }
    DeleteInv(s, Not(InVault(v)));
    forall w | w in n.vaults ensures VaultOk(n, w) {
      assert VaultOk(t, w);
      DropVaultRows(t, v, w);
    }
    assert n.vaults.Keys == t.vaults.Keys - {v};
    DropSurvives(t, v);
  }

  // A created vault is its owner's, empty and beside all others; it is refused exactly when
  // the caller may not, a hundred vaults exist or the id is taken.
  lemma CreateInv(t: Tables, id: VaultId, owner: nat, profile: string, allowed: bool)
    requires Inv(t)
    ensures var (n, o) := Create(t, id, owner, profile, allowed);
      && Inv(n) && n.sequence == t.sequence && n.revisions == t.revisions && n.contents == t.contents
      && (o.Done? <==> allowed && |t.vaults| < MAX_VAULTS && id !in t.vaults) && (o.Refused? ==> n == t)
      && (o.Done? ==> id in n.vaults && n.vaults[id] == Vault(owner, profile, 0, 0) && n.vaults - {id} == t.vaults)
  {
    var (n, o) := Create(t, id, owner, profile, allowed);
    if o.Done? { CreatedInv(t, n, id, Vault(owner, profile, 0, 0)); }
  }

  lemma CreatedInv(t: Tables, n: Tables, id: VaultId, vault: Vault)
    requires Inv(t) && id !in t.vaults && |t.vaults| < MAX_VAULTS && vault.size == vault.version == 0
    requires n == t.(vaults := t.vaults[id := vault])
    ensures Inv(n)
  {
    forall r | r in n.revisions ensures RowOk(n, r) { assert RowOk(t, r); }
    forall v | v in n.vaults ensures VaultOk(n, v) {
      if v != id { assert VaultOk(t, v); } else { NoRowsOutside(t, id); }
    }
    OneKeyMore(t.vaults, id, vault);
  }

  lemma ReplaceVaultInv(t: Tables, v: VaultId, w: VaultId, profile: string)
    requires Inv(t) && v in t.vaults && w !in t.vaults
    ensures var n := ReplaceVault(t, v, w, profile);
      && Inv(n) && n.sequence == t.sequence && Rows(n, w) == [] && OthersSurvive(t, n, v)
      && n.vaults == (t.vaults - {v})[w := Vault(t.vaults[v].owner, profile, 0, 0)]
  {
    var d := DropVault(t, v);
    DropVaultInv(t, v);
    assert d.vaults.Keys == t.vaults.Keys - {v};
    CreateInv(d, w, t.vaults[v].owner, profile, true);
    ReplaceIsCreate(t, v, w, profile);
    NoRowsOutside(d, w);
    ReplaceSurvives(t, d, ReplaceVault(t, v, w, profile), v);
  }

  lemma ReplaceSurvives(t: Tables, d: Tables, n: Tables, v: VaultId)
    requires OthersSurvive(t, d, v) && n.revisions == d.revisions && n.contents == d.contents
    ensures OthersSurvive(t, n, v)
  {
    forall w | w in t.vaults && w != v ensures Rows(n, w) == Rows(t, w) { assert Rows(d, w) == Rows(t, w); }
    forall r | r in t.revisions && r.vault != v ensures Survives(t, n, r) { assert Survives(t, d, r); }
  }

  lemma NoRowsOutside(t: Tables, v: VaultId)
    requires Inv(t) && v !in t.vaults
    ensures Rows(t, v) == []
  {
    forall r | r in t.revisions ensures r.vault != v { assert RowOk(t, r); }
    FilterNone(t.revisions, InVault(v));
  }

  lemma ReplaceIsCreate(t: Tables, v: VaultId, w: VaultId, profile: string)
    requires v in t.vaults && w !in t.vaults && |t.vaults| <= MAX_VAULTS
    ensures ReplaceVault(t, v, w, profile) == Create(DropVault(t, v), w, t.vaults[v].owner, profile, true).0
  {
    var empty := Vault(t.vaults[v].owner, profile, 0, 0);
    assert (t.vaults - {v}).Keys == t.vaults.Keys - {v};
    assert |t.vaults - {v}| == |(t.vaults - {v}).Keys| && |t.vaults| == |t.vaults.Keys|;
    assert t.vaults[w := empty] - {v} == (t.vaults - {v})[w := empty];
  }

  // The committed row is the one that was asked for.
  ghost predicate Carries(row: Rev, r: NewRev, ts: int) {
    && row.vault == r.vault && row.path == r.path && row.related == r.related && row.info == r.info
    && row.folder == r.folder && row.deleted == r.deleted && row.size == r.size && row.pieces == r.pieces
    && row.inline == None && row.device == r.device && row.user == r.user && row.ts == ts
  }

  // A push commits exactly what was asked for, visible at once, or changes nothing.
  lemma AddEmptyInv(t: Tables, r: NewRev, allowed: bool, lim: Limits, ts: int)
    requires Inv(t)
    ensures var (n, o) := AddEmpty(t, r, allowed, lim, ts);
      if o.Done? then Carries(o.value, r, ts) && Commits(t, n, o.value) && ShowsIn(t, n, o.value) else n == t
  {
    var (n, o) := AddEmpty(t, r, allowed, lim, ts);
    if o.Done? {
      CommitSound(t, NewRow(t, r, ts), None);
      CommitShows(t, n, o.value);
    }
  }

  lemma AddFileInv(t: Tables, r: NewRev, staged: Blob, allowed: bool, lim: Limits, ts: int)
    requires Inv(t)
    ensures var (n, o) := AddFile(t, r, staged, allowed, lim, ts);
      if o.Done? then
        && Carries(o.value, r, ts) && Commits(t, n, o.value) && ShowsIn(t, n, o.value)
        && Content(n, o.value) == Some(staged)
      else n == t
  {
    var (n, o) := AddFile(t, r, staged, allowed, lim, ts);
    if o.Done? {
      CommitSound(t, NewRow(t, r, ts), Some(staged));
      CommitShows(t, n, o.value);
    }
  }

  // ----- when a write is admitted -----

  // Both limits leave room for the bytes beside everything stored.
  ghost predicate Roomy(t: Tables, v: VaultId, bytes: int, lim: Limits)
    requires v in t.vaults
  {
    && 0 <= bytes && 0 <= lim.global && 0 <= lim.owner
    && (bytes > 0 ==> Bytes(t.revisions) + bytes <= lim.global
                      && OwnerBytes(t, t.vaults[v].owner) + bytes <= lim.owner)
  }

  // The caller may write, the version named is the newest uid of the vault, the bytes fit
  // and there is a uid left.
  ghost predicate Writable(t: Tables, r: NewRev, allowed: bool, lim: Limits) {
    && allowed && r.vault in t.vaults && Roomy(t, r.vault, r.size, lim) && t.sequence < MAX_JS_SAFE_INTEGER
    && (r.expected.Some? ==> r.expected.value == MaxUid(Rows(t, r.vault)))
  }

  lemma QuotaExact(t: Tables, v: VaultId, bytes: int, lim: Limits)
    requires Inv(t) && v in t.vaults
    ensures QuotaCheck(t, v, bytes, lim).None? <==> Roomy(t, v, bytes, lim)
  {
  }

  lemma AdmissionExact(t: Tables, r: NewRev, allowed: bool, lim: Limits)
    requires Inv(t)
    ensures Admission(t, r, allowed, lim).None? <==> Writable(t, r, allowed, lim)
    ensures Admission(t, r, allowed, lim) == Some(Unauthorized) <==> !allowed || r.vault !in t.vaults
  {
    if r.vault in t.vaults {
      VersionBound(t, r.vault);
      QuotaExact(t, r.vault, r.size, lim);
    }
  }

  // A push is carried out exactly when it is well formed and admissible.
  lemma PushExact(t: Tables, r: NewRev, staged: Blob, allowed: bool, lim: Limits, ts: int)
    requires Inv(t)
    ensures AddEmpty(t, r, allowed, lim, ts).1.Done? <==> r.size == r.pieces == 0 && Writable(t, r, allowed, lim)
    ensures AddFile(t, r, staged, allowed, lim, ts).1.Done? <==>
      && !r.folder && !r.deleted && r.size == |staged| > 0 && r.pieces == Pieces(r.size)
      && Writable(t, r, allowed, lim)
  {
    AdmissionExact(t, r, allowed, lim);
  }

  // ----- what a restore brings back -----

  // Restoring `x` brings back `q`: a live row itself, a tombstone the newest live row of
  // its path below it.
  ghost predicate Brings(rows: seq<Rev>, x: Rev, q: Rev) {
    && q in rows && !q.deleted
    && if !x.deleted then q == x
       else q.path == x.path && q.uid < x.uid
            && forall p | p in rows && p.path == x.path && p.uid < x.uid && !p.deleted :: p.uid <= q.uid
  }

  lemma SourceExact(t: Tables, x: Rev)
    requires Inv(t) && x in t.revisions
    ensures match RestoreSource(t, x)
      case Some(q) => Brings(Rows(t, x.vault), x, q)
      case None => x.deleted && forall q | q in Rows(t, x.vault) && q.path == x.path && q.uid < x.uid :: q.deleted
  {
    var live := Filter(Rows(t, x.vault), LiveBefore(x.path, x.uid));
    FilterSorted(t.revisions, InVault(x.vault));
    FilterSorted(Rows(t, x.vault), LiveBefore(x.path, x.uid));
    LastIsHead(live, x.path);
    forall p | p in Rows(t, x.vault) && p.path == x.path && p.uid < x.uid && !p.deleted ensures p in live {}
  }

  lemma SourceOk(t: Tables, target: Rev)
    requires Inv(t) && target in t.revisions && RestoreSource(t, target).Some?
    ensures var source := RestoreSource(t, target).value;
      source in t.revisions && source.vault == target.vault && source.path == target.path && !source.deleted
      && RowOk(t, source)
  {
    assert RowOk(t, target);
    assert RowOk(t, RestoreSource(t, target).value);
  }

  lemma SourceBytes(t: Tables, source: Rev)
    requires RowOk(t, source) && source.size > 0
    ensures Content(t, source).Some? && |Content(t, source).value| == source.size
  {
  }

  lemma RestoredSound(t: Tables, target: Rev, source: Rev, device: string, user: nat, ts: int)
    requires Inv(t) && target.vault in t.vaults && RowOk(t, source) && t.sequence < MAX_JS_SAFE_INTEGER
    ensures var row := RestoredRow(t, target, source, device, user, ts);
      Commits(t, Commit(t, row, if source.size > 0 then Content(t, source) else None), row)
  {
    var bytes := if source.size > 0 then Content(t, source) else None;
    CommitSound(t, RestoredRow(t, target, source, device, user, ts), bytes);
  }

  // The restored row: the path of its target, everything else but author and time from the
  // row it brings back, and alive.
  ghost predicate Copies(row: Rev, q: Rev, v: VaultId, device: string, user: nat, ts: int) {
    && row.vault == v && row.path == q.path && row.related == None && row.info == q.info && row.folder == q.folder
    && !row.deleted && row.size == q.size && row.pieces == q.pieces && row.inline == None
    && row.device == device && row.user == user && row.ts == ts
  }

  // The uid names no row of the vault, or a tombstone without a live row below it.
  ghost predicate Nothing(rows: seq<Rev>, uid: int) {
    forall x | x in rows && x.uid == uid ::
      x.deleted && forall q | q in rows && q.path == x.path && q.uid < x.uid :: q.deleted
  }

  ghost predicate Restored(t: Tables, n: Tables, x: Rev, q: Rev, row: Rev, device: string, user: nat, ts: int) {
    && x in Rows(t, x.vault) && Brings(Rows(t, x.vault), x, q) && Copies(row, q, x.vault, device, user, ts)
    && Commits(t, n, row) && ShowsIn(t, n, row) && Content(n, row) == Content(t, q)
  }

  lemma RestoreAnswer(t: Tables, x: Rev, q: Rev, device: string, user: nat, lim: Limits, fits: bool, ts: int)
    requires Inv(t) && x.vault in t.vaults && RowOk(t, q)
    ensures var (n, o) := RestoreFrom(t, x, q, device, user, lim, fits, ts);
      && (o.Done? <==> Roomy(t, x.vault, q.size, lim) && t.sequence < MAX_JS_SAFE_INTEGER && fits)
      && (o.Refused? ==> n == t && o != Refused(ContentChanged) && o != Refused(Unauthorized))
      && (o.Done? ==> o.value == Some(RestoredRow(t, x, q, device, user, ts)))
      && (o.Done? ==> n == Commit(t, o.value.value, if q.size > 0 then Content(t, q) else None))
  {
    QuotaExact(t, x.vault, q.size, lim);
    if q.size > 0 { SourceBytes(t, q); }
  }

  lemma RestoredContent(t: Tables, n: Tables, q: Rev, row: Rev, bytes: Option<Blob>)
    requires RowOk(t, q) && row.vault in t.vaults && row.inline == None && row.size == q.size
    requires row.uid !in t.contents && bytes == (if q.size > 0 then Content(t, q) else None)
    requires n == Commit(t, row, bytes)
    ensures Content(n, row) == Content(t, q)
  {
    if q.size > 0 { SourceBytes(t, q); }
  }

  lemma RestoredCopies(t: Tables, x: Rev, q: Rev, device: string, user: nat, ts: int)
    requires Brings(Rows(t, x.vault), x, q)
    ensures Copies(RestoredRow(t, x, q, device, user, ts), q, x.vault, device, user, ts)
  {
  }

  lemma FreshUid(t: Tables)
    requires Inv(t)
    ensures t.sequence + 1 !in t.contents
  {
    forall r | r in t.revisions ensures r.uid <= t.sequence { assert RowOk(t, r); }
  }

  lemma RestoredExact(t: Tables, n: Tables, x: Rev, q: Rev, device: string, user: nat, ts: int)
    requires Inv(t) && x in t.revisions && x.vault in t.vaults && RowOk(t, q) && Brings(Rows(t, x.vault), x, q)
    requires t.sequence < MAX_JS_SAFE_INTEGER
    requires n == Commit(t, RestoredRow(t, x, q, device, user, ts), if q.size > 0 then Content(t, q) else None)
    ensures Restored(t, n, x, q, RestoredRow(t, x, q, device, user, ts), device, user, ts)
  {
    var row := RestoredRow(t, x, q, device, user, ts);
    FreshUid(t);
    RestoredSound(t, x, q, device, user, ts);
    RestoredContent(t, n, q, row, if q.size > 0 then Content(t, q) else None);
    RestoredCopies(t, x, q, device, user, ts);
    CommitShows(t, n, row);
  }

  lemma RestoreFromExact(t: Tables, x: Rev, q: Rev, device: string, user: nat, lim: Limits, fits: bool, ts: int)
    requires Inv(t) && x in t.revisions && x.vault in t.vaults && RestoreSource(t, x) == Some(q)
    ensures var (n, o) := RestoreFrom(t, x, q, device, user, lim, fits, ts);
      && (o.Done? <==> Roomy(t, x.vault, q.size, lim) && t.sequence < MAX_JS_SAFE_INTEGER && fits)
      && (o.Done? ==> o.value.Some? && Restored(t, n, x, q, o.value.value, device, user, ts))
      && (o.Refused? ==> n == t && o != Refused(ContentChanged) && o != Refused(Unauthorized))
  {
    SourceOk(t, x);
    SourceExact(t, x);
    RestoreAnswer(t, x, q, device, user, lim, fits, ts);
    var (n, o) := RestoreFrom(t, x, q, device, user, lim, fits, ts);
    if o.Done? { RestoredExact(t, n, x, q, device, user, ts); }
  }

  // A restore commits a copy of exactly the row it should bring back, answers that there is
  // nothing to bring back exactly when that is so, and in a sound store is never refused
  // for its content.
  lemma RestoreInv(
    t: Tables, v: VaultId, uid: int, device: string, user: nat, allowed: bool, lim: Limits, fits: bool, ts: int)
    requires Inv(t)
    ensures var (n, o) := Restore(t, v, uid, device, user, allowed, lim, fits, ts);
      && o != Refused(ContentChanged) && (o == Refused(Unauthorized) <==> !allowed || v !in t.vaults)
      && (o == Done(None) <==> allowed && v in t.vaults && Nothing(Rows(t, v), uid))
      && if o.Done? && o.value.Some? then
           && o.value.value.vault == v && Commits(t, n, o.value.value)
           && exists x: Rev, q: Rev ::
                x.uid == uid && x.vault == v && Restored(t, n, x, q, o.value.value, device, user, ts)
         else n == t
  {
    if allowed && v in t.vaults && Find(Rows(t, v), uid).Some? {
      var x := Find(Rows(t, v), uid).value;
      FilterSorted(t.revisions, InVault(v));
      forall y | y in Rows(t, v) && y.uid == uid ensures y == x { SortedIndex(Rows(t, v), x, y); }
      SourceExact(t, x);
      if RestoreSource(t, x).Some? {
        RestoreFromExact(t, x, RestoreSource(t, x).value, device, user, lim, fits, ts);
      }
    }
  }

  // What the deleted list shows is exactly what can be brought back: a tombstone at the end
  // of its path is listed if and only if restoring it does not come back empty.
  lemma ListedRestorable(t: Tables, x: Rev)
    requires Inv(t) && x in t.revisions && Last(Rows(t, x.vault), x.path) == Some(x) && x.deleted
    ensures x in Deleted(Rows(t, x.vault), false) <==> !Nothing(Rows(t, x.vault), x.uid)
  {
    var rows := Rows(t, x.vault);
    FilterSorted(t.revisions, InVault(x.vault));
    ListedExact(rows, x);
    forall y | y in rows && y.uid == x.uid ensures y == x { SortedIndex(rows, x, y); }
  }

  // It is carried out exactly when there is something to bring back and it fits.
  lemma RestoreExact(
    t: Tables, x: Rev, q: Rev, device: string, user: nat, allowed: bool, lim: Limits, fits: bool, ts: int)
    requires Inv(t) && x in t.revisions && x.vault in t.vaults && Brings(Rows(t, x.vault), x, q)
    ensures var (n, o) := Restore(t, x.vault, x.uid, device, user, allowed, lim, fits, ts);
      && (o.Done? <==> allowed && Roomy(t, x.vault, q.size, lim) && t.sequence < MAX_JS_SAFE_INTEGER && fits)
      && (o.Done? ==> o.value.Some? && Restored(t, n, x, q, o.value.value, device, user, ts))
  {
    var rows := Rows(t, x.vault);
    assert RowOk(t, x);
    FilterSorted(t.revisions, InVault(x.vault));
    SortedIndex(rows, x, Find(rows, x.uid).value);
    SourceExact(t, x);
    var p := RestoreSource(t, x).value;
    SortedIndex(rows, p, q);
    RestoreFromExact(t, x, q, device, user, lim, fits, ts);
  }
}
