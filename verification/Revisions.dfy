// Rows of the `revisions` table, the queries over the rows of one vault, and what a
// client that applies rows in order ends up with.
module Revisions {
  import opened Lists

  const MAX_JS_SAFE_INTEGER: nat := 9_007_199_254_740_991
  const PIECE_SIZE: nat := 2_097_152  // 2 MiB

  type VaultId = string
  type Blob = seq<bv8>

  datatype Info = Info(extension: string, hash: string, ctime: int, mtime: int)

  datatype Rev = Rev(
    uid: nat, vault: VaultId, path: string, related: Option<string>, info: Info,
    folder: bool, deleted: bool, size: nat, pieces: nat, inline: Option<Blob>,
    device: string, user: nat, ts: int)

  // Tables are kept in primary-key order.
  ghost predicate Sorted(rows: seq<Rev>) {
    forall i, j | 0 <= i < j < |rows| :: rows[i].uid < rows[j].uid
  }

  function Bytes(rows: seq<Rev>): nat {
    if rows == [] then 0 else Bytes(rows[..|rows| - 1]) + rows[|rows| - 1].size
  }

  function InVault(v: VaultId): Rev -> bool { (r: Rev) => r.vault == v }
  function VaultRows(table: seq<Rev>, v: VaultId): seq<Rev> { Filter(table, InVault(v)) }

  function Between(after: nat, through: nat): Rev -> bool { (r: Rev) => after < r.uid <= through }
  function Above(after: nat): Rev -> bool { (r: Rev) => after < r.uid }
  function Upto(through: nat): Rev -> bool { (r: Rev) => r.uid <= through }

  // `uid IN (SELECT MAX(uid) ... GROUP BY path)` over the rows of one vault.
  predicate IsHead(rows: seq<Rev>, r: Rev) {
    r in rows && forall q | q in rows :: q.path == r.path ==> q.uid <= r.uid
  }

  function HeadOf(rows: seq<Rev>): Rev -> bool { (r: Rev) => IsHead(rows, r) }
  function LiveHead(rows: seq<Rev>): Rev -> bool { (r: Rev) => IsHead(rows, r) && !r.deleted }
  function LiveFile(rows: seq<Rev>): Rev -> bool { (r: Rev) => IsHead(rows, r) && !r.deleted && !r.folder }

  // `vault_size`: ciphertext bytes of the live file heads.
  function LiveBytes(rows: seq<Rev>): nat { Bytes(Filter(rows, LiveFile(rows))) }

  // The high-water mark of a set of rows, 0 when there are none.
  function MaxUid(rows: seq<Rev>): (m: nat)
    ensures forall r | r in rows :: r.uid <= m
    ensures rows == [] ==> m == 0
  {
    if rows == [] then 0
    else
      var m := MaxUid(rows[..|rows| - 1]);
      assert rows == rows[..|rows| - 1] + [rows[|rows| - 1]];
      if m < rows[|rows| - 1].uid then rows[|rows| - 1].uid else m
  }

  lemma {:induction false} MaxUidIn(rows: seq<Rev>) returns (r: Rev)
    requires rows != []
    ensures r in rows && r.uid == MaxUid(rows)
  {
    r := rows[|rows| - 1];
    if |rows| > 1 && MaxUid(rows) != r.uid {
      r := MaxUidIn(rows[..|rows| - 1]);
    }
  }

  // The one-shot lists of the reference implementation.
  function Changes(rows: seq<Rev>, after: nat): seq<Rev> { Filter(rows, Above(after)) }
  function Snapshot(rows: seq<Rev>): seq<Rev> { Filter(rows, LiveHead(rows)) }

  predicate Listed(rows: seq<Rev>, suppress: bool, r: Rev) {
    && IsHead(rows, r) && r.deleted
    && (exists q | q in rows :: q.path == r.path && q.uid < r.uid && !q.deleted)
    && (suppress ==> !exists q | q in rows :: IsHead(rows, q) && !q.deleted && q.related == Some(r.path))
  }
  function ListedIn(rows: seq<Rev>, suppress: bool): Rev -> bool { (r: Rev) => Listed(rows, suppress, r) }
  function Deleted(rows: seq<Rev>, suppress: bool): seq<Rev> { Filter(rows, ListedIn(rows, suppress)) }

  // The last row of a path in table order.
  function Last(rows: seq<Rev>, p: string): (o: Option<Rev>)
    ensures o.Some? ==> o.value in rows && o.value.path == p
    ensures o.None? ==> forall r | r in rows :: r.path != p
  {
    if rows == [] then None
    else
      assert rows == rows[..|rows| - 1] + [rows[|rows| - 1]];
      if rows[|rows| - 1].path == p then Some(rows[|rows| - 1]) else Last(rows[..|rows| - 1], p)
  }

  // A client's mirror: for each live path the notice that made it so.
  type Mirror = map<string, Rev>

  function Apply(m: Mirror, r: Rev): Mirror {
    if r.deleted then m - {r.path} else m[r.path := r]
  }

  function Replay(m: Mirror, rows: seq<Rev>): Mirror {
    if rows == [] then m else Apply(Replay(m, rows[..|rows| - 1]), rows[|rows| - 1])
  }

  function At(m: Mirror, p: string): Option<Rev> { if p in m then Some(m[p]) else None }

  // What a path shows once the given row is its last one.
  function Shown(o: Option<Rev>): Option<Rev> {
    if o.Some? && !o.value.deleted then o else None
  }

  // The live state of a vault: everything in its table applied in order.
  function Live(rows: seq<Rev>): Mirror { Replay(map[], rows) }

  // ----- order -----

  lemma SortedIndex(rows: seq<Rev>, a: Rev, b: Rev)
    requires Sorted(rows) && a in rows && b in rows && a.uid == b.uid
    ensures a == b
  {
    var i, j :| 0 <= i < |rows| && 0 <= j < |rows| && rows[i] == a && rows[j] == b;
    assert i == j;
  }

  lemma {:induction false} FilterSorted(rows: seq<Rev>, keep: Rev -> bool)
    requires Sorted(rows)
    ensures Sorted(Filter(rows, keep))
  {
    if rows != [] {
      var rest, x := rows[..|rows| - 1], rows[|rows| - 1];
      FilterSorted(rest, keep);
      var f := Filter(rest, keep);
      forall i | 0 <= i < |f| ensures f[i].uid < x.uid {
        assert f[i] in f && f[i] in rest;
      }
    }
  }

  lemma InitIn(rows: seq<Rev>, r: Rev)
    requires Sorted(rows) && rows != []
    ensures r in rows[..|rows| - 1] <==> r in rows && r.uid < rows[|rows| - 1].uid
    ensures r in rows ==> r.uid <= rows[|rows| - 1].uid
  {
    assert rows == rows[..|rows| - 1] + [rows[|rows| - 1]];
    if r in rows {
      var i :| 0 <= i < |rows| && rows[i] == r;
    }
  }

  // A table in key order is determined by the rows it holds.
  lemma {:induction false} SortedUnique(a: seq<Rev>, b: seq<Rev>)
    requires Sorted(a) && Sorted(b)
    requires forall r :: r in a <==> r in b
    ensures a == b
    decreases |a|
  {
    assert a != [] ==> a[0] in a;
    assert b != [] ==> b[0] in b;
    if a != [] {
      var x, y, a', b' := a[|a| - 1], b[|b| - 1], a[..|a| - 1], b[..|b| - 1];
      InitIn(a, y);
      InitIn(b, x);
      SortedIndex(a, x, y);
      forall r ensures r in a' <==> r in b' {
        InitIn(a, r);
        InitIn(b, r);
      }
      SortedUnique(a', b');
      assert a == a' + [x] && b == b' + [x];
    }
  }

  lemma SortedSnoc(rows: seq<Rev>, r: Rev)
    requires Sorted(rows) && forall q | q in rows :: q.uid < r.uid
    ensures Sorted(rows + [r])
  {
    forall i, j | 0 <= i < j < |rows + [r]| ensures (rows + [r])[i].uid < (rows + [r])[j].uid {
      if j == |rows| { assert rows[i] in rows; }
    }
  }

  // ----- heads, last rows and replay -----

  lemma HeadIsLast(rows: seq<Rev>, r: Rev)
    requires Sorted(rows)
    ensures IsHead(rows, r) <==> Last(rows, r.path) == Some(r)
  {
    LastIsHead(rows, r.path);
    if IsHead(rows, r) {
      SortedIndex(rows, r, Last(rows, r.path).value);
    }
  }

  lemma {:induction false} LastIsHead(rows: seq<Rev>, p: string)
    requires Sorted(rows)
    ensures Last(rows, p).Some? ==> IsHead(rows, Last(rows, p).value)
  {
    if rows != [] {
      var rest, x := rows[..|rows| - 1], rows[|rows| - 1];
      assert rows == rest + [x];
      LastIsHead(rest, p);
      forall q | q in rows ensures q.uid <= x.uid {
        var i :| 0 <= i < |rows| && rows[i] == q;
      }
    }
  }

  lemma {:induction false} ReplayAt(m: Mirror, rows: seq<Rev>, p: string)
    ensures At(Replay(m, rows), p) == if Last(rows, p).Some? then Shown(Last(rows, p)) else At(m, p)
  {
    if rows != [] {
      ReplayAt(m, rows[..|rows| - 1], p);
    }
  }

  lemma MirrorsAgree(a: Mirror, b: Mirror)
    requires forall p :: At(a, p) == At(b, p)
    ensures a == b
  {
    forall p ensures p in a <==> p in b { assert At(a, p) == At(b, p); }
    forall p | p in a ensures a[p] == b[p] { assert At(a, p) == At(b, p); }
  }

  lemma LiveAt(rows: seq<Rev>, p: string)
    ensures At(Live(rows), p) == Shown(Last(rows, p))
  {
    ReplayAt(map[], rows, p);
  }

  lemma {:induction false} ReplayConcat(m: Mirror, a: seq<Rev>, b: seq<Rev>)
    ensures Replay(m, a + b) == Replay(Replay(m, a), b)
  {
    if b == [] {
      assert a + b == a;
    } else {
      var rest := b[..|b| - 1];
      ReplayConcat(m, a, rest);
      assert (a + b)[..|a + b| - 1] == a + rest;
    }
  }

  // ----- the deleted list -----

  // A path is listed as deleted exactly when its last row is a tombstone and some row
  // before that was alive.
  lemma ListedExact(rows: seq<Rev>, r: Rev)
    requires Sorted(rows)
    ensures r in Deleted(rows, false) <==>
      && Last(rows, r.path) == Some(r) && r.deleted
      && exists q | q in rows :: q.path == r.path && q.uid < r.uid && !q.deleted
  {
    HeadIsLast(rows, r);
  }

  // Suppression leaves out exactly those whose path the live state names as the path
  // something was renamed from.
  lemma SuppressedExact(rows: seq<Rev>, r: Rev)
    requires Sorted(rows)
    ensures r in Deleted(rows, true) <==>
      r in Deleted(rows, false) && !exists p | p in Live(rows) :: Live(rows)[p].related == Some(r.path)
  {
    forall p | p in Live(rows) ensures Last(rows, p) == Some(Live(rows)[p]) && !Live(rows)[p].deleted {
      LiveAt(rows, p);
    }
    forall p | p in Live(rows) ensures IsHead(rows, Live(rows)[p]) { LastIsHead(rows, p); }
    forall q | q in rows && IsHead(rows, q) && !q.deleted ensures q.path in Live(rows) && Live(rows)[q.path] == q {
      HeadIsLast(rows, q);
      LiveAt(rows, q.path);
    }
  }

  // Loading the snapshot into a fresh client gives the live state.
  lemma SnapshotIsLive(rows: seq<Rev>)
    requires Sorted(rows)
    ensures Replay(map[], Snapshot(rows)) == Live(rows)
  {
    var s := Snapshot(rows);
    FilterSorted(rows, LiveHead(rows));
    forall p ensures At(Replay(map[], s), p) == At(Live(rows), p) {
      ReplayAt(map[], s, p);
      LiveAt(rows, p);
      LastIsHead(rows, p);
      if Last(s, p).Some? { HeadIsLast(rows, Last(s, p).value); }
    }
    MirrorsAgree(Replay(map[], s), Live(rows));
  }

  // ----- byte counts -----

  lemma BytesSnoc(rows: seq<Rev>, r: Rev)
    ensures Bytes(rows + [r]) == Bytes(rows) + r.size
  {
    assert (rows + [r])[..|rows|] == rows;
  }

  lemma {:induction false} BytesFilter(rows: seq<Rev>, keep: Rev -> bool)
    ensures Bytes(Filter(rows, keep)) <= Bytes(rows)
  {
    if rows != [] {
      BytesFilter(rows[..|rows| - 1], keep);
      if keep(rows[|rows| - 1]) { BytesSnoc(Filter(rows[..|rows| - 1], keep), rows[|rows| - 1]); }
    }
  }

  lemma {:induction false} BytesNone(rows: seq<Rev>)
    requires forall r | r in rows :: r.size == 0
    ensures Bytes(rows) == 0
  {
    if rows != [] {
      assert rows == rows[..|rows| - 1] + [rows[|rows| - 1]];
      BytesNone(rows[..|rows| - 1]);
    }
  }

  // The rows a DELETE leaves and the rows it removes account for every byte.
  lemma {:induction false} BytesSplit(rows: seq<Rev>, keep: Rev -> bool, drop: Rev -> bool)
    requires forall r | r in rows :: keep(r) == !drop(r)
    ensures Bytes(rows) == Bytes(Filter(rows, keep)) + Bytes(Filter(rows, drop))
  {
    if rows != [] {
      var rest, x := rows[..|rows| - 1], rows[|rows| - 1];
      assert rows == rest + [x];
      BytesSplit(rest, keep, drop);
      if keep(x) { BytesSnoc(Filter(rest, keep), x); } else { BytesSnoc(Filter(rest, drop), x); }
    }
  }
}
