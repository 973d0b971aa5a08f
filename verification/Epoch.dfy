// A recovery epoch: every vault gets a new identity and keeps its history, so a cursor a
// device remembers from before the restore names no vault any more.
module Epoch {
  import opened Lists
  import opened Revisions
  import opened Store

  datatype Move = Move(from: VaultId, to: VaultId)

  function Retagged(v: VaultId, w: VaultId): Rev -> Rev { (r: Rev) => if r.vault == v then r.(vault := w) else r }
  function Retag(w: VaultId): Rev -> Rev { (r: Rev) => r.(vault := w) }

  // INSERT the vault's copy under its new id, UPDATE its revisions, DELETE the old vault
  // with its cascades.
  function Rename(t: Tables, v: VaultId, w: VaultId): Tables
    requires v in t.vaults
  {
    DropVault(t.(vaults := t.vaults[w := t.vaults[v]], revisions := Map(t.revisions, Retagged(v, w))), v)
  }

  ghost predicate Movable(t: Tables, moves: seq<Move>) {
    && (forall i {:trigger moves[i]} | 0 <= i < |moves| :: moves[i].from in t.vaults && moves[i].to !in t.vaults)
    && (forall i, j | 0 <= i < j < |moves| :: moves[i].from != moves[j].from && moves[i].to != moves[j].to)
  }

  // ----- one vault -----

  lemma {:induction false} RetagTotals(rows: seq<Rev>, w: VaultId)
    ensures Bytes(Map(rows, Retag(w))) == Bytes(rows) && MaxUid(Map(rows, Retag(w))) == MaxUid(rows)
  {
    if rows != [] {
      RetagTotals(rows[..|rows| - 1], w);
      assert Map(rows, Retag(w))[..|rows| - 1] == Map(rows[..|rows| - 1], Retag(w));
    }
  }

  lemma RetagHead(rows: seq<Rev>, w: VaultId, r: Rev)
    requires r in rows
    ensures IsHead(Map(rows, Retag(w)), Retag(w)(r)) <==> IsHead(rows, r)
  {
    var n := Map(rows, Retag(w));
    forall i | 0 <= i < |rows|
      ensures n[i].uid == rows[i].uid && n[i].path == rows[i].path && n[i] in n && rows[i] in rows
    {
    }
  }

  lemma RetagLive(rows: seq<Rev>, w: VaultId)
    ensures LiveBytes(Map(rows, Retag(w))) == LiveBytes(rows)
  {
    var n := Map(rows, Retag(w));
    forall r | r in rows ensures LiveFile(n)(Retag(w)(r)) == LiveFile(rows)(r) { RetagHead(rows, w, r); }
    FilterMap(rows, Retag(w), LiveFile(n), LiveFile(rows));
    RetagTotals(Filter(rows, LiveFile(rows)), w);
  }

  // The table that a rename leaves, its cascade having found nothing.
  ghost predicate Renames(t: Tables, n: Tables, v: VaultId, w: VaultId)
    requires v in t.vaults
  {
    && n.vaults == t.vaults[w := t.vaults[v]] - {v} && n.revisions == Map(t.revisions, Retagged(v, w))
    && n.contents == t.contents && n.sequence == t.sequence && n.usage == t.usage
  }

  lemma RenameDropsNothing(t: Tables, v: VaultId, w: VaultId)
    requires v in t.vaults && w != v
    ensures Renames(t, Rename(t, v, w), v, w)
  {
    var table := Map(t.revisions, Retagged(v, w));
    NoneTagged(t.revisions, v, w);
    FilterAll(table, Not(InVault(v)));
    FilterNone(table, Not(Not(InVault(v))));
    assert Uids([]) == {};
  }

  lemma NoneTagged(rows: seq<Rev>, v: VaultId, w: VaultId)
    requires v != w
    ensures forall r | r in Map(rows, Retagged(v, w)) :: r.vault != v
  {
    var table := Map(rows, Retagged(v, w));
    forall r | r in table ensures r.vault != v {
      var i :| 0 <= i < |table| && table[i] == r;
    }
  }

  lemma RenameRows(t: Tables, v: VaultId, w: VaultId, u: VaultId)
    requires Inv(t) && v in t.vaults && w !in t.vaults
    ensures Rows(Rename(t, v, w), w) == Map(Rows(t, v), Retag(w))
    ensures u != v && u != w ==> Rows(Rename(t, v, w), u) == Rows(t, u)
  {
    RenameDropsNothing(t, v, w);
    var g := Retagged(v, w);
    forall r | r in t.revisions ensures InVault(w)(g(r)) == InVault(v)(r) { assert RowOk(t, r); }
    FilterMap(t.revisions, g, InVault(w), InVault(v));
    var rows := Rows(t, v);
    forall i | 0 <= i < |rows| ensures Map(rows, g)[i] == Map(rows, Retag(w))[i] { assert rows[i] in rows; }
    assert Map(rows, g) == Map(rows, Retag(w));
    if u != v && u != w {
      FilterMap(t.revisions, g, InVault(u), InVault(u));
      var others := Rows(t, u);
      forall i | 0 <= i < |others| ensures Map(others, g)[i] == others[i] { assert others[i] in others; }
      assert Map(others, g) == others;
    }
  }

  lemma {:induction false} RetaggedBytes(table: seq<Rev>, v: VaultId, w: VaultId)
    ensures Bytes(Map(table, Retagged(v, w))) == Bytes(table)
  {
    if table != [] {
      RetaggedBytes(table[..|table| - 1], v, w);
      assert Map(table, Retagged(v, w))[..|table| - 1] == Map(table[..|table| - 1], Retagged(v, w));
    }
  }

  lemma RenameRow(t: Tables, n: Tables, v: VaultId, w: VaultId, r: Rev)
    requires v in t.vaults && w !in t.vaults && Renames(t, n, v, w) && RowOk(t, r)
    ensures RowOk(n, Retagged(v, w)(r))
  {
  }

  lemma RenameUids(table: seq<Rev>, v: VaultId, w: VaultId)
    ensures Uids(Map(table, Retagged(v, w))) == Uids(table)
    ensures Sorted(table) ==> Sorted(Map(table, Retagged(v, w)))
  {
    var n := Map(table, Retagged(v, w));
    forall i | 0 <= i < |table| ensures n[i].uid == table[i].uid && n[i] in n && table[i] in table {}
  }

  lemma RenameTable(t: Tables, n: Tables, v: VaultId, w: VaultId)
    requires Inv(t) && v in t.vaults && w !in t.vaults && Renames(t, n, v, w)
    ensures Sorted(n.revisions) && n.usage == Bytes(n.revisions) && n.contents.Keys <= Uids(n.revisions)
    ensures forall r {:trigger RowOk(n, r)} | r in n.revisions :: RowOk(n, r)
    ensures |n.vaults| == |t.vaults|
  {
    RetaggedBytes(t.revisions, v, w);
    RenameUids(t.revisions, v, w);
    forall r | r in n.revisions ensures RowOk(n, r) {
      var i :| 0 <= i < |n.revisions| && n.revisions[i] == r;
      assert RowOk(t, t.revisions[i]);
      RenameRow(t, n, v, w, t.revisions[i]);
    }
    assert n.vaults.Keys == t.vaults.Keys - {v} + {w};
    assert |n.vaults| == |n.vaults.Keys| && |t.vaults| == |t.vaults.Keys|;
  }

  lemma RenameInv(t: Tables, v: VaultId, w: VaultId)
    requires Inv(t) && v in t.vaults && w !in t.vaults
    ensures Inv(Rename(t, v, w))
  {
    var n := Rename(t, v, w);
    RenameDropsNothing(t, v, w);
    RenameTable(t, n, v, w);
    forall u | u in n.vaults ensures VaultOk(n, u) {
      RenameRows(t, v, w, u);
      RetagLive(Rows(t, v), w);
      RetagTotals(Rows(t, v), w);
      assert VaultOk(t, if u == w then v else u);
    }
  }

  // ----- every vault -----

  function Froms(moves: seq<Move>): set<VaultId> { set m | m in moves :: m.from }
  function Tos(moves: seq<Move>): set<VaultId> { set m | m in moves :: m.to }

  ghost predicate Moved(t: Tables, n: Tables, m: Move) {
    && m.from in t.vaults && m.to in n.vaults && n.vaults[m.to] == t.vaults[m.from]
    && Rows(n, m.to) == Map(Rows(t, m.from), Retag(m.to))
  }

  ghost predicate Kept(t: Tables, n: Tables, u: VaultId) {
    u in t.vaults && u in n.vaults && n.vaults[u] == t.vaults[u] && Rows(n, u) == Rows(t, u)
  }

  // What renaming some of the vaults leaves: those vaults under their new ids with owner,
  // settings, size, version and history as before, the others untouched, content as before.
  ghost predicate Rotated(t: Tables, n: Tables, moves: seq<Move>) {
    && n.vaults.Keys == t.vaults.Keys - Froms(moves) + Tos(moves)
    && n.contents == t.contents && n.sequence == t.sequence && n.usage == t.usage
    && (forall m {:trigger Moved(t, n, m)} | m in moves :: Moved(t, n, m))
    && (forall u {:trigger Kept(t, n, u)} | u in t.vaults && u !in Froms(moves) :: Kept(t, n, u))
  }

  lemma MovesSnoc(moves: seq<Move>, m: Move)
    ensures Froms(moves + [m]) == Froms(moves) + {m.from} && Tos(moves + [m]) == Tos(moves) + {m.to}
  {
    forall x | x in moves ensures x in moves + [m] {}
    assert m in moves + [m];
  }

  lemma {:induction false} FromsCount(moves: seq<Move>)
    requires forall i, j | 0 <= i < j < |moves| :: moves[i].from != moves[j].from
    ensures |Froms(moves)| == |moves|
    decreases |moves|
  {
    if moves != [] {
      var before, m := moves[..|moves| - 1], moves[|moves| - 1];
      assert moves == before + [m];
      FromsCount(before);
      MovesSnoc(before, m);
      forall x | x in before ensures x.from != m.from { var i :| 0 <= i < |before| && before[i] == x; }
    }
  }

  lemma MovablePrefix(t: Tables, moves: seq<Move>, m: Move)
    requires Movable(t, moves + [m])
    ensures Movable(t, moves)
    ensures m.from in t.vaults && m.from !in Froms(moves) && m.to !in t.vaults && m.to !in Tos(moves)
  {
    var all := moves + [m];
    assert all[|moves|] == m;
    forall i | 0 <= i < |moves| ensures all[i] == moves[i] && moves[i].from != m.from && moves[i].to != m.to {
      assert all[i].from != all[|moves|].from;
    }
  }

  // One turn of the rotation loop.
  lemma RotateTurn(t: Tables, n: Tables, moves: seq<Move>, m: Move)
    requires Inv(n) && Rotated(t, n, moves) && Movable(t, moves + [m])
    ensures m.from in n.vaults && m.to !in n.vaults
    ensures Inv(Rename(n, m.from, m.to)) && Rotated(t, Rename(n, m.from, m.to), moves + [m])
  {
    MovablePrefix(t, moves, m);
    assert Kept(t, n, m.from);
    RenameInv(n, m.from, m.to);
    var f := Rename(n, m.from, m.to);
    forall x | x in moves + [m] ensures Moved(t, f, x) { TurnMoved(t, n, moves, m, x); }
    forall u | u in t.vaults && u !in Froms(moves + [m]) ensures Kept(t, f, u) { TurnKept(t, n, moves, m, u); }
    TurnIds(t, n, moves, m);
  }

  lemma TurnIds(t: Tables, n: Tables, moves: seq<Move>, m: Move)
    requires Movable(t, moves + [m]) && m.from in n.vaults && n.vaults.Keys == t.vaults.Keys - Froms(moves) + Tos(moves)
    ensures var f := Rename(n, m.from, m.to);
      && f.vaults.Keys == t.vaults.Keys - Froms(moves + [m]) + Tos(moves + [m])
      && f.contents == n.contents && f.sequence == n.sequence && f.usage == n.usage
  {
    MovablePrefix(t, moves, m);
    MovesSnoc(moves, m);
    TosFresh(t, moves);
    RenameDropsNothing(n, m.from, m.to);
    assert Rename(n, m.from, m.to).vaults.Keys == n.vaults.Keys - {m.from} + {m.to};
  }

  lemma TosFresh(t: Tables, moves: seq<Move>)
    requires Movable(t, moves)
    ensures Tos(moves) !! t.vaults.Keys && Froms(moves) <= t.vaults.Keys
  {
    forall m | m in moves ensures m.to !in t.vaults && m.from in t.vaults {
      var i :| 0 <= i < |moves| && moves[i] == m;
    }
  }

  lemma TurnKept(t: Tables, n: Tables, moves: seq<Move>, m: Move, u: VaultId)
    requires Inv(n) && Rotated(t, n, moves) && Movable(t, moves + [m])
    requires u in t.vaults && u !in Froms(moves + [m])
    ensures m.from in n.vaults && Kept(t, Rename(n, m.from, m.to), u)
  {
    MovablePrefix(t, moves, m);
    MovesSnoc(moves, m);
    assert Kept(t, n, m.from) && Kept(t, n, u);
    RenameDropsNothing(n, m.from, m.to);
    RenameRows(n, m.from, m.to, u);
  }

  lemma TurnMoved(t: Tables, n: Tables, moves: seq<Move>, m: Move, x: Move)
    requires Inv(n) && Rotated(t, n, moves) && Movable(t, moves + [m]) && x in moves + [m]
    ensures m.from in n.vaults && Moved(t, Rename(n, m.from, m.to), x)
  {
    MovablePrefix(t, moves, m);
    TosFresh(t, moves);
    assert Kept(t, n, m.from);
    if x in moves { assert Moved(t, n, x); }
    if x in moves { MovedStays(t, n, m, x); } else { JustMoved(t, n, m); }
  }

  lemma MovedStays(t: Tables, n: Tables, m: Move, x: Move)
    requires Inv(n) && m.from in n.vaults && m.to !in n.vaults && Moved(t, n, x) && x.to != m.from
    ensures Moved(t, Rename(n, m.from, m.to), x)
  {
    RenameDropsNothing(n, m.from, m.to);
    RenameRows(n, m.from, m.to, x.to);
  }

  lemma JustMoved(t: Tables, n: Tables, m: Move)
    requires Inv(n) && m.from in n.vaults && m.to !in n.vaults && Kept(t, n, m.from)
    ensures Moved(t, Rename(n, m.from, m.to), m)
  {
    RenameDropsNothing(n, m.from, m.to);
    RenameRows(n, m.from, m.to, m.to);
  }

  function RenameAll(t: Tables, moves: seq<Move>): Tables {
    if moves == [] then t
    else
      var b, m := RenameAll(t, moves[..|moves| - 1]), moves[|moves| - 1];
      if m.from in b.vaults then Rename(b, m.from, m.to) else b
  }

  lemma {:induction false} RenameAllRotates(t: Tables, moves: seq<Move>)
    requires Inv(t) && Movable(t, moves)
    ensures Inv(RenameAll(t, moves)) && Rotated(t, RenameAll(t, moves), moves)
    decreases |moves|
  {
    if moves == [] {
      forall u | u in t.vaults ensures Kept(t, t, u) {}
    } else {
      var before, m := moves[..|moves| - 1], moves[|moves| - 1];
      assert moves == before + [m];
      MovablePrefix(t, before, m);
      RenameAllRotates(t, before);
      RotateTurn(t, RenameAll(t, before), before, m);
    }
  }

  lemma {:induction false} RenameAllIds(t: Tables, moves: seq<Move>)
    requires Movable(t, moves)
    ensures RenameAll(t, moves).vaults.Keys == t.vaults.Keys - Froms(moves) + Tos(moves)
    decreases |moves|
  {
    if moves != [] {
      var before, m := moves[..|moves| - 1], moves[|moves| - 1];
      assert moves == before + [m];
      MovablePrefix(t, before, m);
      RenameAllIds(t, before);
      TurnIds(t, RenameAll(t, before), before, m);
    }
  }

  // The next move finds its vault and a free id.
  lemma NextMove(t: Tables, moves: seq<Move>, i: nat)
    requires Movable(t, moves) && i < |moves|
    ensures var b := RenameAll(t, moves[..i]);
      moves[i].from in b.vaults && RenameAll(t, moves[..i + 1]) == Rename(b, moves[i].from, moves[i].to)
  {
    var before := moves[..i];
    assert moves[..i + 1] == before + [moves[i]];
    assert Movable(t, before + [moves[i]]);
    MovablePrefix(t, before, moves[i]);
    RenameAllIds(t, before);
  }

  // Draws new ids: a candidate already reserved is drawn again. None when the draws run
  // out, which random ids never do.
  method DrawMoves(ids: seq<VaultId>, known: set<VaultId>, draws: seq<VaultId>) returns (r: Option<seq<Move>>)
    ensures r.Some? ==> |r.value| == |ids| && Tos(r.value) !! known
    ensures r.Some? ==> forall i | 0 <= i < |ids| :: r.value[i].from == ids[i] && r.value[i].to in draws
    ensures r.Some? ==> forall i, j | 0 <= i < j < |ids| :: r.value[i].to != r.value[j].to
  {
    var moves: seq<Move> := [];
    var reserved, next := known, 0;
    while |moves| < |ids|
      invariant |moves| <= |ids| && next <= |draws| && known <= reserved
      invariant forall i | 0 <= i < |moves| ::
                  moves[i].from == ids[i] && moves[i].to in draws && moves[i].to in reserved && moves[i].to !in known
      invariant forall i, j | 0 <= i < j < |moves| :: moves[i].to != moves[j].to
      decreases |ids| - |moves|
    {
      while next < |draws| && draws[next] in reserved
        invariant next <= |draws|
      {
        next := next + 1;
      }
      if next == |draws| { return None; }
      moves := moves + [Move(ids[|moves|], draws[next])];
      reserved := reserved + {draws[next]};
    }
    return Some(moves);
  }

  // `ids` names every vault once.
  ghost predicate Enumerates(ids: seq<VaultId>, t: Tables) {
    && (forall v :: v in ids <==> v in t.vaults)
    && (forall i, j | 0 <= i < j < |ids| :: ids[i] != ids[j])
  }

  lemma DrawnMovable(t: Tables, ids: seq<VaultId>, moves: seq<Move>)
    requires Enumerates(ids, t) && |moves| == |ids| && Tos(moves) !! t.vaults.Keys
    requires forall i | 0 <= i < |ids| :: moves[i].from == ids[i]
    requires forall i, j | 0 <= i < j < |ids| :: moves[i].to != moves[j].to
    ensures Movable(t, moves) && Froms(moves) == t.vaults.Keys
  {
    forall i | 0 <= i < |moves|
      ensures moves[i].from in t.vaults && moves[i].to !in t.vaults && moves[i].from in Froms(moves)
    {
      assert moves[i] in moves && ids[i] in ids;
    }
  }
}
