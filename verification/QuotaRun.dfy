// Every interleaving of reservations, uploads and database transactions of the running
// server keeps committed plus reserved bytes within the limits.
module QuotaRun {
  import opened Lists
  import opened Words
  import opened Revisions
  import opened Store
  import opened Database
  import opened DatabaseRun
  import opened Quota
  import Access
  import Compaction

  // Each step runs under the commit-order lock, except that a connection may drop its
  // reservation at any time.
  datatype System = System(s: State, ledger: Ledger, live: seq<Hold>)

  datatype Event =
    | Reserve(hold: Hold)
    | Cancel(i: nat)
    | Upload(i: nat, who: Caller, rev: NewRev, staged: Blob, now: int)
    | Transact(e: Step)

  // What is neither committed nor reserved. A restore reads its limits before its
  // transaction and reservations may be dropped in between, so it may be given less.
  function RestoreLimits(q: System, owner: nat, lim: Limits): Limits {
    Limits(Saturate(lim.global - q.ledger.global), Saturate(lim.owner - ReservedBy(q.ledger, owner)))
  }

  predicate Tighter(a: Limits, b: Limits) { a.global <= b.global && a.owner <= b.owner }

  function OwnerOf(t: Tables, v: VaultId): nat { if v in t.vaults then t.vaults[v].owner else 0 }

  function UploadStep(x: Event, lim: Limits): Step
    requires x.Upload?
  {
    Step(PushFile(x.who, x.rev, x.staged, lim), x.now)
  }

  // What the server sends the database: uploads only behind a reservation of their size,
  // restores under the reduced limits, no recovery while it runs.
  ghost predicate Enabled(q: System, x: Event, lim: Limits) {
    match x
    case Reserve(h) =>
      // the vault may have been deleted while the push waited for the lock
      && h.vault in q.s.used
      && (h.vault in q.s.db.tables.vaults ==> q.s.db.tables.vaults[h.vault].owner == h.owner)
    case Cancel(i) => i < |q.live|
    case Upload(i, who, r, staged, now) =>
      && i < |q.live| && r.vault == q.live[i].vault && r.size == q.live[i].bytes
      && Database.Enabled(q.s, UploadStep(x, lim))
    case Transact(e) =>
      && Database.Enabled(q.s, e) && !e.op.PushFile? && !e.op.Rotate?
      && (e.op.Restore? ==> Tighter(e.op.limits, RestoreLimits(q, OwnerOf(q.s.db.tables, e.op.vault), lim)))
  }

  function Next(q: System, x: Event, lim: Limits): System {
    match x
    case Reserve(h) =>
      var t := q.s.db.tables;
      (match TryReserve(q.ledger, t.usage, OwnerBytes(t, h.owner), h.owner, h.bytes, lim)
       case None => q
       case Some(l) => q.(ledger := l, live := q.live + [h]))
    case Cancel(i) =>
      if i < |q.live| then System(q.s, Release(q.ledger, q.live[i].owner, q.live[i].bytes), Without(q.live, i)) else q
    case Upload(i, _, _, _, _) =>
      if i < |q.live| then
        System(Database.Next(q.s, UploadStep(x, lim)),
               Release(q.ledger, q.live[i].owner, q.live[i].bytes), Without(q.live, i))
      else q
    case Transact(e) => q.(s := Database.Next(q.s, e))
  }

  ghost predicate HoldOk(s: State, h: Hold) {
    && h.bytes > 0 && h.vault in s.used
    && (h.vault in s.db.tables.vaults ==> s.db.tables.vaults[h.vault].owner == h.owner)
  }

  function Claimed(q: System): int { q.s.db.tables.usage + Total(q.live) }
  function ClaimedBy(q: System, o: nat): int { OwnerBytes(q.s.db.tables, o) + Held(q.live, o) }

  // Reserved capacity is really there.
  ghost predicate Backed(q: System, lim: Limits, o: nat) {
    && (Total(q.live) > 0 ==> Claimed(q) <= lim.global)
    && (Held(q.live, o) > 0 ==> ClaimedBy(q, o) <= lim.owner)
  }

  ghost predicate Inv(q: System, lim: Limits) {
    && Sound(q.s) && Balanced(q.ledger, q.live)
    && (forall i {:trigger q.live[i]} | 0 <= i < |q.live| :: HoldOk(q.s, q.live[i]))
    && (forall o {:trigger Backed(q, lim, o)} :: Backed(q, lim, o))
  }

  ghost predicate Configured(lim: Limits) { 0 < lim.global <= MAX_I64 && 0 < lim.owner <= MAX_I64 }

  // ----- how transactions move bytes -----

  ghost predicate Shrinks(t: Tables, n: Tables, o: nat) {
    n.usage <= t.usage && OwnerBytes(n, o) <= OwnerBytes(t, o)
  }

  lemma {:induction false} BytesMonotone(rows: seq<Rev>, f: Rev -> bool, g: Rev -> bool)
    requires forall r | r in rows :: f(r) ==> g(r)
    ensures Bytes(Filter(rows, f)) <= Bytes(Filter(rows, g))
  {
    if rows != [] {
      var init, r := rows[..|rows| - 1], rows[|rows| - 1];
      BytesMonotone(init, f, g);
      BytesSnoc(Filter(init, f), r);
      BytesSnoc(Filter(init, g), r);
    }
  }

  lemma FilteredOwner(t: Tables, n: Tables, keep: Rev -> bool, o: nat)
    requires n.revisions == Filter(t.revisions, keep)
    requires forall r | r in n.revisions :: OwnedBy(n.vaults, o)(r) ==> OwnedBy(t.vaults, o)(r)
    ensures OwnerBytes(n, o) <= OwnerBytes(t, o)
  {
    var both := (r: Rev) => keep(r) && OwnedBy(n.vaults, o)(r);
    FilterFilter(t.revisions, keep, OwnedBy(n.vaults, o), both);
    forall r | r in t.revisions && both(r) ensures OwnedBy(t.vaults, o)(r) { assert r in n.revisions; }
    BytesMonotone(t.revisions, both, OwnedBy(t.vaults, o));
  }

  lemma DeleteShrinks(t: Tables, keep: Rev -> bool, o: nat)
    ensures Shrinks(t, Delete(t, keep), o)
  {
    FilteredOwner(t, Delete(t, keep), keep, o);
  }

  lemma SameRowsShrinks(t: Tables, n: Tables, o: nat)
    requires n.revisions == t.revisions && n.usage == t.usage
    requires forall r | r in t.revisions :: OwnedBy(n.vaults, o)(r) ==> OwnedBy(t.vaults, o)(r)
    ensures Shrinks(t, n, o)
  {
    BytesMonotone(t.revisions, OwnedBy(n.vaults, o), OwnedBy(t.vaults, o));
  }

  lemma RefreshShrinks(t: Tables, keep: Rev -> bool, v: VaultId, o: nat)
    requires v in t.vaults
    ensures Shrinks(t, Refreshed(Delete(t, keep), v), o)
  {
    DeleteShrinks(t, keep, o);
    var d := Delete(t, keep);
    SameRowsShrinks(d, Refreshed(d, v), o);
  }

  lemma DropShrinks(t: Tables, v: VaultId, o: nat)
    ensures Shrinks(t, DropVault(t, v), o)
  {
    FilteredOwner(t, DropVault(t, v), Not(InVault(v)), o);
  }

  lemma CreateShrinks(t: Tables, id: VaultId, owner: nat, profile: string, allowed: bool, o: nat)
    requires Store.Inv(t)
    ensures Shrinks(t, Store.Create(t, id, owner, profile, allowed).0, o)
  {
    forall r | r in t.revisions ensures r.vault in t.vaults { assert RowOk(t, r); }
    var n := Store.Create(t, id, owner, profile, allowed).0;
    SameRowsShrinks(t, n, o);
  }

  lemma ReplaceShrinks(t: Tables, v: VaultId, w: VaultId, profile: string, o: nat)
    requires Store.Inv(t) && v in t.vaults && w !in t.vaults
    ensures Shrinks(t, ReplaceVault(t, v, w, profile), o)
  {
    DropShrinks(t, v, o);
    DropVaultInv(t, v);
    ReplaceIsCreate(t, v, w, profile);
    CreateShrinks(DropVault(t, v), w, t.vaults[v].owner, profile, true, o);
  }

  lemma QuietShrinks(db: Db, op: Op, now: int, o: nat)
    requires Store.Inv(db.tables) && !IsCommit(op) && !op.Rotate?
    ensures Shrinks(db.tables, Do(db, op, now).tables, o)
  {
    var t, n := db.tables, Do(db, op, now).tables;
    if n != t {
      match op
      case Create(who, id, profile) => CreateShrinks(t, id, who.user, profile, Authorized(db, who, now), o);
      case Purge(_, v) => RefreshShrinks(t, Compaction.Outside(v, HeadOf(Rows(t, v))), v, o);
      case PurgeDeleted(v) => RefreshShrinks(t, Compaction.Outside(v, Compaction.SparedIn(Rows(t, v))), v, o);
      case DeleteVault(_, v) => DropShrinks(t, v, o);
      case Migrate(_, v, w, profile) => ReplaceShrinks(t, v, w, profile, o);
      case _ => {}
    }
  }

  lemma CommitBytes(t: Tables, n: Tables, row: Rev, o: nat)
    requires Store.Inv(t) && Commits(t, n, row)
    ensures n.usage == t.usage + row.size
    ensures OwnerBytes(n, o) == OwnerBytes(t, o) + if t.vaults[row.vault].owner == o then row.size else 0
  {
    BytesSnoc(t.revisions, row);
    FilterSnoc(t.revisions, row, OwnedBy(n.vaults, o));
    FilterAgree(t.revisions, OwnedBy(n.vaults, o), OwnedBy(t.vaults, o));
    BytesSnoc(Filter(t.revisions, OwnedBy(t.vaults, o)), row);
  }

  // A committed row was within the limits its transaction was given.
  ghost predicate Admitted(t: Tables, row: Rev, lim: Limits) {
    row.vault in t.vaults
    && (row.size > 0 ==> t.usage + row.size <= lim.global
                         && OwnerBytes(t, t.vaults[row.vault].owner) + row.size <= lim.owner)
  }

  lemma EmptyAdmitted(t: Tables, r: NewRev, allowed: bool, lim: Limits, now: int) returns (row: Rev)
    requires Store.Inv(t) && AddEmpty(t, r, allowed, lim, now).0 != t
    ensures Commits(t, AddEmpty(t, r, allowed, lim, now).0, row) && row.vault == r.vault && row.size == r.size == 0
  {
    AddEmptyInv(t, r, allowed, lim, now);
    row := AddEmpty(t, r, allowed, lim, now).1.value;
  }

  lemma FileAdmitted(t: Tables, r: NewRev, staged: Blob, allowed: bool, lim: Limits, now: int) returns (row: Rev)
    requires Store.Inv(t) && AddFile(t, r, staged, allowed, lim, now).0 != t
    ensures Commits(t, AddFile(t, r, staged, allowed, lim, now).0, row) && row.vault == r.vault && row.size == r.size
    ensures Admitted(t, row, lim)
  {
    FileFits(t, r, staged, allowed, lim, now);
    AddFileInv(t, r, staged, allowed, lim, now);
    row := AddFile(t, r, staged, allowed, lim, now).1.value;
  }

  lemma FileFits(t: Tables, r: NewRev, staged: Blob, allowed: bool, lim: Limits, now: int)
    ensures var o := AddFile(t, r, staged, allowed, lim, now).1; o.Done? ==> Admitted(t, o.value, lim)
  {
  }

  lemma RestoreAdmitted(
    t: Tables, v: VaultId, uid: int, device: string, user: nat, allowed: bool, lim: Limits, fits: bool, ts: int)
    returns (row: Rev)
    requires Store.Inv(t) && Store.Restore(t, v, uid, device, user, allowed, lim, fits, ts).0 != t
    ensures Commits(t, Store.Restore(t, v, uid, device, user, allowed, lim, fits, ts).0, row) && row.vault == v
    ensures Admitted(t, row, lim)
  {
    RestoreFits(t, v, uid, device, user, allowed, lim, fits, ts);
    RestoreInv(t, v, uid, device, user, allowed, lim, fits, ts);
    row := Store.Restore(t, v, uid, device, user, allowed, lim, fits, ts).1.value.value;
  }

  lemma RestoreFits(
    t: Tables, v: VaultId, uid: int, device: string, user: nat, allowed: bool, lim: Limits, fits: bool, ts: int)
    ensures var o := Store.Restore(t, v, uid, device, user, allowed, lim, fits, ts).1;
      o.Done? && o.value.Some? ==> Admitted(t, o.value.value, lim)
  {
  }

  // ----- owners' totals -----

  function OwnerSum(t: Tables, owners: seq<nat>): nat {
    if owners == [] then 0 else OwnerSum(t, owners[..|owners| - 1]) + OwnerBytes(t, owners[|owners| - 1])
  }

  function OwnedByAny(vaults: map<VaultId, Vault>, owners: seq<nat>): Rev -> bool {
    (r: Rev) => r.vault in vaults && vaults[r.vault].owner in owners
  }

  lemma {:induction false} BytesUnion(rows: seq<Rev>, f: Rev -> bool, g: Rev -> bool, h: Rev -> bool)
    requires forall r | r in rows :: h(r) == (f(r) || g(r)) && !(f(r) && g(r))
    ensures Bytes(Filter(rows, h)) == Bytes(Filter(rows, f)) + Bytes(Filter(rows, g))
  {
    if rows != [] {
      var init, r := rows[..|rows| - 1], rows[|rows| - 1];
      BytesUnion(init, f, g, h);
      BytesSnoc(Filter(init, f), r);
      BytesSnoc(Filter(init, g), r);
      BytesSnoc(Filter(init, h), r);
    }
  }

  lemma {:induction false} OwnerSumOf(t: Tables, owners: seq<nat>)
    requires forall i, j | 0 <= i < j < |owners| :: owners[i] != owners[j]
    ensures OwnerSum(t, owners) == Bytes(Filter(t.revisions, OwnedByAny(t.vaults, owners)))
    decreases |owners|
  {
    if owners == [] {
      FilterNone(t.revisions, OwnedByAny(t.vaults, owners));
    } else {
      var before, o := owners[..|owners| - 1], owners[|owners| - 1];
      assert owners == before + [o];
      OwnerSumOf(t, before);
      BytesUnion(t.revisions, OwnedByAny(t.vaults, before), OwnedBy(t.vaults, o), OwnedByAny(t.vaults, owners));
    }
  }

  // The counter the triggers maintain is also the sum of what the owners use.
  lemma UsageIsOwnerSum(t: Tables, owners: seq<nat>)
    requires Store.Inv(t) && (forall i, j | 0 <= i < j < |owners| :: owners[i] != owners[j])
    requires forall v | v in t.vaults :: t.vaults[v].owner in owners
    ensures t.usage == OwnerSum(t, owners)
  {
    OwnerSumOf(t, owners);
    forall r | r in t.revisions ensures OwnedByAny(t.vaults, owners)(r) { assert RowOk(t, r); }
    FilterAll(t.revisions, OwnedByAny(t.vaults, owners));
  }

  // ----- steps -----

  // Claims grow only within the limit, and reserved ones start within it.
  ghost predicate Bounded(q: System, n: System, lim: Limits, o: nat) {
    && (Claimed(n) <= Claimed(q) || Claimed(n) <= lim.global)
    && (Total(q.live) == 0 < Total(n.live) ==> Claimed(n) <= lim.global)
    && (ClaimedBy(n, o) <= ClaimedBy(q, o) || ClaimedBy(n, o) <= lim.owner)
    && (Held(q.live, o) == 0 < Held(n.live, o) ==> ClaimedBy(n, o) <= lim.owner)
  }

  lemma ReserveBounded(q: System, h: Hold, lim: Limits, o: nat)
    requires Balanced(q.ledger, q.live)
    ensures Bounded(q, Next(q, Reserve(h), lim), lim, o)
  {
    HoldSnoc(q.live, h, o);
    assert ReservedBy(q.ledger, h.owner) == Held(q.live, h.owner);
  }

  lemma CancelBounded(q: System, i: nat, lim: Limits, o: nat)
    ensures Bounded(q, Next(q, Cancel(i), lim), lim, o)
  {
    if i < |q.live| { WithoutSums(q.live, i, o); }
  }

  lemma UploadBounded(q: System, x: Event, lim: Limits, o: nat)
    requires Inv(q, lim) && x.Upload? && Enabled(q, x, lim)
    ensures Bounded(q, Next(q, x, lim), lim, o)
  {
    var db, e := q.s.db, UploadStep(x, lim);
    WithoutSums(q.live, x.i, o);
    if Do(db, e.op, e.now).tables != db.tables {
      var row := FileAdmitted(db.tables, x.rev, x.staged, MayWrite(db, x.who, x.rev.vault, x.now), lim, x.now);
      CommitBytes(db.tables, Do(db, e.op, e.now).tables, row, o);
      assert HoldOk(q.s, q.live[x.i]);
    }
  }

  lemma RestoreBounded(q: System, e: Step, lim: Limits, o: nat)
    requires Inv(q, lim) && Configured(lim) && e.op.Restore? && Enabled(q, Transact(e), lim)
    ensures Bounded(q, Next(q, Transact(e), lim), lim, o)
  {
    var db, op := q.s.db, e.op;
    var n := Do(db, op, e.now);
    if n.tables != db.tables {
      var allowed := MayWrite(db, op.who, op.vault, e.now);
      var row := RestoreAdmitted(
        db.tables, op.vault, op.uid, op.device, op.who.user, allowed, op.limits, op.fits, e.now);
      CommitBytes(db.tables, n.tables, row, o);
      RestoreRoom(q, lim, db.tables.vaults[op.vault].owner, op.limits);
    }
  }

  // The limits of a restore leave out what is reserved.
  lemma RestoreRoom(q: System, lim: Limits, owner: nat, limits: Limits)
    requires Balanced(q.ledger, q.live) && Configured(lim) && Tighter(limits, RestoreLimits(q, owner, lim))
    ensures limits.global + Total(q.live) <= lim.global && limits.owner + Held(q.live, owner) <= lim.owner
  {
    assert ReservedBy(q.ledger, owner) == Held(q.live, owner);
    HeldWithin(q.live, owner);
  }

  lemma TransactBounded(q: System, e: Step, lim: Limits, o: nat)
    requires Inv(q, lim) && Configured(lim) && Enabled(q, Transact(e), lim)
    ensures Bounded(q, Next(q, Transact(e), lim), lim, o)
  {
    if e.op.Restore? {
      RestoreBounded(q, e, lim, o);
    } else if e.op.PushEmpty? {
      if Do(q.s.db, e.op, e.now).tables != q.s.db.tables {
        var allowed := MayWrite(q.s.db, e.op.who, e.op.rev.vault, e.now);
        var row := EmptyAdmitted(q.s.db.tables, e.op.rev, allowed, e.op.limits, e.now);
        CommitBytes(q.s.db.tables, Do(q.s.db, e.op, e.now).tables, row, o);
      }
    } else {
      QuietShrinks(q.s.db, e.op, e.now, o);
    }
  }

  // ----- a live reservation stays in order -----

  lemma StepHold(s: State, e: Step, h: Hold)
    requires Sound(s) && Database.Enabled(s, e) && !e.op.Rotate? && HoldOk(s, h)
    ensures HoldOk(Database.Next(s, e), h)
  {
    Access.StepOwner(s, e, h.vault);
    StepSound(s, e);
  }

  // ----- runs -----

  lemma StepBounded(q: System, x: Event, lim: Limits, o: nat)
    requires Inv(q, lim) && Configured(lim) && Enabled(q, x, lim)
    ensures Bounded(q, Next(q, x, lim), lim, o)
  {
    match x
    case Reserve(h) => ReserveBounded(q, h, lim, o);
    case Cancel(i) => CancelBounded(q, i, lim, o);
    case Upload(_, _, _, _, _) => UploadBounded(q, x, lim, o);
    case Transact(e) => TransactBounded(q, e, lim, o);
  }

  lemma BoundedBacked(q: System, n: System, lim: Limits, o: nat)
    requires Backed(q, lim, o) && Bounded(q, n, lim, o)
    ensures Backed(n, lim, o)
  {
  }

  lemma StepHolds(q: System, x: Event, lim: Limits)
    requires Inv(q, lim) && Enabled(q, x, lim)
    ensures var n := Next(q, x, lim); forall i {:trigger n.live[i]} | 0 <= i < |n.live| :: HoldOk(n.s, n.live[i])
  {
    var n := Next(q, x, lim);
    forall i | 0 <= i < |n.live| ensures HoldOk(n.s, n.live[i]) { LiveHold(q, x, lim, n.live[i]); }
  }

  lemma LiveHold(q: System, x: Event, lim: Limits, h: Hold)
    requires Inv(q, lim) && Enabled(q, x, lim) && h in Next(q, x, lim).live
    ensures HoldOk(Next(q, x, lim).s, h)
  {
    if h in q.live { HoldKept(q, x, lim, h); }
  }

  lemma HoldKept(q: System, x: Event, lim: Limits, h: Hold)
    requires Inv(q, lim) && Enabled(q, x, lim) && h in q.live
    ensures HoldOk(Next(q, x, lim).s, h)
  {
    var j :| 0 <= j < |q.live| && q.live[j] == h;
    assert HoldOk(q.s, q.live[j]);
    if x.Upload? { StepHold(q.s, UploadStep(x, lim), h); }
    if x.Transact? { StepHold(q.s, x.e, h); }
  }

  lemma StepBalanced(q: System, x: Event, lim: Limits)
    requires Inv(q, lim) && Configured(lim) && Enabled(q, x, lim)
    ensures Balanced(Next(q, x, lim).ledger, Next(q, x, lim).live) && Sound(Next(q, x, lim).s)
  {
    match x
    case Reserve(h) =>
      ReserveBalanced(q.ledger, q.live, q.s.db.tables.usage, OwnerBytes(q.s.db.tables, h.owner), h, lim);
    case Cancel(i) =>
      assert HoldOk(q.s, q.live[i]);
      ReleaseBalanced(q.ledger, q.live, i);
    case Upload(i, _, _, _, _) =>
      assert HoldOk(q.s, q.live[i]);
      ReleaseBalanced(q.ledger, q.live, i);
      StepSound(q.s, UploadStep(x, lim));
    case Transact(e) => StepSound(q.s, e);
  }

  lemma StepInv(q: System, x: Event, lim: Limits)
    requires Inv(q, lim) && Configured(lim) && Enabled(q, x, lim)
    ensures Inv(Next(q, x, lim), lim)
  {
    StepBalanced(q, x, lim);
    StepHolds(q, x, lim);
    forall o ensures Backed(Next(q, x, lim), lim, o) {
      assert Backed(q, lim, o);
      StepBounded(q, x, lim, o);
      BoundedBacked(q, Next(q, x, lim), lim, o);
    }
  }

  function End(q: System, xs: seq<Event>, lim: Limits): System
    decreases |xs|
  {
    if xs == [] then q else End(Next(q, xs[0], lim), xs[1..], lim)
  }

  ghost predicate Runs(q: System, xs: seq<Event>, lim: Limits)
    decreases |xs|
  {
    xs == [] || (Enabled(q, xs[0], lim) && Runs(Next(q, xs[0], lim), xs[1..], lim))
  }

  // Started on any sound database, even one already over a lowered quota.
  ghost predicate Starts(q: System) { Sound(q.s) && q.ledger == Ledger(0, map[]) && q.live == [] }

  lemma StartInv(q: System, lim: Limits)
    requires Starts(q)
    ensures Inv(q, lim)
  {
    forall o ensures Backed(q, lim, o) && ReservedBy(q.ledger, o) == Held(q.live, o) {}
  }

  lemma {:induction false} RunInv(q: System, xs: seq<Event>, lim: Limits)
    requires Inv(q, lim) && Configured(lim) && Runs(q, xs, lim)
    ensures Inv(End(q, xs, lim), lim)
    decreases |xs|
  {
    if xs != [] {
      StepInv(q, xs[0], lim);
      RunInv(Next(q, xs[0], lim), xs[1..], lim);
    }
  }

  // A database within its quotas stays within them, reservations included, whatever
  // uploads, restores, purges and deletions interleave.
  lemma {:induction false} NeverOverCommitted(q: System, xs: seq<Event>, lim: Limits, o: nat)
    requires Inv(q, lim) && Configured(lim) && Runs(q, xs, lim)
    requires Claimed(q) <= lim.global && ClaimedBy(q, o) <= lim.owner
    ensures Claimed(End(q, xs, lim)) <= lim.global && ClaimedBy(End(q, xs, lim), o) <= lim.owner
    decreases |xs|
  {
    if xs != [] {
      StepInv(q, xs[0], lim);
      StepBounded(q, xs[0], lim, o);
      NeverOverCommitted(Next(q, xs[0], lim), xs[1..], lim, o);
    }
  }

  // The commit-time check never turns away an upload that holds its reservation.
  lemma ReservationHonoured(q: System, xs: seq<Event>, lim: Limits, i: nat)
    requires Starts(q) && Configured(lim) && Runs(q, xs, lim) && i < |End(q, xs, lim).live|
    ensures var n := End(q, xs, lim); var h := n.live[i];
      h.vault in n.s.db.tables.vaults ==> QuotaCheck(n.s.db.tables, h.vault, h.bytes, lim) == None
  {
    StartInv(q, lim);
    RunInv(q, xs, lim);
    var n := End(q, xs, lim);
    assert HoldOk(n.s, n.live[i]);
    HoldWithin(n.live, i);
    assert Backed(n, lim, n.live[i].owner);
  }

  // The reduced limits of a restore are never negative.
  lemma RestoreLimitsValid(q: System, lim: Limits, o: nat)
    requires Inv(q, lim) && Configured(lim)
    ensures var r := RestoreLimits(q, o, lim); 0 <= r.global <= lim.global && 0 <= r.owner <= lim.owner
  {
    assert Backed(q, lim, o);
    assert ReservedBy(q.ledger, o) == Held(q.live, o);
  }

  // ----- the running server -----

  // One event on the ledger in memory and the database.
  method Handle(q: System, r: Reservations, x: Event, lim: Limits) returns (n: System)
    requires r.Valid() && r.live == q.live && r.Contents() == q.ledger
    requires Configured(lim) && Enabled(q, x, lim)
    modifies r
    ensures n == Next(q, x, lim) && r.Valid() && r.live == n.live && r.Contents() == n.ledger
  {
    match x
    case Reserve(h) =>
      var t := q.s.db.tables;
      var ok := r.Reserve(t.usage, OwnerBytes(t, h.owner), h, lim);
      n := if ok then q.(ledger := r.Contents(), live := q.live + [h]) else q;
    case Cancel(i) =>
      r.Drop(i, q.live[i]);
      n := System(q.s, r.Contents(), Without(q.live, i));
    case Upload(i, _, _, _, _) =>
      r.Drop(i, q.live[i]);
      n := System(Database.Next(q.s, UploadStep(x, lim)), r.Contents(), Without(q.live, i));
    case Transact(e) => n := q.(s := Database.Next(q.s, e));
  }

  // Events handled one after another: the counters in memory are the sums of the live
  // reservations, and what they count is really there.
  method Serve(s: State, xs: seq<Event>, lim: Limits) returns (q: System, r: Reservations)
    requires Sound(s) && Configured(lim) && Runs(System(s, Ledger(0, map[]), []), xs, lim)
    ensures q == End(System(s, Ledger(0, map[]), []), xs, lim) && Inv(q, lim)
    ensures r.Valid() && r.live == q.live && r.Contents() == q.ledger
  {
    ghost var start := System(s, Ledger(0, map[]), []);
    q := System(s, Ledger(0, map[]), []);
    r := new Reservations();
    StartInv(q, lim);
    for i := 0 to |xs|
      invariant fresh(r) && r.Valid() && r.live == q.live && r.Contents() == q.ledger && Inv(q, lim)
      invariant Runs(q, xs[i..], lim) && End(q, xs[i..], lim) == End(start, xs, lim)
    {
      assert xs[i..][1..] == xs[i + 1..];
      StepInv(q, xs[i], lim);
      q := Handle(q, r, xs[i], lim);
    }
  }
}
