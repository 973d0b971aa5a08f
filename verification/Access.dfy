// Who may change what. Every transaction on a vault against the sessions, owners and
// members the database holds, and what becomes of a collaborator who was removed.
module Access {
  import opened Lists
  import opened Revisions
  import opened Store
  import opened Database
  import opened DatabaseRun
  import Epoch
  import Markers
  import Members
  import Sessions

  // The token is a stored session of that user, not revoked and not expired, and the user
  // is active.
  ghost predicate SignedIn(db: Db, who: Caller, now: int) {
    && who.token in db.accounts.sessions && who.user in db.accounts.users && db.accounts.users[who.user].active
    && db.accounts.sessions[who.token].user == who.user && db.accounts.sessions[who.token].revoked == None
    && now < db.accounts.sessions[who.token].expires
  }

  ghost predicate OwnerOf(db: Db, user: nat, v: VaultId) {
    v in db.tables.vaults && db.tables.vaults[v].owner == user
  }

  // The owner, or a member whose row is not revoked.
  ghost predicate Entitled(db: Db, user: nat, v: VaultId) {
    v in db.tables.vaults && (db.tables.vaults[v].owner == user || Members.IsMember(db.members.rows, v, user))
  }

  lemma AuthorizedExact(db: Db, who: Caller, now: int)
    ensures Authorized(db, who, now) <==> SignedIn(db, who, now)
  {
  }

  lemma MayWriteExact(db: Db, who: Caller, v: VaultId, now: int)
    ensures MayWrite(db, who, v, now) <==> SignedIn(db, who, now) && Entitled(db, who.user, v)
  {
  }

  // ----- writing to a vault -----

  predicate IsWrite(op: Op) { op.PushEmpty? || op.PushFile? || op.Restore? || op.Purge? }

  function WrittenTo(op: Op): VaultId
    requires IsWrite(op)
  {
    if op.PushEmpty? || op.PushFile? then op.rev.vault else op.vault
  }

  ghost predicate MayChange(db: Db, op: Op, now: int)
    requires IsWrite(op)
  {
    SignedIn(db, op.who, now) && Entitled(db, op.who.user, WrittenTo(op))
  }

  // The answer to a write, if it is a refusal.
  function Refusal(db: Db, op: Op, now: int): Option<Reason>
    requires IsWrite(op)
  {
    match op
    case PushEmpty(who, r, lim) => Why(AddEmpty(db.tables, r, MayWrite(db, who, r.vault, now), lim, now).1)
    case PushFile(who, r, staged, lim) =>
      Why(AddFile(db.tables, r, staged, MayWrite(db, who, r.vault, now), lim, now).1)
    case Restore(who, v, uid, device, lim, fits) =>
      Why(Store.Restore(db.tables, v, uid, device, who.user, MayWrite(db, who, v, now), lim, fits, now).1)
    case Purge(who, v) => Why(Store.Purge(db.tables, v, MayWrite(db, who, v, now)).1)
  }

  function Why<T>(o: Outcome<T>): Option<Reason> { match o case Done(_) => None case Refused(why) => Some(why) }

  // A push is looked at before its caller is.
  predicate WellFormed(op: Op)
    requires IsWrite(op)
  {
    && (op.PushEmpty? ==> op.rev.size == op.rev.pieces == 0)
    && (op.PushFile? ==> !op.rev.folder && !op.rev.deleted && 0 < op.rev.size && op.rev.pieces == Pieces(op.rev.size))
  }

  // A write is answered "unauthorized" exactly when it is well formed and its caller is not
  // signed in or neither owns the vault nor is a member of it.
  lemma UnauthorizedExact(db: Db, op: Op, now: int)
    requires Inv(db.tables) && IsWrite(op)
    ensures Refusal(db, op, now) == Some(Unauthorized) <==> WellFormed(op) && !MayChange(db, op, now)
  {
    var v := WrittenTo(op);
    MayWriteExact(db, op.who, v, now);
    match op
    case PushEmpty(who, r, lim) => AdmissionExact(db.tables, r, MayWrite(db, who, v, now), lim);
    case PushFile(who, r, _, lim) => AdmissionExact(db.tables, r, MayWrite(db, who, v, now), lim);
    case Restore(who, _, uid, device, lim, fits) =>
      RestoreInv(db.tables, v, uid, device, who.user, MayWrite(db, who, v, now), lim, fits, now);
    case Purge(_, _) => {}
  }

  // A refused write changes nothing, so nobody else changes anything.
  lemma RefusedUnchanged(db: Db, op: Op, now: int)
    requires Inv(db.tables) && IsWrite(op)
    ensures Refusal(db, op, now).Some? ==> Do(db, op, now) == db
    ensures !MayChange(db, op, now) ==> Do(db, op, now) == db && Refusal(db, op, now).Some?
  {
    var v := WrittenTo(op);
    MayWriteExact(db, op.who, v, now);
    match op
    case PushEmpty(who, r, lim) => AddEmptyInv(db.tables, r, MayWrite(db, who, v, now), lim, now);
    case PushFile(who, r, staged, lim) => AddFileInv(db.tables, r, staged, MayWrite(db, who, v, now), lim, now);
    case Restore(who, _, uid, device, lim, fits) =>
      RestoreInv(db.tables, v, uid, device, who.user, MayWrite(db, who, v, now), lim, fits, now);
    case Purge(_, _) => {}
  }

  // What a write commits is its caller's, of the vault it names and of its time, and shows
  // there at once.
  lemma CommitsAuthored(s: State, e: Step)
    requires Inv(s.db.tables) && Enabled(s, e) && IsCommit(e.op) && Do(s.db, e.op, e.now) != s.db
    ensures var t, n := s.db.tables, Do(s.db, e.op, e.now).tables;
      exists row: Rev :: Commits(t, n, row) && ShowsIn(t, n, row)
        && row.vault == WrittenTo(e.op) && row.user == e.op.who.user && row.ts == e.now
  {
    var t, now := s.db.tables, e.now;
    match e.op
    case PushEmpty(who, r, lim) =>
      AddEmptyInv(t, r, MayWrite(s.db, who, r.vault, now), lim, now);
      assert Carries(AddEmpty(t, r, MayWrite(s.db, who, r.vault, now), lim, now).1.value, r, now);
    case PushFile(who, r, staged, lim) =>
      AddFileInv(t, r, staged, MayWrite(s.db, who, r.vault, now), lim, now);
      assert Carries(AddFile(t, r, staged, MayWrite(s.db, who, r.vault, now), lim, now).1.value, r, now);
    case Restore(who, v, uid, device, lim, fits) =>
      RestoreInv(t, v, uid, device, who.user, MayWrite(s.db, who, v, now), lim, fits, now);
  }

  // ----- changing a vault or its members -----

  // Room for one more marker: in all, or in place of the owner's oldest.
  ghost predicate MarkerRoom(rows: seq<Markers.Marker>, owner: nat) {
    |rows| < Markers.MAX_RETIRED || Markers.Count(rows, owner) >= Markers.MAX_RETIRED_PER_OWNER
  }

  lemma MarkerRoomExact(rows: seq<Markers.Marker>, v: VaultId, owner: nat, now: int)
    requires Markers.Inv(rows)
    ensures Markers.Retire(rows, v, owner, now).Some? <==> MarkerRoom(rows, owner)
    ensures Markers.Retire(rows, v, owner, now).Some? ==> v in Markers.Ids(Markers.Retire(rows, v, owner, now).value)
  {
    Markers.RetireRoom(rows, v, owner, now);
    Markers.RetireInv(rows, v, owner, now);
  }

  // Creating a vault takes a signed-in user, who owns it.
  lemma CreateExact(db: Db, who: Caller, id: VaultId, profile: string, now: int)
    requires Inv(db.tables)
    ensures var n := Do(db, Op.Create(who, id, profile), now);
      && n == db.(tables := n.tables)
      && if SignedIn(db, who, now) && |db.tables.vaults| < MAX_VAULTS && id !in db.tables.vaults
         then OwnerOf(n, who.user, id) && n.tables.vaults - {id} == db.tables.vaults && Rows(n.tables, id) == []
         else n == db
  {
    AuthorizedExact(db, who, now);
    CreateInv(db.tables, id, who.user, profile, Authorized(db, who, now));
    if id !in db.tables.vaults { NoRowsOutside(db.tables, id); }
  }

  // Only its owner, signed in, deletes a vault; it goes with its rows and members, is
  // marked, and every other vault is left alone.
  lemma DeleteExact(db: Db, who: Caller, v: VaultId, now: int)
    requires Consistent(db)
    ensures var (n, o) := DeleteVaultTx(db, who, v, now);
      && (o == Refused(Unauthorized) <==> !SignedIn(db, who, now))
      && (o == Done(false) <==> SignedIn(db, who, now) && !OwnerOf(db, who.user, v))
      && (o == Done(true) <==>
            SignedIn(db, who, now) && OwnerOf(db, who.user, v) && MarkerRoom(db.retired, who.user))
      && (o != Done(true) ==> n == db)
      && (o == Done(true) ==>
            && n.accounts == db.accounts && n.tables.vaults == db.tables.vaults - {v} && Rows(n.tables, v) == []
            && OthersSurvive(db.tables, n.tables, v) && v in Markers.Ids(n.retired)
            && n.members.rows == Filter(db.members.rows, Members.OutOf(v)))
  {
    AuthorizedExact(db, who, now);
    MarkerRoomExact(db.retired, v, who.user, now);
    DropVaultInv(db.tables, v);
    DropVaultRows(db.tables, v, v);
  }

  ghost predicate MembersMoved(t: Members.Table, n: Members.Table, v: VaultId, w: VaultId) {
    && Filter(n.rows, Members.In(w))
         == Map(Filter(t.rows, Members.ActiveIn(v)), (m: Members.Member) => m.(vault := w))
    && Filter(n.rows, Members.OutOf(w)) == Filter(t.rows, Members.OutOf(v))
  }

  lemma MembersMove(t: Members.Table, v: VaultId, w: VaultId)
    requires v != w && forall m | m in t.rows :: m.vault != w
    ensures MembersMoved(t, Members.Migrate(t, v, w), v, w)
  {
    Members.MigrateCarries(t, v, w);
    var active := Filter(t.rows, Members.ActiveIn(v));
    forall i | 0 <= i < |active| ensures Members.Moving(v, w)(active[i]) == active[i].(vault := w) {
      assert active[i] in active;
    }
    assert Map(active, Members.Moving(v, w)) == Map(active, (m: Members.Member) => m.(vault := w));
  }

  // A vault replaced by an empty one of the same owner, with exactly its active members.
  ghost predicate Migrated(db: Db, n: Db, v: VaultId, w: VaultId, profile: string) {
    && v in db.tables.vaults && n.accounts == db.accounts
    && OthersSurvive(db.tables, n.tables, v) && v in Markers.Ids(n.retired)
    && n.tables.vaults == (db.tables.vaults - {v})[w := Vault(db.tables.vaults[v].owner, profile, 0, 0)]
    && Rows(n.tables, w) == [] && MembersMoved(db.members, n.members, v, w)
  }

  lemma MigrationDone(db: Db, who: Caller, v: VaultId, w: VaultId, profile: string, now: int)
    requires Consistent(db) && w !in db.tables.vaults && MigrateTx(db, who, v, w, profile, now).1 == Done(true)
    ensures Migrated(db, MigrateTx(db, who, v, w, profile, now).0, v, w, profile)
  {
    MarkerRoomExact(db.retired, v, who.user, now);
    ReplaceVaultInv(db.tables, v, w, profile);
    NoMembersOf(db, w);
    MembersMove(db.members, v, w);
  }

  // So with migration.
  lemma MigrateExact(db: Db, who: Caller, v: VaultId, w: VaultId, profile: string, now: int)
    requires Consistent(db) && w !in db.tables.vaults
    ensures var (n, o) := MigrateTx(db, who, v, w, profile, now);
      && (o == Refused(Unauthorized) <==> !SignedIn(db, who, now))
      && (o == Done(false) <==> SignedIn(db, who, now) && !OwnerOf(db, who.user, v))
      && (o == Done(true) <==>
            SignedIn(db, who, now) && OwnerOf(db, who.user, v) && MarkerRoom(db.retired, who.user))
      && (if o == Done(true) then Migrated(db, n, v, w, profile) else n == db)
  {
    AuthorizedExact(db, who, now);
    MarkerRoomExact(db.retired, v, who.user, now);
    if MigrateTx(db, who, v, w, profile, now).1 == Done(true) { MigrationDone(db, who, v, w, profile, now); }
  }

  lemma NoMembersOf(db: Db, w: VaultId)
    requires TablesOk(db) && w !in db.tables.vaults
    ensures forall m | m in db.members.rows :: m.vault != w
  {
    forall m | m in db.members.rows ensures m.vault != w {
      assert Members.RowOk(db.members, Owners(db.tables), m);
    }
  }

  // Only the owner, signed in, invites, and only an active user; that user is a member then
  // exactly when it was one before or there was room.
  lemma InviteExact(db: Db, who: Caller, v: VaultId, target: nat, now: int)
    requires Consistent(db)
    ensures var (n, o) := InviteTx(db, who, v, target, now);
      && n == db.(members := n.members)
      && (o == Refused(Unauthorized) <==> !SignedIn(db, who, now))
      && (o == Refused(NotFound) <==> SignedIn(db, who, now) && !OwnerOf(db, who.user, v))
      && (o.Done? && o.value.Shared? <==>
            && SignedIn(db, who, now) && OwnerOf(db, who.user, v) && target != who.user
            && target in db.accounts.users && db.accounts.users[target].active
            && (Members.IsMember(db.members.rows, v, target) || Members.Room(db.members, v)))
      && (if o.Done? && o.value.Shared?
          then Members.Joined(db.members, n.members, v, who.user, target, now, o.value.uid) else n == db)
  {
    AuthorizedExact(db, who, now);
    Members.InviteExact(db.members, v, who.user, target, now);
  }

  // A collaborator is removed exactly when the owner or that collaborator, signed in, asks;
  // then only that row is revoked.
  lemma RemoveExact(db: Db, who: Caller, v: VaultId, share: nat, now: int)
    requires Consistent(db)
    ensures var (n, o) := RemoveTx(db, who, v, share, now);
      && n == db.(members := n.members)
      && (o == Refused(Unauthorized) <==> !SignedIn(db, who, now))
      && (forall u {:trigger Members.Shares(db.members, v, share, u)} :: o == Done(Some(u)) <==>
            && SignedIn(db, who, now) && v in db.tables.vaults && Members.Shares(db.members, v, share, u)
            && (who.user == db.tables.vaults[v].owner || who.user == u))
      && (if o.Done? && o.value.Some? then Members.OnlyRevoked(db.members, n.members, share, now) else n == db)
  {
    AuthorizedExact(db, who, now);
    if v in db.tables.vaults { Members.RemoveExact(db.members, Owners(db.tables), v, who.user, share, now); }
  }

  // ----- a vault keeps its owner -----

  ghost predicate OwnerStays(t: Tables, n: Tables, v: VaultId) {
    v in t.vaults && v in n.vaults ==> n.vaults[v].owner == t.vaults[v].owner
  }

  lemma CommitOwner(db: Db, op: Op, now: int, v: VaultId)
    requires Inv(db.tables) && IsCommit(op)
    ensures OwnerStays(db.tables, Do(db, op, now).tables, v)
  {
    CommitStep(db, op, now);
    if Do(db, op, now).tables != db.tables {
      var row: Rev :| Commits(db.tables, Do(db, op, now).tables, row);
    }
  }

  lemma MigrateOwner(db: Db, op: Op, now: int, v: VaultId)
    requires Inv(db.tables) && op.Migrate?
    ensures OwnerStays(db.tables, Do(db, op, now).tables, v)
  {
    if Do(db, op, now) != db { ReplaceVaultInv(db.tables, op.vault, op.id, op.profile); }
  }

  lemma StepOwner(s: State, e: Step, v: VaultId)
    requires Sound(s) && Enabled(s, e)
    ensures OwnerStays(s.db.tables, Do(s.db, e.op, e.now).tables, v)
  {
    if IsCommit(e.op) {
      CommitOwner(s.db, e.op, e.now, v);
    } else if e.op.Create? {
      CreateStep(s.db, e.op.who, e.op.id, e.op.profile, e.now);
    } else if e.op.Purge? || e.op.PurgeDeleted? {
      PurgeStep(s.db, e.op, e.now);
    } else if e.op.DeleteVault? {
      DeleteStep(s.db, e.op.who, e.op.vault, e.now);
    } else if e.op.Migrate? {
      MigrateOwner(s.db, e.op, e.now, v);
    } else if e.op.Rotate? && v in s.db.tables.vaults {
      RotationLeaves(s.db, e.op.moves, e.op.owners, e.now, v);
    }
  }

  // ----- once out, out until invited -----

  predicate Invites(op: Op, v: VaultId, user: nat) { op.Invite? && op.vault == v && op.target == user }

  lemma MigrateMember(members: Members.Table, v: VaultId, w: VaultId, x: VaultId, user: nat)
    requires x != w && Members.IsMember(Members.Migrate(members, v, w).rows, x, user)
    ensures Members.IsMember(members.rows, x, user)
  {
    var m :| m in Members.Migrate(members, v, w).rows && m.vault == x && m.user == user && m.revoked.None?;
    var p := Members.MovedFrom(members.rows, v, w, m);
  }

  lemma RevokedMember(t: Members.Table, n: Members.Table, uid: nat, now: int, v: VaultId, user: nat)
    requires Members.OnlyRevoked(t, n, uid, now) && Members.IsMember(n.rows, v, user)
    ensures Members.IsMember(t.rows, v, user)
  {
    var m :| m in n.rows && m.vault == v && m.user == user && m.revoked.None?;
    var i :| 0 <= i < |n.rows| && n.rows[i] == m;
    assert t.rows[i] in t.rows;
  }

  lemma InviteMember(db: Db, op: Op, now: int, v: VaultId, user: nat)
    requires Consistent(db) && op.Invite? && !Invites(op, v, user)
    requires Members.IsMember(InviteTx(db, op.who, op.vault, op.target, now).0.members.rows, v, user)
    ensures Members.IsMember(db.members.rows, v, user)
  {
    InviteExact(db, op.who, op.vault, op.target, now);
  }

  lemma RemoveMember(db: Db, op: Op, now: int, v: VaultId, user: nat)
    requires Consistent(db) && op.Remove?
    requires Members.IsMember(RemoveTx(db, op.who, op.vault, op.share, now).0.members.rows, v, user)
    ensures Members.IsMember(db.members.rows, v, user)
  {
    RemoveExact(db, op.who, op.vault, op.share, now);
    var n := RemoveTx(db, op.who, op.vault, op.share, now).0;
    if n != db { RevokedMember(db.members, n.members, op.share, now, v, user); }
  }

  lemma QuietMember(db: Db, op: Op, now: int, v: VaultId, user: nat)
    requires !op.Invite? && !op.Remove? && (op.Migrate? ==> op.id != v)
    requires Members.IsMember(Do(db, op, now).members.rows, v, user)
    ensures Members.IsMember(db.members.rows, v, user)
  {
    if op.Migrate? && Do(db, op, now) != db {
      MigrateMember(db.members, op.vault, op.id, v, user);
    } else if op.Rotate? {
      DroppedAll(db.members, op.moves);
    }
  }

  // Nobody becomes a member of a vault but by an invitation to it.
  lemma StepMember(s: State, e: Step, v: VaultId, user: nat)
    requires Consistent(s.db) && Enabled(s, e) && v in s.used && !Invites(e.op, v, user)
    requires Members.IsMember(Do(s.db, e.op, e.now).members.rows, v, user)
    ensures Members.IsMember(s.db.members.rows, v, user)
  {
    if e.op.Invite? {
      InviteMember(s.db, e.op, e.now, v, user);
    } else if e.op.Remove? {
      RemoveMember(s.db, e.op, e.now, v, user);
    } else {
      assert e.op.Migrate? ==> e.op.id in Drawn(e.op);
      QuietMember(s.db, e.op, e.now, v, user);
    }
  }

  lemma StepStranger(s: State, e: Step, v: VaultId, user: nat)
    requires Sound(s) && Enabled(s, e) && v in s.used && !Entitled(s.db, user, v) && !Invites(e.op, v, user)
    ensures !Entitled(Next(s, e).db, user, v)
  {
    StepSound(s, e);
    StepOwner(s, e, v);
    if Members.IsMember(Next(s, e).db.members.rows, v, user) { StepMember(s, e, v, user); }
    if v !in s.db.tables.vaults { GoneForGood(s, [e], v); }
  }

  // Whoever has no access to a vault gets none, in any run, but by an invitation to it.
  lemma {:induction false} RunStranger(s: State, steps: seq<Step>, v: VaultId, user: nat)
    requires Sound(s) && Runs(s, steps) && v in s.used && !Entitled(s.db, user, v)
    requires forall e | e in steps :: !Invites(e.op, v, user)
    ensures !Entitled(End(s, steps).db, user, v) && Inv(End(s, steps).db.tables)
    decreases |steps|
  {
    if steps != [] {
      assert steps[0] in steps;
      StepStranger(s, steps[0], v, user);
      StepSound(s, steps[0]);
      RunStranger(Next(s, steps[0]), steps[1..], v, user);
    }
  }

  lemma RemovedIsStranger(db: Db, who: Caller, v: VaultId, share: nat, now: int, user: nat)
    requires Consistent(db) && RemoveTx(db, who, v, share, now).1 == Done(Some(user))
    ensures v in db.tables.vaults && !Entitled(RemoveTx(db, who, v, share, now).0, user, v)
  {
    RemoveExact(db, who, v, share, now);
    assert Members.Shares(db.members, v, share, user);
    var t, n := db.members, RemoveTx(db, who, v, share, now).0.members;
    var x :| x in t.rows && x.id == share && x.vault == v && x.user == user && x.revoked.None?;
    assert Members.RowOk(t, Owners(db.tables), x);
    forall i | 0 <= i < |n.rows| && n.rows[i].vault == v && n.rows[i].user == user ensures n.rows[i].revoked.Some? {
      assert t.rows[i] in t.rows;
    }
  }

  lemma RemovedNext(s: State, e: Step, user: nat)
    requires Sound(s) && Enabled(s, e) && e.op.Remove?
    requires RemoveTx(s.db, e.op.who, e.op.vault, e.op.share, e.now).1 == Done(Some(user))
    ensures !Entitled(Next(s, e).db, user, e.op.vault) && e.op.vault in Next(s, e).used
  {
    RemovedIsStranger(s.db, e.op.who, e.op.vault, e.op.share, e.now, user);
  }

  lemma RemovedRun(s: State, e: Step, user: nat, steps: seq<Step>)
    requires Sound(s) && Enabled(s, e) && e.op.Remove?
    requires RemoveTx(s.db, e.op.who, e.op.vault, e.op.share, e.now).1 == Done(Some(user))
    requires Runs(Next(s, e), steps) && forall f | f in steps :: !Invites(f.op, e.op.vault, user)
    ensures var db := End(Next(s, e), steps).db; !Entitled(db, user, e.op.vault) && Inv(db.tables)
  {
    RemovedNext(s, e, user);
    StepSound(s, e);
    RunStranger(Next(s, e), steps, e.op.vault, user);
  }

  // After a collaborator was removed, whatever happens, no write of theirs to the vault is
  // carried out unless an invitation came between.
  lemma RemovedStaysOut(s: State, e: Step, user: nat, steps: seq<Step>, op: Op, now: int)
    requires Sound(s) && Enabled(s, e) && e.op.Remove?
    requires RemoveTx(s.db, e.op.who, e.op.vault, e.op.share, e.now).1 == Done(Some(user))
    requires Runs(Next(s, e), steps) && forall f | f in steps :: !Invites(f.op, e.op.vault, user)
    requires IsWrite(op) && op.who.user == user && WrittenTo(op) == e.op.vault
    ensures var db := End(Next(s, e), steps).db; Do(db, op, now) == db && Refusal(db, op, now).Some?
  {
    RemovedRun(s, e, user, steps);
    RefusedUnchanged(End(Next(s, e), steps).db, op, now);
  }
}
