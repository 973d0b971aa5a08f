// What holds of the whole database after every run of transactions (`Consistent`); rows
// and content never change, vault ids never come back, and a conditional write is exact.
module DatabaseRun {
  import opened Lists
  import opened Revisions
  import opened Store
  import opened Database
  import Compaction
  import Epoch
  import Markers
  import Members
  import Sessions

  function Owners(t: Tables): map<VaultId, nat> { map v | v in t.vaults :: t.vaults[v].owner }

  ghost predicate TablesOk(db: Db) {
    Inv(db.tables) && Members.Inv(db.members, Owners(db.tables)) && Markers.Inv(db.retired)
  }

  // What the database verifier asks that holds at any time, by any clock: the tables with
  // their sizes, versions, counter and content locations, memberships up to the bound of
  // 83 rows a vault, marker bounds, active and retired ids apart, and the sessions with
  // their counts and dates.
  ghost predicate Consistent(db: Db) {
    TablesOk(db) && db.tables.vaults.Keys !! Markers.Ids(db.retired) && Sessions.Solid(db.accounts)
  }

  // Every vault id and every token in the database was drawn at some time.
  ghost predicate IdsOk(db: Db, used: set<VaultId>) {
    db.tables.vaults.Keys <= used && Markers.Ids(db.retired) <= used
  }

  ghost predicate Sound(s: State) {
    Consistent(s.db) && IdsOk(s.db, s.used) && s.db.accounts.sessions.Keys <= s.issued
  }

  // A transaction that draws only new ids and, in a rotation, names every vault.
  ghost predicate Admissible(db: Db, op: Op, now: int) {
    && Drawn(op) !! db.tables.vaults.Keys && Drawn(op) !! Markers.Ids(db.retired)
    && (op.Rotate? ==> Complete(db, op.moves, op.owners)) && (op.Account? ==> Sessions.Lawful(op.op, now))
  }

  // Vault ids only appear when drawn, and only ids that vanish get marked.
  ghost predicate IdsMove(db: Db, n: Db, drawn: set<VaultId>) {
    && n.tables.vaults.Keys <= db.tables.vaults.Keys + drawn
    && Markers.Ids(n.retired) <= Markers.Ids(db.retired) + (db.tables.vaults.Keys - n.tables.vaults.Keys)
  }

  // ----- steps -----

  lemma SameOwners(t: Tables, n: Tables)
    requires n.vaults.Keys == t.vaults.Keys && forall v | v in t.vaults :: n.vaults[v].owner == t.vaults[v].owner
    ensures Owners(n) == Owners(t)
  {
  }

  lemma DropOwners(t: Tables, n: Tables, v: VaultId)
    requires n.vaults == t.vaults - {v}
    ensures Owners(n) == Owners(t) - {v}
  {
  }

  lemma WithOwner(db: Db, n: Tables, id: VaultId, vault: Vault)
    requires TablesOk(db) && id !in db.tables.vaults && n.vaults == db.tables.vaults[id := vault]
    ensures Members.Inv(db.members, Owners(n))
  {
    forall m | m in db.members.rows ensures Members.RowOk(db.members, Owners(n), m) {
      assert Members.RowOk(db.members, Owners(db.tables), m);
    }
  }

  // A step that leaves the tables as they were or appends one committed row.
  ghost predicate CommitsTo(t: Tables, n: Tables, v: VaultId) {
    n == t || exists row: Rev :: row.vault == v && Commits(t, n, row)
  }

  predicate IsCommit(op: Op) { op.PushEmpty? || op.PushFile? || op.Restore? }

  function CommitVault(op: Op): VaultId
    requires IsCommit(op)
  {
    if op.Restore? then op.vault else op.rev.vault
  }

  lemma CommitStep(db: Db, op: Op, now: int)
    requires Inv(db.tables) && IsCommit(op)
    ensures var n := Do(db, op, now); n == db.(tables := n.tables) && CommitsTo(db.tables, n.tables, CommitVault(op))
  {
    match op
    case PushEmpty(who, r, lim) => AddEmptyInv(db.tables, r, MayWrite(db, who, r.vault, now), lim, now);
    case PushFile(who, r, staged, lim) => AddFileInv(db.tables, r, staged, MayWrite(db, who, r.vault, now), lim, now);
    case Restore(who, v, uid, device, lim, fits) =>
      RestoreInv(db.tables, v, uid, device, who.user, MayWrite(db, who, v, now), lim, fits, now);
  }

  lemma CommitsOk(db: Db, n: Tables, v: VaultId)
    requires TablesOk(db) && CommitsTo(db.tables, n, v)
    ensures TablesOk(db.(tables := n)) && n.vaults.Keys == db.tables.vaults.Keys
  {
    if n != db.tables {
      var row: Rev :| Commits(db.tables, n, row);
      SameOwners(db.tables, n);
    }
  }

  lemma PurgeTables(t: Tables, v: VaultId, allowed: bool)
    requires Inv(t)
    ensures Inv(Store.Purge(t, v, allowed).0) && Store.Purge(t, v, allowed).0.vaults == t.vaults
    ensures Inv(Store.PurgeDeleted(t, v).0) && Store.PurgeDeleted(t, v).0.vaults == t.vaults
  {
    PurgeInv(t, v, allowed);
    PurgeDeletedInv(t, v);
  }

  lemma PurgeStep(db: Db, op: Op, now: int)
    requires TablesOk(db) && (op.Purge? || op.PurgeDeleted?)
    ensures var n := Do(db, op, now); TablesOk(n) && n == db.(tables := n.tables) && n.tables.vaults == db.tables.vaults
  {
    match op
    case Purge(who, v) => PurgeTables(db.tables, v, MayWrite(db, who, v, now));
    case PurgeDeleted(v) => PurgeTables(db.tables, v, true);
  }

  lemma CreateStep(db: Db, who: Caller, id: VaultId, profile: string, now: int)
    requires TablesOk(db) && id !in db.tables.vaults
    ensures var n := Do(db, Op.Create(who, id, profile), now);
      && TablesOk(n) && n == db.(tables := n.tables)
      && (|| n.tables.vaults == db.tables.vaults
          || n.tables.vaults == db.tables.vaults[id := Vault(who.user, profile, 0, 0)])
  {
    CreateInv(db.tables, id, who.user, profile, Authorized(db, who, now));
    var n := Do(db, Op.Create(who, id, profile), now);
    if n.tables != db.tables { WithOwner(db, n.tables, id, Vault(who.user, profile, 0, 0)); }
  }

  lemma DeleteStep(db: Db, who: Caller, v: VaultId, now: int)
    requires TablesOk(db)
    ensures var n := DeleteVaultTx(db, who, v, now).0;
      && TablesOk(n) && n.accounts == db.accounts
      && (n == db || (n.tables.vaults == db.tables.vaults - {v}
                      && Markers.Ids(n.retired) <= Markers.Ids(db.retired) + {v}))
  {
    Markers.RetireInv(db.retired, v, who.user, now);
    DropVaultInv(db.tables, v);
    Members.DropVaultInv(db.members, Owners(db.tables), v);
    DropOwners(db.tables, DropVault(db.tables, v), v);
  }

  lemma MovedOwners(t: Tables, n: Tables, v: VaultId, w: VaultId, profile: string)
    requires v in t.vaults && w !in t.vaults
    requires n.vaults == (t.vaults - {v})[w := Vault(t.vaults[v].owner, profile, 0, 0)]
    ensures Owners(n) == (Owners(t) - {v})[w := Owners(t)[v]] && n.vaults.Keys == t.vaults.Keys - {v} + {w}
  {
  }

  lemma MigrateTables(t: Tables, members: Members.Table, v: VaultId, w: VaultId, profile: string)
    requires Inv(t) && Members.Inv(members, Owners(t)) && v in t.vaults && w !in t.vaults
    ensures var n := ReplaceVault(t, v, w, profile);
      && Inv(n) && Members.Inv(Members.Migrate(members, v, w), Owners(n))
      && n.vaults.Keys == t.vaults.Keys - {v} + {w}
  {
    var n := ReplaceVault(t, v, w, profile);
    assert Inv(n) && n.vaults == (t.vaults - {v})[w := Vault(t.vaults[v].owner, profile, 0, 0)] by {
      ReplaceVaultInv(t, v, w, profile);
    }
    Members.MigrateInv(members, Owners(t), v, w);
    MovedOwners(t, n, v, w, profile);
  }

  lemma MigrateStep(db: Db, who: Caller, v: VaultId, w: VaultId, profile: string, now: int)
    requires TablesOk(db)
    ensures var n := MigrateTx(db, who, v, w, profile, now).0;
      && TablesOk(n) && n.accounts == db.accounts
      && (n == db || (n.tables.vaults.Keys == db.tables.vaults.Keys - {v} + {w}
                      && Markers.Ids(n.retired) <= Markers.Ids(db.retired) + {v}))
  {
    var n := MigrateTx(db, who, v, w, profile, now).0;
    if n != db {
      Markers.RetireInv(db.retired, v, who.user, now);
      MigrateTables(db.tables, db.members, v, w, profile);
    }
  }

  lemma InviteStep(db: Db, who: Caller, v: VaultId, target: nat, now: int)
    requires TablesOk(db)
    ensures var n := InviteTx(db, who, v, target, now).0; TablesOk(n) && n == db.(members := n.members)
  {
    if v in db.tables.vaults { Members.InviteInv(db.members, Owners(db.tables), v, target, now); }
  }

  lemma RemoveStep(db: Db, who: Caller, v: VaultId, share: nat, now: int)
    requires TablesOk(db)
    ensures var n := RemoveTx(db, who, v, share, now).0; TablesOk(n) && n == db.(members := n.members)
  {
    if v in db.tables.vaults { Members.RemoveInv(db.members, Owners(db.tables), v, who.user, share, now); }
  }

  // ----- rotation -----

  function OutOfAll(moves: seq<Epoch.Move>): Members.Member -> bool {
    (m: Members.Member) => m.vault !in Epoch.Froms(moves)
  }

  lemma {:induction false} DroppedAll(members: Members.Table, moves: seq<Epoch.Move>)
    ensures DropAll(members, moves) == members.(rows := Filter(members.rows, OutOfAll(moves)))
    decreases |moves|
  {
    if moves == [] {
      FilterAll(members.rows, OutOfAll(moves));
    } else {
      var before, x := moves[..|moves| - 1], moves[|moves| - 1];
      assert moves == before + [x];
      DroppedAll(members, before);
      Epoch.MovesSnoc(before, x);
      FilterFilter(members.rows, OutOfAll(before), Members.OutOf(x.from), OutOfAll(moves));
    }
  }

  lemma NoMembers(sequence: nat, owners: map<VaultId, nat>)
    requires sequence <= MAX_JS_SAFE_INTEGER
    ensures Members.Inv(Members.Table([], sequence), owners)
  {
    forall v ensures Members.CountsOk(Members.Table([], sequence), v) {}
  }

  lemma RotateMembers(db: Db, n: Tables, moves: seq<Epoch.Move>)
    requires TablesOk(db) && Epoch.Froms(moves) == db.tables.vaults.Keys
    ensures DropAll(db.members, moves).rows == [] && Members.Inv(DropAll(db.members, moves), Owners(n))
  {
    DroppedAll(db.members, moves);
    forall m | m in db.members.rows ensures !OutOfAll(moves)(m) {
      assert Members.RowOk(db.members, Owners(db.tables), m);
    }
    FilterNone(db.members.rows, OutOfAll(moves));
    NoMembers(db.members.sequence, Owners(n));
  }

  lemma MarkedIds(t: Tables, moves: seq<Epoch.Move>, now: int)
    ensures Markers.Ids(Map(moves, Marking(t, now))) == Epoch.Froms(moves)
  {
    var ms := Map(moves, Marking(t, now));
    forall i | 0 <= i < |moves| ensures ms[i].id == moves[i].from && ms[i] in ms && moves[i] in moves {}
  }

  lemma RotateMarkers(db: Db, moves: seq<Epoch.Move>, owners: seq<nat>, now: int)
    requires Markers.Inv(db.retired) && Complete(db, moves, owners)
    ensures var n := Markers.RetireAll(db.retired, Map(moves, Marking(db.tables, now)), owners);
      n.None? || (Markers.Inv(n.value)
                  && Epoch.Froms(moves) <= Markers.Ids(n.value) <= Markers.Ids(db.retired) + Epoch.Froms(moves))
  {
    var ms := Map(moves, Marking(db.tables, now));
    forall m | m in ms ensures m.owner in owners {
      var i :| 0 <= i < |ms| && ms[i] == m;
      assert moves[i].from in db.tables.vaults;
    }
    Markers.RetireAllInv(db.retired, ms, owners);
    MarkedIds(db.tables, moves, now);
  }

  // A successful rotation: every old id is marked, every vault lives on under a new id
  // with its owner, settings, sizes and history, memberships and sessions are gone.
  ghost predicate RotatedDb(db: Db, n: Db, moves: seq<Epoch.Move>) {
    && Epoch.Rotated(db.tables, n.tables, moves) && n.tables.vaults.Keys == Epoch.Tos(moves)
    && db.tables.vaults.Keys <= Markers.Ids(n.retired) <= Markers.Ids(db.retired) + db.tables.vaults.Keys
    && n.members.rows == [] && n.accounts.sessions == map[] && n.accounts.users == db.accounts.users
  }

  lemma RotateTables(db: Db, n: Db, moves: seq<Epoch.Move>, owners: seq<nat>)
    requires Inv(db.tables) && Complete(db, moves, owners) && n.tables == Epoch.RenameAll(db.tables, moves)
    ensures Inv(n.tables) && Epoch.Rotated(db.tables, n.tables, moves) && n.tables.vaults.Keys == Epoch.Tos(moves)
  {
    Epoch.RenameAllRotates(db.tables, moves);
    assert db.tables.vaults.Keys - Epoch.Froms(moves) == {};
  }

  lemma RotateStep(db: Db, moves: seq<Epoch.Move>, owners: seq<nat>, now: int)
    requires TablesOk(db) && Complete(db, moves, owners)
    ensures var (n, o) := RotateTx(db, moves, owners, now);
      TablesOk(n) && if o.Done? then RotatedDb(db, n, moves) else n == db
  {
    var (n, o) := RotateTx(db, moves, owners, now);
    if o.Done? {
      RotateTables(db, n, moves, owners);
      RotateMembers(db, n.tables, moves);
      RotateMarkers(db, moves, owners, now);
    }
  }

  // A recovery is carried out exactly when the markers of all vaults fit beside those there
  // are, less what their owners then have too many.
  lemma RotateRoom(db: Db, moves: seq<Epoch.Move>, owners: seq<nat>, now: int)
    requires TablesOk(db) && Complete(db, moves, owners)
    ensures var retiring := Map(moves, Marking(db.tables, now)); var o := RotateTx(db, moves, owners, now).1;
      && (o.Done? ==> o.value == |db.tables.vaults|)
      && (o.Done? <==> |db.retired| - Markers.Surplus(db.retired, retiring, owners) + |db.tables.vaults|
                         <= Markers.MAX_RETIRED)
  {
    var retiring := Map(moves, Marking(db.tables, now));
    Epoch.FromsCount(moves);
    assert |db.tables.vaults| == |db.tables.vaults.Keys| == |moves| == |retiring|;
    Markers.PrunedLength(db.retired, retiring, owners);
  }

  // ----- runs -----

  // What every transaction keeps: the tables' invariants, the ways ids move, and the
  // accounts unless it is an account operation or the rotation.
  ghost predicate Shaped(db: Db, op: Op, now: int) {
    var n := Do(db, op, now);
    TablesOk(n) && IdsMove(db, n, Drawn(op)) && AccountsMove(db.accounts, n.accounts, op, now)
  }

  ghost predicate AccountsMove(a: Sessions.Accounts, n: Sessions.Accounts, op: Op, now: int) {
    n == if op.Account? then Sessions.Do(a, op.op, now)
         else if n == a then a
         else Sessions.Do(a, Sessions.DeleteAll, now)
  }

  lemma CommitShape(db: Db, op: Op, now: int)
    requires TablesOk(db) && IsCommit(op)
    ensures Shaped(db, op, now)
  {
    CommitStep(db, op, now);
    CommitsOk(db, Do(db, op, now).tables, CommitVault(op));
  }

  lemma PurgeShape(db: Db, op: Op, now: int)
    requires TablesOk(db) && (op.Purge? || op.PurgeDeleted?)
    ensures Shaped(db, op, now)
  {
    PurgeStep(db, op, now);
  }

  lemma ShareShape(db: Db, op: Op, now: int)
    requires TablesOk(db) && (op.Invite? || op.Remove? || op.Account?)
    ensures Shaped(db, op, now)
  {
    match op
    case Invite(who, v, target) => InviteStep(db, who, v, target, now);
    case Remove(who, v, share) => RemoveStep(db, who, v, share, now);
    case Account(_) => {}
  }

  lemma CreateShape(db: Db, op: Op, now: int)
    requires TablesOk(db) && op.Create? && op.id !in db.tables.vaults
    ensures Shaped(db, op, now)
  {
    CreateStep(db, op.who, op.id, op.profile, now);
  }

  lemma DeleteShape(db: Db, op: Op, now: int)
    requires TablesOk(db) && op.DeleteVault?
    ensures Shaped(db, op, now)
  {
    DeleteStep(db, op.who, op.vault, now);
  }

  lemma MigrateShape(db: Db, op: Op, now: int)
    requires TablesOk(db) && op.Migrate? && op.id !in db.tables.vaults
    ensures Shaped(db, op, now)
  {
    MigrateStep(db, op.who, op.vault, op.id, op.profile, now);
  }

  lemma RotateIds(db: Db, n: Db, moves: seq<Epoch.Move>)
    requires RotatedDb(db, n, moves) && Epoch.Movable(db.tables, moves)
    ensures IdsMove(db, n, Epoch.Tos(moves)) && n.accounts == db.accounts.(sessions := map[])
  {
    Epoch.TosFresh(db.tables, moves);
  }

  lemma RotateShape(db: Db, op: Op, now: int)
    requires TablesOk(db) && op.Rotate? && Complete(db, op.moves, op.owners)
    ensures Shaped(db, op, now)
  {
    var n := Do(db, op, now);
    RotateResult(db, n, op.moves, op.owners, now);
    if n != db { RotateIds(db, n, op.moves); }
  }

  lemma RotateResult(db: Db, n: Db, moves: seq<Epoch.Move>, owners: seq<nat>, now: int)
    requires TablesOk(db) && Complete(db, moves, owners) && n == RotateTx(db, moves, owners, now).0
    ensures TablesOk(n) && (n == db || RotatedDb(db, n, moves))
  {
    RotateStep(db, moves, owners, now);
  }

  lemma StepShape(db: Db, op: Op, now: int)
    requires TablesOk(db) && Admissible(db, op, now)
    ensures Shaped(db, op, now)
  {
    match op
    case Create(_, id, _) =>
      assert id in Drawn(op);
      CreateShape(db, op, now);
    case DeleteVault(_, _) => DeleteShape(db, op, now);
    case Migrate(_, _, id, _) =>
      assert id in Drawn(op);
      MigrateShape(db, op, now);
    case Rotate(_, _) => RotateShape(db, op, now);
    case Purge(_, _) => PurgeShape(db, op, now);
    case PurgeDeleted(_) => PurgeShape(db, op, now);
    case Invite(_, _, _) => ShareShape(db, op, now);
    case Remove(_, _, _) => ShareShape(db, op, now);
    case Account(_) => ShareShape(db, op, now);
    case _ => CommitShape(db, op, now);
  }

  lemma StepSolid(db: Db, op: Op, now: int)
    requires Sessions.Solid(db.accounts) && Shaped(db, op, now) && (op.Account? ==> Sessions.Lawful(op.op, now))
    ensures Sessions.Solid(Do(db, op, now).accounts)
  {
    Sessions.DoSolid(db.accounts, Sessions.DeleteAll, now);
    if op.Account? { Sessions.DoSolid(db.accounts, op.op, now); }
  }

  // Every transaction keeps the whole database consistent, whatever the clock reads.
  lemma StepConsistent(db: Db, op: Op, now: int)
    requires Consistent(db) && Admissible(db, op, now)
    ensures Consistent(Do(db, op, now)) && IdsMove(db, Do(db, op, now), Drawn(op))
  {
    StepShape(db, op, now);
    StepSolid(db, op, now);
  }

  lemma EnabledAdmissible(s: State, e: Step)
    requires IdsOk(s.db, s.used) && Enabled(s, e)
    ensures Admissible(s.db, e.op, e.now)
  {
  }

  lemma StepSound(s: State, e: Step)
    requires Sound(s) && Enabled(s, e)
    ensures Sound(Next(s, e)) && IdsMove(s.db, Next(s, e).db, Drawn(e.op))
  {
    EnabledAdmissible(s, e);
    StepConsistent(s.db, e.op, e.now);
    StepAccounts(s, e);
    StepTokens(s, e);
  }

  lemma StepAccounts(s: State, e: Step)
    requires TablesOk(s.db) && IdsOk(s.db, s.used) && Enabled(s, e)
    ensures AccountsMove(s.db.accounts, Next(s, e).db.accounts, e.op, e.now)
  {
    EnabledAdmissible(s, e);
    StepShape(s.db, e.op, e.now);
  }

  lemma StepTokens(s: State, e: Step)
    requires s.db.accounts.sessions.Keys <= s.issued
    requires AccountsMove(s.db.accounts, Next(s, e).db.accounts, e.op, e.now)
    ensures Next(s, e).db.accounts.sessions.Keys <= Next(s, e).issued
  {
    if e.op.Account? {
      Sessions.StepKeys(Sessions.State(s.db.accounts, s.clock, s.issued), Sessions.Step(e.op.op, e.now));
    }
  }

  lemma {:induction false} RunSound(s: State, steps: seq<Step>)
    requires Sound(s) && Runs(s, steps)
    ensures Sound(End(s, steps))
    decreases |steps|
  {
    if steps != [] {
      StepSound(s, steps[0]);
      RunSound(Next(s, steps[0]), steps[1..]);
    }
  }

  // From an empty database, any transactions in any order, at any clock values.
  lemma BootSound(steps: seq<Step>)
    requires Runs(Boot, steps)
    ensures Sound(End(Boot, steps))
  {
    NoMembers(0, Owners(Empty));
    forall o ensures Markers.Count([], o) == 0 {}
    Sessions.NobodySolid();
    RunSound(Boot, steps);
  }

  // At any time one counts, and by any clock, no user has more than 64 open sessions.
  lemma BootSessions(steps: seq<Step>, u: nat, at: int)
    requires Runs(Boot, steps)
    ensures |Sessions.OpenOf(End(Boot, steps).db.accounts.sessions, u, at)| <= Sessions.MAX_SESSIONS_PER_USER
  {
    BootSound(steps);
    assert Sessions.CountOk(End(Boot, steps).db.accounts, u);
    Sessions.OpenBound(End(Boot, steps).db.accounts, u, at);
  }

  // Once there is an active administrator, every run leaves one.
  lemma {:induction false} RunAdmin(s: State, steps: seq<Step>)
    requires Sound(s) && Runs(s, steps) && Sessions.Admins(s.db.accounts) != {}
    ensures Sessions.Admins(End(s, steps).db.accounts) != {}
    decreases |steps|
  {
    if steps != [] {
      StepAccounts(s, steps[0]);
      StepAdmin(s.db.accounts, Next(s, steps[0]).db.accounts, steps[0].op, steps[0].now);
      StepSound(s, steps[0]);
      RunAdmin(Next(s, steps[0]), steps[1..]);
    }
  }

  lemma StepAdmin(a: Sessions.Accounts, n: Sessions.Accounts, op: Op, now: int)
    requires AccountsMove(a, n, op, now) && Sessions.Admins(a) != {}
    ensures Sessions.Admins(n) != {}
  {
    Sessions.AdminRemains(a, if op.Account? then op.op else Sessions.DeleteAll, now);
  }

  // ----- while time does not go back -----

  ghost predicate Timely(s: State, steps: seq<Step>)
    decreases |steps|
  {
    steps == [] || (s.clock <= steps[0].now && Timely(Next(s, steps[0]), steps[1..]))
  }

  lemma StepDead(s: State, e: Step, k: Sessions.Token)
    requires Enabled(s, e) && s.clock <= e.now
    requires AccountsMove(s.db.accounts, Next(s, e).db.accounts, e.op, e.now)
    requires Sessions.Dead(Sessions.State(s.db.accounts, s.clock, s.issued), k)
    ensures Sessions.Dead(Sessions.State(Next(s, e).db.accounts, e.now, Next(s, e).issued), k)
  {
    var a := Sessions.State(s.db.accounts, s.clock, s.issued);
    if e.op.Account? {
      Sessions.StepDead(a, Sessions.Step(e.op.op, e.now), k);
    } else if Next(s, e).db.accounts == s.db.accounts {
      Sessions.LaterDead(a, e.now, k);
    } else {
      Sessions.StepDead(a, Sessions.Step(Sessions.DeleteAll, e.now), k);
    }
  }

  lemma {:induction false} RunDead(s: State, steps: seq<Step>, k: Sessions.Token)
    requires Sound(s) && Runs(s, steps) && Timely(s, steps)
    requires Sessions.Dead(Sessions.State(s.db.accounts, s.clock, s.issued), k)
    ensures var n := End(s, steps); Sessions.Dead(Sessions.State(n.db.accounts, n.clock, n.issued), k)
    decreases |steps|
  {
    if steps != [] {
      StepAccounts(s, steps[0]);
      StepDead(s, steps[0], k);
      StepSound(s, steps[0]);
      RunDead(Next(s, steps[0]), steps[1..], k);
    }
  }

  // Nor does a token that stopped authenticating ever authorize a transaction again.
  lemma NeverAuthorizedAgain(s: State, steps: seq<Step>, who: Caller, later: int)
    requires Sound(s) && Runs(s, steps) && Timely(s, steps)
    requires who.token in s.issued && !Sessions.Valid(s.db.accounts, who.token, s.clock)
    requires End(s, steps).clock <= later
    ensures !Authorized(End(s, steps).db, who, later)
  {
    Sessions.InvalidIsDead(Sessions.State(s.db.accounts, s.clock, s.issued), who.token);
    RunDead(s, steps, who.token);
  }

  lemma StepStamps(s: State, e: Step)
    requires s.clock <= e.now && AccountsMove(s.db.accounts, Next(s, e).db.accounts, e.op, e.now)
    requires Sessions.StampsOk(Sessions.State(s.db.accounts, s.clock, s.issued))
    ensures Sessions.StampsOk(Sessions.State(Next(s, e).db.accounts, e.now, Next(s, e).issued))
  {
    var a := Sessions.State(s.db.accounts, s.clock, s.issued);
    if e.op.Account? {
      Sessions.StepStamps(a, Sessions.Step(e.op.op, e.now));
    } else {
      Sessions.StepStamps(a, Sessions.Step(Sessions.DeleteAll, e.now));
    }
  }

  // While time does not go back, no user was updated before being created.
  lemma {:induction false} RunStamps(s: State, steps: seq<Step>)
    requires Sound(s) && Runs(s, steps) && Timely(s, steps)
    requires Sessions.StampsOk(Sessions.State(s.db.accounts, s.clock, s.issued))
    ensures var n := End(s, steps); Sessions.StampsOk(Sessions.State(n.db.accounts, n.clock, n.issued))
    decreases |steps|
  {
    if steps != [] {
      StepAccounts(s, steps[0]);
      StepStamps(s, steps[0]);
      StepSound(s, steps[0]);
      RunStamps(Next(s, steps[0]), steps[1..]);
    }
  }

  // ----- rows and content never change -----

  // Every later row with an old uid is the old row, under whatever vault id it has now,
  // and its bytes are the old bytes.
  ghost predicate Descends(t: Tables, n: Tables, r: Rev) {
    exists p | p in t.revisions :: r == Epoch.Retag(r.vault)(p) && Content(n, r) == Content(t, p)
  }

  ghost predicate Follows(t: Tables, n: Tables) {
    && t.sequence <= n.sequence
    && forall r {:trigger Descends(t, n, r)} | r in n.revisions && r.uid <= t.sequence :: Descends(t, n, r)
  }

  lemma FollowsOn(a: Tables, b: Tables, c: Tables)
    requires Follows(a, b) && Follows(b, c)
    ensures Follows(a, c)
  {
    forall r | r in c.revisions && r.uid <= a.sequence ensures Descends(a, c, r) {
      assert Descends(b, c, r);
      var p :| p in b.revisions && r == Epoch.Retag(r.vault)(p) && Content(c, r) == Content(b, p);
      assert Descends(a, b, p);
      var q :| q in a.revisions && p == Epoch.Retag(p.vault)(q) && Content(b, p) == Content(a, q);
      assert r == Epoch.Retag(r.vault)(q);
    }
  }

  // Rows that stay rows of the same table with the same content.
  lemma SubsetFollows(t: Tables, n: Tables)
    requires t.sequence == n.sequence
    requires forall r | r in n.revisions :: r in t.revisions && Content(n, r) == Content(t, r)
    ensures Follows(t, n)
  {
    forall r | r in n.revisions ensures Descends(t, n, r) { assert r == Epoch.Retag(r.vault)(r); }
  }

  lemma DeleteFollows(t: Tables, keep: Rev -> bool)
    requires Inv(t)
    ensures Follows(t, Delete(t, keep))
  {
    forall r | r in t.revisions ensures RowOk(t, r) {}
    DeleteInv(t, keep);
    SubsetFollows(t, Delete(t, keep));
  }

  lemma RowFollows(t: Tables, n: Tables, row: Rev)
    requires Commits(t, n, row)
    ensures Follows(t, n)
  {
    forall r | r in n.revisions && r.uid <= t.sequence ensures Descends(t, n, r) {
      assert r.uid != row.uid && r in t.revisions;
      assert r == Epoch.Retag(r.vault)(r);
      CommitContent(t, n, row, r);
    }
  }

  lemma CommitFollows(t: Tables, n: Tables, v: VaultId)
    requires CommitsTo(t, n, v)
    ensures Follows(t, n)
  {
    if n == t {
      SubsetFollows(t, t);
    } else {
      var row: Rev :| row.vault == v && Commits(t, n, row);
      RowFollows(t, n, row);
    }
  }

  lemma CommitContent(t: Tables, n: Tables, row: Rev, r: Rev)
    requires n.contents - {row.uid} == t.contents - {row.uid} && r.uid != row.uid
    ensures Content(n, r) == Content(t, r)
  {
    assert r.uid in n.contents <==> r.uid in n.contents - {row.uid};
    assert r.uid in t.contents <==> r.uid in t.contents - {row.uid};
    if r.uid in n.contents {
      assert n.contents[r.uid] == (n.contents - {row.uid})[r.uid];
      assert t.contents[r.uid] == (t.contents - {row.uid})[r.uid];
    }
  }

  lemma CompactFollows(t: Tables, v: VaultId, keep: Rev -> bool)
    requires Inv(t) && v in t.vaults
    ensures Follows(t, Refreshed(Delete(t, keep), v))
  {
    DeleteFollows(t, keep);
    var d := Delete(t, keep);
    FollowsOn(t, d, Refreshed(d, v)) by { SubsetFollows(d, Refreshed(d, v)); }
  }

  lemma DropFollows(t: Tables, v: VaultId)
    requires Inv(t)
    ensures Follows(t, DropVault(t, v))
  {
    var s := t.(vaults := t.vaults - {v});
    forall r | r in s.revisions && r.vault != v ensures RowOk(s, r) { assert RowOk(t, r); }
    DeleteInv(s, Not(InVault(v)));
    SubsetFollows(t, DropVault(t, v));
  }

  lemma RenameFollows(t: Tables, v: VaultId, w: VaultId)
    requires v in t.vaults && v != w
    ensures Follows(t, Epoch.Rename(t, v, w))
  {
    Epoch.RenameDropsNothing(t, v, w);
    var n := Epoch.Rename(t, v, w);
    forall r | r in n.revisions ensures Descends(t, n, r) {
      var i :| 0 <= i < |n.revisions| && n.revisions[i] == r;
      assert r == Epoch.Retag(r.vault)(t.revisions[i]);
    }
  }

  lemma {:induction false} RenameAllFollows(t: Tables, moves: seq<Epoch.Move>)
    requires Epoch.Movable(t, moves)
    ensures Follows(t, Epoch.RenameAll(t, moves))
    decreases |moves|
  {
    if moves == [] {
      SubsetFollows(t, t);
    } else {
      var before, m := moves[..|moves| - 1], moves[|moves| - 1];
      assert moves == before + [m];
      Epoch.MovablePrefix(t, before, m);
      RenameAllFollows(t, before);
      var b := Epoch.RenameAll(t, before);
      if m.from in b.vaults {
        RenameFollows(b, m.from, m.to);
        FollowsOn(t, b, Epoch.RenameAll(t, moves));
      }
    }
  }

  lemma ReplaceFollows(t: Tables, v: VaultId, w: VaultId, profile: string)
    requires Inv(t) && v in t.vaults && w !in t.vaults
    ensures Follows(t, ReplaceVault(t, v, w, profile))
  {
    DropFollows(t, v);
    ReplaceIsCreate(t, v, w, profile);
    var d, n := DropVault(t, v), ReplaceVault(t, v, w, profile);
    FollowsOn(t, d, n) by { SubsetFollows(d, n); }
  }

  lemma StepFollows(db: Db, op: Op, now: int)
    requires Inv(db.tables) && (op.Rotate? ==> Epoch.Movable(db.tables, op.moves))
    ensures Follows(db.tables, Do(db, op, now).tables)
  {
    var t, n := db.tables, Do(db, op, now).tables;
    SubsetFollows(t, t);
    if IsCommit(op) {
      CommitStep(db, op, now);
      CommitFollows(t, n, CommitVault(op));
    } else if n != t {
      match op
      case Create(_, _, _) => SubsetFollows(t, n);
      case Purge(_, v) => CompactFollows(t, v, Compaction.Outside(v, HeadOf(Rows(t, v))));
      case PurgeDeleted(v) => CompactFollows(t, v, Compaction.Outside(v, Compaction.SparedIn(Rows(t, v))));
      case DeleteVault(_, v) => DropFollows(t, v);
      case Migrate(_, v, w, profile) => ReplaceFollows(t, v, w, profile);
      case Rotate(moves, _) => RenameAllFollows(t, moves);
      case _ => {}
    }
  }

  // A uid is never reused, and what was stored under it is never altered, by any run.
  lemma {:induction false} RunFollows(s: State, steps: seq<Step>)
    requires Sound(s) && Runs(s, steps)
    ensures Follows(s.db.tables, End(s, steps).db.tables)
    decreases |steps|
  {
    if steps == [] {
      SubsetFollows(s.db.tables, s.db.tables);
    } else {
      StepSound(s, steps[0]);
      StepFollows(s.db, steps[0].op, steps[0].now);
      RunFollows(Next(s, steps[0]), steps[1..]);
      FollowsOn(s.db.tables, Next(s, steps[0]).db.tables, End(s, steps).db.tables);
    }
  }

  // ----- vault ids do not come back -----

  lemma {:induction false} GoneForGood(s: State, steps: seq<Step>, v: VaultId)
    requires Sound(s) && Runs(s, steps) && v in s.used && v !in s.db.tables.vaults
    ensures v !in End(s, steps).db.tables.vaults
    decreases |steps|
  {
    if steps != [] {
      StepSound(s, steps[0]);
      GoneForGood(Next(s, steps[0]), steps[1..], v);
    }
  }

  lemma RotationLeaves(db: Db, moves: seq<Epoch.Move>, owners: seq<nat>, now: int, v: VaultId)
    requires TablesOk(db) && Complete(db, moves, owners) && v in db.tables.vaults
    ensures RotateTx(db, moves, owners, now).1.Done? ==> v !in RotateTx(db, moves, owners, now).0.tables.vaults
  {
    RotateStep(db, moves, owners, now);
    Epoch.TosFresh(db.tables, moves);
  }

  lemma RotateNext(s: State, e: Step)
    requires e.op.Rotate?
    ensures Next(s, e).db == RotateTx(s.db, e.op.moves, e.op.owners, e.now).0 && s.used <= Next(s, e).used
  {
  }

  // After a recovery no device can name a vault by the id, and so use a cursor, that it
  // remembers from before.
  lemma OldIdsRejected(s: State, e: Step, steps: seq<Step>, v: VaultId)
    requires Sound(s) && Enabled(s, e) && e.op.Rotate? && v in s.db.tables.vaults
    requires RotateTx(s.db, e.op.moves, e.op.owners, e.now).1.Done? && Runs(Next(s, e), steps)
    ensures v !in End(Next(s, e), steps).db.tables.vaults
  {
    RotationLeaves(s.db, e.op.moves, e.op.owners, e.now, v);
    RotateNext(s, e);
    StepSound(s, e);
    GoneForGood(Next(s, e), steps, v);
  }

  // ----- versions move exactly with commits -----

  predicate CommittedTo(db: Db, e: Step, v: VaultId) {
    IsCommit(e.op) && CommitVault(e.op) == v && Do(db, e.op, e.now) != db
  }

  // How one step moves the version of a vault that survives it.
  ghost predicate Moves(t: Tables, n: Tables, v: VaultId, committed: bool) {
    v in t.vaults && v in n.vaults ==>
      if committed then t.vaults[v].version < n.vaults[v].version else t.vaults[v].version == n.vaults[v].version
  }

  lemma CommitMoves(t: Tables, n: Tables, row: Rev, v: VaultId)
    requires Inv(t) && Commits(t, n, row)
    ensures Moves(t, n, v, row.vault == v)
  {
    if v in t.vaults {
      assert VaultOk(t, v) && VaultOk(n, v);
      RowsSnoc(t.revisions, row, v);
      forall r | r in Rows(t, v) ensures r.uid < row.uid { assert RowOk(t, r); }
      MaxSnoc(Rows(t, v), row);
      if Rows(t, v) != [] { var r := MaxUidIn(Rows(t, v)); }
    }
  }

  lemma StepMoves(s: State, e: Step, v: VaultId)
    requires Sound(s) && Enabled(s, e)
    ensures Moves(s.db.tables, Next(s, e).db.tables, v, CommittedTo(s.db, e, v))
  {
    var t, n := s.db.tables, Do(s.db, e.op, e.now).tables;
    if IsCommit(e.op) {
      CommitStep(s.db, e.op, e.now);
      if n != t {
        var row: Rev :| row.vault == CommitVault(e.op) && Commits(t, n, row);
        CommitMoves(t, n, row, v);
      }
    } else {
      QuietMoves(s, e, v);
    }
  }

  lemma MigrateMoves(db: Db, who: Caller, u: VaultId, w: VaultId, profile: string, now: int, v: VaultId)
    requires Inv(db.tables)
    ensures Moves(db.tables, MigrateTx(db, who, u, w, profile, now).0.tables, v, false)
  {
    if MigrateTx(db, who, u, w, profile, now).0 != db { ReplaceVaultInv(db.tables, u, w, profile); }
  }

  lemma QuietMoves(s: State, e: Step, v: VaultId)
    requires Sound(s) && Enabled(s, e) && !IsCommit(e.op)
    ensures Moves(s.db.tables, Do(s.db, e.op, e.now).tables, v, false)
  {
    if e.op.Create? {
      CreateStep(s.db, e.op.who, e.op.id, e.op.profile, e.now);
    } else if e.op.Purge? || e.op.PurgeDeleted? {
      PurgeStep(s.db, e.op, e.now);
    } else if e.op.DeleteVault? {
      DeleteStep(s.db, e.op.who, e.op.vault, e.now);
    } else if e.op.Migrate? {
      MigrateMoves(s.db, e.op.who, e.op.vault, e.op.id, e.op.profile, e.now, v);
    } else if e.op.Rotate? && v in s.db.tables.vaults {
      RotationLeaves(s.db, e.op.moves, e.op.owners, e.now, v);
    }
  }

  ghost predicate NoCommits(s: State, steps: seq<Step>, v: VaultId)
    decreases |steps|
  {
    steps == [] || (!CommittedTo(s.db, steps[0], v) && NoCommits(Next(s, steps[0]), steps[1..], v))
  }

  lemma {:induction false} RunMoves(s: State, steps: seq<Step>, v: VaultId)
    requires Sound(s) && Runs(s, steps) && v in s.db.tables.vaults && v in End(s, steps).db.tables.vaults
    ensures s.db.tables.vaults[v].version <= End(s, steps).db.tables.vaults[v].version
    ensures s.db.tables.vaults[v].version == End(s, steps).db.tables.vaults[v].version <==> NoCommits(s, steps, v)
    decreases |steps|
  {
    if steps != [] {
      var n := Next(s, steps[0]);
      StepSound(s, steps[0]);
      StepMoves(s, steps[0], v);
      assert v in n.db.tables.vaults by { Survives(n, steps[1..], v); }
      RunMoves(n, steps[1..], v);
    }
  }

  lemma Survives(s: State, steps: seq<Step>, v: VaultId)
    requires Sound(s) && Runs(s, steps) && v in s.used && v in End(s, steps).db.tables.vaults
    ensures v in s.db.tables.vaults
  {
    if v !in s.db.tables.vaults { GoneForGood(s, steps, v); }
  }

  // A conditional write passes its version check if and only if nothing at all was
  // committed to the vault since the version it names was read.
  lemma ConditionalExact(s: State, steps: seq<Step>, r: NewRev)
    requires Sound(s) && Runs(s, steps) && r.vault in s.db.tables.vaults
    requires r.expected == Some(s.db.tables.vaults[r.vault].version) && r.vault in End(s, steps).db.tables.vaults
    ensures VersionCheck(End(s, steps).db.tables, r) == if NoCommits(s, steps, r.vault) then None else Some(Conflict)
  {
    RunMoves(s, steps, r.vault);
    VersionBound(s.db.tables, r.vault);
  }

  lemma AcceptedVersion(db: Db, op: Op, now: int)
    requires Inv(db.tables) && (op.PushEmpty? || op.PushFile?) && Do(db, op, now) != db && op.rev.expected.Some?
    ensures op.rev.vault in db.tables.vaults && op.rev.expected == Some(db.tables.vaults[op.rev.vault].version)
  {
  }

  // At most one conditional write per version: once one was accepted, every later one
  // that names the same version is refused, whatever happens in between.
  lemma ConditionalOnce(s: State, e: Step, steps: seq<Step>, r: NewRev, allowed: bool, lim: Limits)
    requires Sound(s) && Enabled(s, e) && (e.op.PushEmpty? || e.op.PushFile?) && Do(s.db, e.op, e.now) != s.db
    requires e.op.rev.expected.Some? && r.vault == e.op.rev.vault && r.expected == e.op.rev.expected
    requires Runs(Next(s, e), steps)
    ensures Admission(End(Next(s, e), steps).db.tables, r, allowed, lim).Some?
  {
    RunCons(s, e, steps, r.vault);
    AcceptedVersion(s.db, e.op, e.now);
    if r.vault in End(Next(s, e), steps).db.tables.vaults { ConditionalExact(s, [e] + steps, r); }
  }

  lemma RunCons(s: State, e: Step, steps: seq<Step>, v: VaultId)
    requires Enabled(s, e) && Runs(Next(s, e), steps)
    ensures Runs(s, [e] + steps) && End(s, [e] + steps) == End(Next(s, e), steps)
    ensures CommittedTo(s.db, e, v) ==> !NoCommits(s, [e] + steps, v)
  {
    assert ([e] + steps)[1..] == steps;
  }

  // ----- shares are never reused or reactivated -----

  lemma SameShares(t: Members.Table)
    ensures Members.Continues(t, t)
  {
    Members.SubsetContinues(t, t);
  }

  lemma InviteContinues(t: Members.Table, owners: map<VaultId, nat>, v: VaultId, user: nat, now: int)
    requires Members.Inv(t, owners) && v in owners
    ensures Members.Continues(t, Members.Invite(t, v, owners[v], user, now).0)
  {
    Members.InviteInv(t, owners, v, user, now);
  }

  lemma RemoveContinues(t: Members.Table, owners: map<VaultId, nat>, v: VaultId, acting: nat, uid: nat, now: int)
    requires Members.Inv(t, owners) && v in owners
    ensures Members.Continues(t, Members.Remove(t, v, owners[v], acting, uid, now).0)
  {
    Members.RemoveInv(t, owners, v, acting, uid, now);
  }

  lemma ShareContinues(db: Db, op: Op, now: int)
    requires TablesOk(db) && (op.Invite? || op.Remove?)
    ensures Members.Continues(db.members, Do(db, op, now).members)
  {
    SameShares(db.members);
    if op.vault in db.tables.vaults {
      if op.Invite? {
        InviteContinues(db.members, Owners(db.tables), op.vault, op.target, now);
      } else {
        RemoveContinues(db.members, Owners(db.tables), op.vault, op.who.user, op.share, now);
      }
    }
  }

  lemma DropContinues(db: Db, op: Op, now: int)
    requires TablesOk(db) && op.DeleteVault?
    ensures Members.Continues(db.members, Do(db, op, now).members)
  {
    SameShares(db.members);
    Members.DropVaultInv(db.members, Owners(db.tables), op.vault);
  }

  lemma MigrateContinues(db: Db, op: Op, now: int)
    requires TablesOk(db) && op.Migrate? && op.id !in db.tables.vaults
    ensures Members.Continues(db.members, Do(db, op, now).members)
  {
    SameShares(db.members);
    if op.vault in db.tables.vaults { Members.MigrateInv(db.members, Owners(db.tables), op.vault, op.id); }
  }

  lemma RotateContinues(db: Db, op: Op, now: int)
    requires op.Rotate?
    ensures Members.Continues(db.members, Do(db, op, now).members)
  {
    SameShares(db.members);
    DroppedAll(db.members, op.moves);
    Members.SubsetContinues(db.members, DropAll(db.members, op.moves));
  }

  lemma StepContinues(db: Db, op: Op, now: int)
    requires TablesOk(db) && (op.Migrate? ==> op.id !in db.tables.vaults)
    ensures Members.Continues(db.members, Do(db, op, now).members)
  {
    match op
    case Invite(_, _, _) => ShareContinues(db, op, now);
    case Remove(_, _, _) => ShareContinues(db, op, now);
    case DeleteVault(_, _) => DropContinues(db, op, now);
    case Migrate(_, _, _, _) => MigrateContinues(db, op, now);
    case Rotate(_, _) => RotateContinues(db, op, now);
    case _ => SameShares(db.members);
  }

  // In every run a share uid keeps its user, and once revoked it stays as it is or goes.
  lemma {:induction false} RunContinues(s: State, steps: seq<Step>)
    requires Sound(s) && Runs(s, steps)
    ensures Members.Continues(s.db.members, End(s, steps).db.members)
    decreases |steps|
  {
    if steps == [] {
      SameShares(s.db.members);
    } else {
      var n := Next(s, steps[0]);
      StepSound(s, steps[0]);
      DrawnFresh(s, steps[0]);
      StepContinues(s.db, steps[0].op, steps[0].now);
      RunContinues(n, steps[1..]);
      Members.ContinuesOn(s.db.members, n.db.members, End(s, steps).db.members);
    }
  }

  lemma DrawnFresh(s: State, e: Step)
    requires IdsOk(s.db, s.used) && Enabled(s, e)
    ensures e.op.Migrate? ==> e.op.id !in s.db.tables.vaults
  {
    if e.op.Migrate? { assert e.op.id in Drawn(e.op); }
  }
}
