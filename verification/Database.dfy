// The whole database and its transactions, each authorized inside itself.
module Database {
  import opened Lists
  import opened Revisions
  import opened Store
  import Members
  import Markers
  import Sessions
  import Epoch

  datatype Db = Db(
    tables: Tables, members: Members.Table, retired: seq<Markers.Marker>, accounts: Sessions.Accounts)

  const Fresh := Db(Empty, Members.Table([], 0), [], Sessions.Accounts(map[], map[]))

  // The caller: the session token presented and the user it was presented for.
  datatype Caller = Caller(token: Sessions.Token, user: nat)

  datatype Op =
    | Account(op: Sessions.Op)
    | Create(who: Caller, id: VaultId, profile: string)
    | PushEmpty(who: Caller, rev: NewRev, limits: Limits)
    | PushFile(who: Caller, rev: NewRev, staged: Blob, limits: Limits)
    | Restore(who: Caller, vault: VaultId, uid: int, device: string, limits: Limits, fits: bool)
    | Purge(who: Caller, vault: VaultId)
    | PurgeDeleted(vault: VaultId)
    | DeleteVault(who: Caller, vault: VaultId)
    | Migrate(who: Caller, vault: VaultId, id: VaultId, profile: string)
    | Invite(who: Caller, vault: VaultId, target: nat)
    | Remove(who: Caller, vault: VaultId, share: nat)
    | Rotate(moves: seq<Epoch.Move>, owners: seq<nat>)

  // ----- authorization -----

  predicate Authorized(db: Db, who: Caller, now: int) {
    Sessions.Valid(db.accounts, who.token, now) && db.accounts.sessions[who.token].user == who.user
  }

  predicate Owns(db: Db, user: nat, v: VaultId) { v in db.tables.vaults && db.tables.vaults[v].owner == user }

  predicate HasAccess(db: Db, user: nat, v: VaultId) {
    Owns(db, user, v) || (v in db.tables.vaults && Members.FindActive(db.members.rows, v, user).Some?)
  }

  predicate MayWrite(db: Db, who: Caller, v: VaultId, now: int) {
    Authorized(db, who, now) && HasAccess(db, who.user, v)
  }

  // ----- transactions on vaults -----

  // Ok(false) when the vault is not the caller's.
  function DeleteVaultTx(db: Db, who: Caller, v: VaultId, now: int): (Db, Outcome<bool>) {
    if !Authorized(db, who, now) then (db, Refused(Unauthorized))
    else if !Owns(db, who.user, v) then (db, Done(false))
    else match Markers.Retire(db.retired, v, who.user, now)
      case None => (db, Refused(MarkerLimit))
      case Some(retired) =>
        (db.(tables := DropVault(db.tables, v), members := Members.DropVault(db.members, v), retired := retired),
         Done(true))
  }

  function MigrateTx(db: Db, who: Caller, v: VaultId, w: VaultId, profile: string, now: int): (Db, Outcome<bool>) {
    if !Authorized(db, who, now) then (db, Refused(Unauthorized))
    else if !Owns(db, who.user, v) then (db, Done(false))
    else if w in db.tables.vaults then (db, Refused(DuplicateId))
    else match Markers.Retire(db.retired, v, who.user, now)
      case None => (db, Refused(MarkerLimit))
      case Some(retired) =>
        (db.(tables := ReplaceVault(db.tables, v, w, profile), members := Members.Migrate(db.members, v, w),
             retired := retired),
         Done(true))
  }

  // The target is the active user an email names.
  function InviteTx(db: Db, who: Caller, v: VaultId, target: nat, now: int): (Db, Outcome<Members.Invited>) {
    if !Authorized(db, who, now) then (db, Refused(Unauthorized))
    else if !Owns(db, who.user, v) then (db, Refused(NotFound))
    else if target !in db.accounts.users || !db.accounts.users[target].active
      then (db, Done(Members.Declined(Members.UserUnavailable)))
    else
      var (members, o) := Members.Invite(db.members, v, who.user, target, now);
      (db.(members := members), Done(o))
  }

  function RemoveTx(db: Db, who: Caller, v: VaultId, share: nat, now: int): (Db, Outcome<Option<nat>>) {
    if !Authorized(db, who, now) then (db, Refused(Unauthorized))
    else if v !in db.tables.vaults then (db, Done(None))
    else
      var (members, o) := Members.Remove(db.members, v, db.tables.vaults[v].owner, who.user, share, now);
      (db.(members := members), Done(o))
  }

  // ----- recovery -----

  function Marking(t: Tables, now: int): Epoch.Move -> Markers.Marker {
    (m: Epoch.Move) => Markers.Marker(m.from, if m.from in t.vaults then t.vaults[m.from].owner else 0, now)
  }

  function DropAll(members: Members.Table, moves: seq<Epoch.Move>): Members.Table {
    if moves == [] then members
    else Members.DropVault(DropAll(members, moves[..|moves| - 1]), moves[|moves| - 1].from)
  }

  // `rotate_recovery_epoch`: mark and rename every vault, drop memberships with the old
  // rows, forget every session.
  function RotateTx(db: Db, moves: seq<Epoch.Move>, owners: seq<nat>, now: int): (Db, Outcome<nat>) {
    match Markers.RetireAll(db.retired, Map(moves, Marking(db.tables, now)), owners)
    case None => (db, Refused(MarkerLimit))
    case Some(retired) =>
      (Db(Epoch.RenameAll(db.tables, moves), DropAll(db.members, moves), retired, db.accounts.(sessions := map[])),
       Done(|moves|))
  }

  // ----- the transition -----

  function OnTables(db: Db, t: Tables): Db { db.(tables := t) }

  function Do(db: Db, op: Op, now: int): Db {
    match op
    case Account(o) => db.(accounts := Sessions.Do(db.accounts, o, now))
    case Create(who, id, profile) =>
      OnTables(db, Store.Create(db.tables, id, who.user, profile, Authorized(db, who, now)).0)
    case PushEmpty(who, r, lim) => OnTables(db, AddEmpty(db.tables, r, MayWrite(db, who, r.vault, now), lim, now).0)
    case PushFile(who, r, staged, lim) =>
      OnTables(db, AddFile(db.tables, r, staged, MayWrite(db, who, r.vault, now), lim, now).0)
    case Restore(who, v, uid, device, lim, fits) =>
      OnTables(db, Store.Restore(db.tables, v, uid, device, who.user, MayWrite(db, who, v, now), lim, fits, now).0)
    case Purge(who, v) => OnTables(db, Store.Purge(db.tables, v, MayWrite(db, who, v, now)).0)
    case PurgeDeleted(v) => OnTables(db, Store.PurgeDeleted(db.tables, v).0)
    case DeleteVault(who, v) => DeleteVaultTx(db, who, v, now).0
    case Migrate(who, v, w, profile) => MigrateTx(db, who, v, w, profile, now).0
    case Invite(who, v, target) => InviteTx(db, who, v, target, now).0
    case Remove(who, v, share) => RemoveTx(db, who, v, share, now).0
    case Rotate(moves, owners) => RotateTx(db, moves, owners, now).0
  }

  // ----- runs -----

  // `used` holds every vault id ever drawn and `issued` every token: both are random and
  // drawn afresh.
  datatype State = State(db: Db, clock: int, used: set<VaultId>, issued: set<Sessions.Token>)

  datatype Step = Step(op: Op, now: int)

  const Boot := State(Fresh, 0, {}, {})

  function Drawn(op: Op): set<VaultId> {
    match op
    case Create(_, id, _) => {id}
    case Migrate(_, _, w, _) => {w}
    case Rotate(moves, _) => Epoch.Tos(moves)
    case _ => {}
  }

  // A rotation names every vault once, with new ids drawn apart, and every owner.
  ghost predicate Complete(db: Db, moves: seq<Epoch.Move>, owners: seq<nat>) {
    && Epoch.Movable(db.tables, moves) && Epoch.Froms(moves) == db.tables.vaults.Keys
    && forall v | v in db.tables.vaults :: db.tables.vaults[v].owner in owners
  }

  // The clock may read anything at all, also less than before.
  ghost predicate Enabled(s: State, e: Step) {
    && Drawn(e.op) !! s.used
    && (e.op.Account? ==> Sessions.Lawful(e.op.op, e.now))
    && (e.op.Account? && e.op.op.Issue? ==> e.op.op.token !in s.issued)
    && (e.op.Rotate? ==> Complete(s.db, e.op.moves, e.op.owners))
    && ((e.op.PushEmpty? || e.op.PushFile?) ==> e.op.rev.user == e.op.who.user)
  }

  function Next(s: State, e: Step): State {
    State(Do(s.db, e.op, e.now), e.now, s.used + Drawn(e.op),
          if e.op.Account? && e.op.op.Issue? then s.issued + {e.op.op.token} else s.issued)
  }

  function End(s: State, steps: seq<Step>): State
    decreases |steps|
  {
    if steps == [] then s else End(Next(s, steps[0]), steps[1..])
  }

  ghost predicate Runs(s: State, steps: seq<Step>)
    decreases |steps|
  {
    steps == [] || (Enabled(s, steps[0]) && Runs(Next(s, steps[0]), steps[1..]))
  }
}
