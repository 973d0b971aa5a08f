// The database connection as it works: statements that change tables in place inside a
// transaction, rolled back when a later check fails. Every transaction is the atomic
// transition on values, keeps the database consistent, and any sequence of them executed
// one after another is a run.
module Connection {
  import opened Lists
  import opened Revisions
  import opened Store
  import opened Database
  import opened DatabaseRun
  import Compaction
  import Epoch
  import Markers
  import Members
  import Sessions
  import Words

  class Sqlite {
    var vaults: map<VaultId, Vault>
    var revisions: seq<Rev>
    var contents: map<nat, Blob>
    var sequence: nat
    var usage: int
    var memberships: seq<Members.Member>
    var shareSequence: nat
    var retired: seq<Markers.Marker>
    var users: map<nat, Sessions.User>
    var sessions: map<Sessions.Token, Sessions.Session>

    function Tables(): Store.Tables
      reads this
    {
      Store.Tables(vaults, revisions, contents, sequence, usage)
    }

    function Shares(): Members.Table
      reads this
    {
      Members.Table(memberships, shareSequence)
    }

    function Accounts(): Sessions.Accounts
      reads this
    {
      Sessions.Accounts(users, sessions)
    }

    function Snapshot(): Db
      reads this
    {
      Db(Tables(), Shares(), retired, Accounts())
    }

    // What the database verifier demands, between transactions.
    ghost predicate Valid()
      reads this
    {
      Consistent(Snapshot())
    }

    constructor ()
      ensures Snapshot() == Fresh && Valid()
    {
      vaults, revisions, contents, sequence, usage := map[], [], map[], 0, 0;
      memberships, shareSequence, retired, users, sessions := [], 0, [], map[], map[];
      new;
      BootSound([]);
    }

    method Rollback(saved: Db)
      modifies this
      ensures Snapshot() == saved
    {
      vaults, revisions, contents := saved.tables.vaults, saved.tables.revisions, saved.tables.contents;
      sequence, usage := saved.tables.sequence, saved.tables.usage;
      memberships, shareSequence := saved.members.rows, saved.members.sequence;
      retired, users, sessions := saved.retired, saved.accounts.users, saved.accounts.sessions;
    }

    // ----- statements -----

    // INSERT INTO revisions, with the counting trigger.
    method Insert(row: Rev)
      modifies this`revisions, this`sequence, this`usage
      ensures revisions == old(revisions) + [row] && sequence == row.uid && usage == old(usage) + row.size
    {
      revisions := revisions + [row];
      sequence := row.uid;
      usage := usage + row.size;
    }

    // DELETE FROM revisions, with the counting trigger and the cascade to the content.
    method DeleteRows(keep: Rev -> bool) returns (count: nat)
      modifies this`revisions, this`contents, this`usage
      ensures Tables() == Delete(old(Tables()), keep) && count == |Filter(old(revisions), Not(keep))|
    {
      var gone := Filter(revisions, Not(keep));
      count := |gone|;
      contents := contents - Uids(gone);
      usage := usage - Bytes(gone);
      revisions := Filter(revisions, keep);
    }

    method Refresh(v: VaultId, version: nat)
      requires v in vaults
      modifies this`vaults
      ensures var size := LiveBytes(VaultRows(revisions, v));
        vaults == old(vaults)[v := old(vaults)[v].(size := size, version := version)]
    {
      var size := LiveBytes(VaultRows(revisions, v));
      vaults := vaults[v := vaults[v].(size := size, version := version)];
    }

    // DELETE and refresh, at the version the vault has.
    method Compact(v: VaultId, keep: Rev -> bool) returns (count: nat)
      requires v in vaults
      modifies this`vaults, this`revisions, this`contents, this`usage
      ensures Tables() == Refreshed(Delete(old(Tables()), keep), v) && count == |Filter(old(revisions), Not(keep))|
    {
      count := DeleteRows(keep);
      Refresh(v, vaults[v].version);
    }

    // DELETE FROM vaults, with its cascades to revisions, content and memberships.
    method DeleteVaultRow(v: VaultId)
      modifies this`vaults, this`revisions, this`contents, this`usage, this`memberships
      ensures Tables() == DropVault(old(Tables()), v)
      ensures memberships == Filter(old(memberships), Members.OutOf(v))
    {
      vaults := vaults - {v};
      var _ := DeleteRows(Not(InVault(v)));
      memberships := Filter(memberships, Members.OutOf(v));
    }

    // ----- writes -----

    // INSERT first and check after: the uid, the content, the notice.
    method InsertChecked(row: Rev, bytes: Option<Blob>, sized: bool, fits: bool) returns (o: Outcome<Rev>)
      requires row.vault in vaults
      modifies this`vaults, this`revisions, this`contents, this`sequence, this`usage
      ensures row.uid > MAX_JS_SAFE_INTEGER ==> o == Refused(SequenceExhausted)
      ensures row.uid <= MAX_JS_SAFE_INTEGER && !sized ==> o == Refused(ContentChanged)
      ensures row.uid <= MAX_JS_SAFE_INTEGER && sized && !fits ==> o == Refused(NoticeTooLarge)
      ensures row.uid <= MAX_JS_SAFE_INTEGER && sized && fits ==> o == Done(row)
      ensures o.Done? ==> Tables() == Commit(old(Tables()), row, bytes)
    {
      Insert(row);
      if row.uid > MAX_JS_SAFE_INTEGER { return Refused(SequenceExhausted); }
      if bytes.Some? { contents := contents[row.uid := bytes.value]; }
      if !sized { return Refused(ContentChanged); }
      if !fits { return Refused(NoticeTooLarge); }
      Refresh(row.vault, row.uid);
      return Done(row);
    }

    // A failed check rolls the insert back.
    method StoreRow(row: Rev, bytes: Option<Blob>, sized: bool, fits: bool) returns (o: Outcome<Rev>)
      requires row.vault in vaults
      modifies this
      ensures row.uid > MAX_JS_SAFE_INTEGER ==> o == Refused(SequenceExhausted)
      ensures row.uid <= MAX_JS_SAFE_INTEGER && !sized ==> o == Refused(ContentChanged)
      ensures row.uid <= MAX_JS_SAFE_INTEGER && sized && !fits ==> o == Refused(NoticeTooLarge)
      ensures row.uid <= MAX_JS_SAFE_INTEGER && sized && fits ==> o == Done(row)
      ensures o.Done? ==> Snapshot() == old(Snapshot()).(tables := Commit(old(Tables()), row, bytes))
      ensures o.Refused? ==> Snapshot() == old(Snapshot())
    {
      var saved := Snapshot();
      o := InsertChecked(row, bytes, sized, fits);
      if o.Refused? { Rollback(saved); }
    }

    // The transaction common to both kinds of push.
    method CommitRevision(who: Caller, r: NewRev, staged: Option<Blob>, lim: Limits, now: int) returns (o: Outcome<Rev>)
      requires r.size >= 0 && r.pieces >= 0
      modifies this
      ensures var why := Admission(old(Tables()), r, MayWrite(old(Snapshot()), who, r.vault, now), lim);
        var row := NewRow(old(Tables()), r, now);
        if why.Some? then
          o == Refused(why.value) && Snapshot() == old(Snapshot())
        else if staged.Some? && |staged.value| != r.size then
          o == Refused(ContentChanged) && Snapshot() == old(Snapshot())
        else
          o == Done(row) && Snapshot() == old(Snapshot()).(tables := Commit(old(Tables()), row, staged))
    {
      if !MayWrite(Snapshot(), who, r.vault, now) { return Refused(Unauthorized); }
      var version := VersionCheck(Tables(), r);
      if version.Some? { return Refused(version.value); }
      var quota := QuotaCheck(Tables(), r.vault, r.size, lim);
      if quota.Some? { return Refused(quota.value); }
      o := StoreRow(NewRow(Tables(), r, now), staged, staged.None? || |staged.value| == r.size, true);
    }

    method AddEmptyRevision(who: Caller, r: NewRev, lim: Limits, now: int) returns (o: Outcome<Rev>)
      modifies this
      ensures Snapshot() == Do(old(Snapshot()), PushEmpty(who, r, lim), now)
      ensures o == AddEmpty(old(Tables()), r, MayWrite(old(Snapshot()), who, r.vault, now), lim, now).1
    {
      if r.size != 0 || r.pieces != 0 { return Refused(Inconsistent); }
      o := CommitRevision(who, r, None, lim, now);
    }

    method AddFileRevision(who: Caller, r: NewRev, staged: Blob, lim: Limits, now: int) returns (o: Outcome<Rev>)
      modifies this
      ensures Snapshot() == Do(old(Snapshot()), PushFile(who, r, staged, lim), now)
      ensures o == AddFile(old(Tables()), r, staged, MayWrite(old(Snapshot()), who, r.vault, now), lim, now).1
    {
      if r.folder || r.deleted || r.size <= 0 || r.pieces != Pieces(r.size) { return Refused(Inconsistent); }
      o := CommitRevision(who, r, Some(staged), lim, now);
    }

    method PurgeVault(who: Caller, v: VaultId, now: int) returns (o: Outcome<()>)
      modifies this
      ensures Snapshot() == Do(old(Snapshot()), Op.Purge(who, v), now)
      ensures o == Store.Purge(old(Tables()), v, MayWrite(old(Snapshot()), who, v, now)).1
    {
      if !MayWrite(Snapshot(), who, v, now) { return Refused(Unauthorized); }
      var _ := Compact(v, Compaction.Outside(v, HeadOf(VaultRows(revisions, v))));
      return Done(());
    }

    method PurgeDeletedHistory(v: VaultId) returns (o: Outcome<nat>)
      modifies this
      ensures Snapshot() == old(Snapshot()).(tables := Store.PurgeDeleted(old(Tables()), v).0)
      ensures o == Store.PurgeDeleted(old(Tables()), v).1
    {
      if v !in vaults { return Refused(NotFound); }
      var count := Compact(v, Compaction.Outside(v, Compaction.SparedIn(VaultRows(revisions, v))));
      return Done(count);
    }

    // The copy of `source` as a new row of the target's path.
    method RestoreRow(target: Rev, source: Rev, device: string, user: nat, lim: Limits, fits: bool, now: int)
      returns (o: Outcome<Option<Rev>>)
      requires target.vault in vaults
      modifies this
      ensures (Tables(), o) == RestoreFrom(old(Tables()), target, source, device, user, lim, fits, now)
      ensures Snapshot() == old(Snapshot()).(tables := Tables())
    {
      var quota := QuotaCheck(Tables(), target.vault, source.size, lim);
      if quota.Some? { return Refused(quota.value); }
      var bytes := if source.size > 0 then Content(Tables(), source) else None;
      var sized := source.size == 0 || (bytes.Some? && |bytes.value| == source.size);
      var stored := StoreRow(RestoredRow(Tables(), target, source, device, user, now), bytes, sized, fits);
      o := if stored.Done? then Done(Some(stored.value)) else Refused(stored.why);
    }

    method RestoreRevision(who: Caller, v: VaultId, uid: int, device: string, lim: Limits, fits: bool, now: int)
      returns (o: Outcome<Option<Rev>>)
      modifies this
      ensures Snapshot() == Do(old(Snapshot()), Op.Restore(who, v, uid, device, lim, fits), now)
      ensures var allowed := MayWrite(old(Snapshot()), who, v, now);
        o == Store.Restore(old(Tables()), v, uid, device, who.user, allowed, lim, fits, now).1
    {
      if !MayWrite(Snapshot(), who, v, now) { return Refused(Unauthorized); }
      var target := Find(VaultRows(revisions, v), uid);
      if target.None? { return Done(None); }
      var source := RestoreSource(Tables(), target.value);
      if source.None? { return Done(None); }
      o := RestoreRow(target.value, source.value, device, who.user, lim, fits, now);
    }

    // ----- vaults -----

    method CreateVault(who: Caller, id: VaultId, profile: string, now: int) returns (o: Outcome<()>)
      modifies this
      ensures Snapshot() == Do(old(Snapshot()), Op.Create(who, id, profile), now)
      ensures o == Store.Create(old(Tables()), id, who.user, profile, Authorized(old(Snapshot()), who, now)).1
    {
      if !Authorized(Snapshot(), who, now) { return Refused(Unauthorized); }
      if |vaults| >= MAX_VAULTS { return Refused(VaultLimit); }
      if id in vaults { return Refused(DuplicateId); }
      vaults := vaults[id := Vault(who.user, profile, 0, 0)];
      return Done(());
    }

    // Prunes before inserting; false is a failure that leaves the pruned table to the
    // caller's rollback.
    method RetireIdentity(v: VaultId, owner: nat, at: int) returns (ok: bool)
      modifies this`retired
      ensures var n := Markers.Retire(old(retired), v, owner, at); ok == n.Some? && (ok ==> retired == n.value)
    {
      retired := Markers.KeepNewest(retired, owner, Markers.MAX_RETIRED_PER_OWNER - 1);
      if |retired| >= Markers.MAX_RETIRED { return false; }
      retired := Markers.Put(retired, Markers.Marker(v, owner, at));
      return true;
    }

    // Retire and DELETE one vault.
    method DropRows(v: VaultId, at: int) returns (ok: bool)
      requires v in vaults
      modifies this`vaults, this`revisions, this`contents, this`usage, this`memberships, this`retired
      ensures ok == Markers.Retire(old(retired), v, old(vaults)[v].owner, at).Some?
      ensures ok ==> Tables() == DropVault(old(Tables()), v)
      ensures ok ==> memberships == Filter(old(memberships), Members.OutOf(v))
      ensures ok ==> retired == Markers.Retire(old(retired), v, old(vaults)[v].owner, at).value
    {
      ok := RetireIdentity(v, vaults[v].owner, at);
      if ok { DeleteVaultRow(v); }
    }

    method DeleteVault(who: Caller, v: VaultId, now: int) returns (o: Outcome<bool>)
      modifies this
      ensures (Snapshot(), o) == DeleteVaultTx(old(Snapshot()), who, v, now)
    {
      var saved := Snapshot();
      if !Authorized(saved, who, now) { return Refused(Unauthorized); }
      if !Owns(saved, who.user, v) { return Done(false); }
      var ok := DropRows(v, now);
      if !ok {
        Rollback(saved);
        return Refused(MarkerLimit);
      }
      return Done(true);
    }

    // INSERT the replacement, UPDATE the active memberships, retire and DELETE the source.
    method ReplaceRows(v: VaultId, w: VaultId, profile: string, at: int) returns (ok: bool)
      requires v in vaults && w !in vaults
      modifies this`vaults, this`revisions, this`contents, this`usage, this`memberships, this`retired
      ensures ok == Markers.Retire(old(retired), v, old(vaults)[v].owner, at).Some?
      ensures ok ==> Tables() == ReplaceVault(old(Tables()), v, w, profile)
      ensures ok ==> memberships == Members.Migrate(old(Shares()), v, w).rows
      ensures ok ==> retired == Markers.Retire(old(retired), v, old(vaults)[v].owner, at).value
    {
      var owner := vaults[v].owner;
      vaults := vaults[w := Vault(owner, profile, 0, 0)];
      memberships := Map(memberships, Members.Moving(v, w));
      ok := RetireIdentity(v, owner, at);
      if ok { DeleteVaultRow(v); }
    }

    method MigrateVault(who: Caller, v: VaultId, w: VaultId, profile: string, now: int) returns (o: Outcome<bool>)
      modifies this
      ensures (Snapshot(), o) == MigrateTx(old(Snapshot()), who, v, w, profile, now)
    {
      var saved := Snapshot();
      if !Authorized(saved, who, now) { return Refused(Unauthorized); }
      if !Owns(saved, who.user, v) { return Done(false); }
      if w in vaults { return Refused(DuplicateId); }
      var ok := ReplaceRows(v, w, profile, now);
      if !ok {
        Rollback(saved);
        return Refused(MarkerLimit);
      }
      return Done(true);
    }

    // ----- sharing -----

    // The statements of an invitation once the caller and the target are accepted: the
    // prune is undone when a later check fails.
    method InviteRow(v: VaultId, owner: nat, target: nat, now: int) returns (o: Members.Invited)
      modifies this`memberships, this`shareSequence
      ensures (Shares(), o) == Members.Invite(old(Shares()), v, owner, target, now)
    {
      var saved := memberships;
      if target == owner { return Members.Declined(Members.UserUnavailable); }
      var share := Members.FindActive(memberships, v, target);
      if share.Some? { return Members.Shared(share.value.id); }
      if |Filter(memberships, Members.ActiveIn(v))| >= Members.MAX_ACTIVE {
        return Members.Declined(Members.CollaboratorLimit);
      }
      memberships := Members.Pruned(Shares(), v);
      if |memberships| >= Members.MAX_MEMBERSHIPS {
        memberships := saved;
        return Members.Declined(Members.Capacity);
      }
      if shareSequence >= MAX_JS_SAFE_INTEGER {
        memberships := saved;
        return Members.Declined(Members.Exhausted);
      }
      shareSequence := shareSequence + 1;
      memberships := memberships + [Members.Member(shareSequence, v, target, owner, now, None)];
      return Members.Shared(shareSequence);
    }

    method InviteCollaborator(who: Caller, v: VaultId, target: nat, now: int) returns (o: Outcome<Members.Invited>)
      modifies this
      ensures (Snapshot(), o) == InviteTx(old(Snapshot()), who, v, target, now)
    {
      if !Authorized(Snapshot(), who, now) { return Refused(Unauthorized); }
      if !Owns(Snapshot(), who.user, v) { return Refused(NotFound); }
      if target !in users || !users[target].active { return Done(Members.Declined(Members.UserUnavailable)); }
      var invited := InviteRow(v, who.user, target, now);
      return Done(invited);
    }

    method RemoveCollaborator(who: Caller, v: VaultId, share: nat, now: int) returns (o: Outcome<Option<nat>>)
      modifies this
      ensures (Snapshot(), o) == RemoveTx(old(Snapshot()), who, v, share, now)
    {
      if !Authorized(Snapshot(), who, now) { return Refused(Unauthorized); }
      if v !in vaults { return Done(None); }
      var row := Members.FindShare(memberships, v, share);
      if row.None? { return Done(None); }
      if who.user != vaults[v].owner && who.user != row.value.user { return Done(None); }
      memberships := Map(memberships, Members.Revoking(v, share, now));
      return Done(Some(row.value.user));
    }

    // ----- accounts -----

    method IssueSession(token: Sessions.Token, user: nat, ttlSecs: int, now: int) returns (ok: bool)
      modifies this
      ensures Snapshot() == Do(old(Snapshot()), Account(Sessions.Issue(token, user, ttlSecs)), now)
      ensures if ok then token in sessions && sessions[token] == Sessions.Session(user, now, now + ttlSecs * 1000, None)
              else Snapshot() == old(Snapshot())
    {
      var saved := Snapshot();
      sessions := Sessions.Unexpired(Accounts(), now);
      if |sessions| >= Sessions.MAX_SESSIONS || user !in users || !users[user].active {
        Rollback(saved);
        return false;
      }
      if |Sessions.OpenOf(sessions, user, now)| >= Sessions.MAX_SESSIONS_PER_USER || token in sessions {
        Rollback(saved);
        return false;
      }
      sessions := sessions[token := Sessions.Session(user, now, now + ttlSecs * 1000, None)];
      return true;
    }

    // Some(renewed) when the token is valid and, for a vault, has access to it.
    method RenewSession(token: Sessions.Token, ttlSecs: int, access: bool, now: int) returns (o: Option<bool>)
      modifies this`sessions
      ensures Snapshot() == Do(old(Snapshot()), Account(Sessions.Renew(token, ttlSecs, access)), now)
      ensures o.Some? <==> Sessions.Valid(old(Accounts()), token, now) && access
      ensures o != Some(true) ==> Snapshot() == old(Snapshot())
    {
      if !Sessions.Valid(Accounts(), token, now) || !access { return None; }
      var ttl := Words.Saturate(ttlSecs * 1000);
      if sessions[token].expires > Words.Saturate(now + Sessions.Half(ttl)) { return Some(false); }
      sessions := sessions[token := sessions[token].(expires := Words.Saturate(now + ttl))];
      return Some(true);
    }

    // UPDATE sessions SET revoked_at for some sessions.
    method RevokeSessions(who: set<Sessions.Token>, now: int)
      modifies this`sessions
      ensures Accounts() == Sessions.Revoke(old(Accounts()), who, now)
    {
      sessions := Sessions.Revoke(Accounts(), who, now).sessions;
    }

    method DisableUser(user: nat, now: int) returns (ok: bool)
      modifies this`users, this`sessions
      ensures Snapshot() == Do(old(Snapshot()), Account(Sessions.Disable(user)), now)
      ensures ok <==> user in old(users) && (old(users)[user].admin ==> |Sessions.Admins(old(Accounts()))| > 1)
    {
      if user !in users || (users[user].admin && |Sessions.Admins(Accounts())| <= 1) { return false; }
      var who := Sessions.UnrevokedOf(Accounts(), user);
      users := users[user := users[user].(active := false, updated := now)];
      RevokeSessions(who, now);
      return true;
    }

    method SetUserRole(user: nat, admin: bool, now: int) returns (ok: bool)
      modifies this`users, this`sessions
      ensures Snapshot() == Do(old(Snapshot()), Account(Sessions.SetRole(user, admin)), now)
      ensures var spare := |Sessions.Admins(old(Accounts()))| > 1;
        ok == (user in old(users) && (!old(users)[user].admin || !old(users)[user].active || admin || spare))
    {
      if user !in users { return false; }
      if users[user].admin && !admin && users[user].active && |Sessions.Admins(Accounts())| <= 1 { return false; }
      var who := Sessions.UnrevokedOf(Accounts(), user);
      users := users[user := users[user].(admin := admin, updated := now)];
      RevokeSessions(who, now);
      return true;
    }

    // ----- recovery -----

    // INSERT ... SELECT, UPDATE revisions, DELETE, for one vault.
    method RenameVault(v: VaultId, w: VaultId)
      requires v in vaults
      modifies this`vaults, this`revisions, this`contents, this`usage, this`memberships
      ensures Tables() == Epoch.Rename(old(Tables()), v, w)
      ensures memberships == Filter(old(memberships), Members.OutOf(v))
    {
      vaults := vaults[w := vaults[v]];
      revisions := Map(revisions, Epoch.Retagged(v, w));
      DeleteVaultRow(v);
    }

    // The per-owner prune; false when an owner retires more than may be kept.
    method PruneOwners(retiring: seq<Markers.Marker>, owners: seq<nat>) returns (ok: bool)
      modifies this`retired
      ensures ok == !Markers.Overfull(retiring, owners)
      ensures ok ==> retired == Markers.PruneEach(old(retired), retiring, owners)
    {
      for i := 0 to |owners|
        invariant !Markers.Overfull(retiring, owners[..i])
        invariant retired == Markers.PruneEach(old(retired), retiring, owners[..i])
      {
        Markers.PruneNext(old(retired), retiring, owners, i);
        if Markers.Count(retiring, owners[i]) > Markers.MAX_RETIRED_PER_OWNER { return false; }
        retired := Markers.KeepNewest(retired, owners[i], Markers.Room(retiring, owners[i]));
      }
      assert owners[..|owners|] == owners;
      return true;
    }

    // The offline recovery: draws the new ids itself.
    method RotateRecoveryEpoch(ids: seq<VaultId>, draws: seq<VaultId>, owners: seq<nat>, now: int)
      returns (drawn: Option<seq<Epoch.Move>>, o: Outcome<nat>)
      requires Valid() && Epoch.Enumerates(ids, Tables()) && forall v | v in vaults :: vaults[v].owner in owners
      modifies this
      ensures Valid()
      ensures drawn.None? ==> Snapshot() == old(Snapshot()) && o.Refused?
      ensures drawn.Some? ==> Admissible(old(Snapshot()), Rotate(drawn.value, owners), now)
      ensures drawn.Some? ==> (Snapshot(), o) == RotateTx(old(Snapshot()), drawn.value, owners, now)
    {
      drawn := Epoch.DrawMoves(ids, vaults.Keys + Markers.Ids(retired), draws);
      if drawn.None? { return None, Refused(DuplicateId); }
      DrawnAdmissible(Snapshot(), ids, drawn.value, owners, now);
      o := RotateDrawn(drawn.value, owners, now);
    }

    method RotateDrawn(moves: seq<Epoch.Move>, owners: seq<nat>, now: int) returns (o: Outcome<nat>)
      requires Valid() && Admissible(Snapshot(), Rotate(moves, owners), now)
      modifies this
      ensures Valid() && (Snapshot(), o) == RotateTx(old(Snapshot()), moves, owners, now)
    {
      RotationConsistent(Snapshot(), moves, owners, now);
      o := RotateAll(moves, owners, now);
    }

    // The loop over the replacements: mark, then rename.
    method MoveVaults(moves: seq<Epoch.Move>, retiring: seq<Markers.Marker>)
      requires Epoch.Movable(Tables(), moves) && |retiring| == |moves|
      modifies this`vaults, this`revisions, this`contents, this`usage, this`memberships, this`retired
      ensures Tables() == Epoch.RenameAll(old(Tables()), moves)
      ensures Shares() == DropAll(old(Shares()), moves)
      ensures retired == Markers.PutAll(old(retired), retiring)
    {
      ghost var start, shares := Tables(), Shares();
      for i := 0 to |moves|
        invariant Tables() == Epoch.RenameAll(start, moves[..i])
        invariant Shares() == DropAll(shares, moves[..i])
        invariant retired == Markers.PutAll(old(retired), retiring[..i])
      {
        assert moves[..i + 1][..i] == moves[..i] && retiring[..i + 1][..i] == retiring[..i];
        Epoch.NextMove(start, moves, i);
        retired := Markers.Put(retired, retiring[i]);
        RenameVault(moves[i].from, moves[i].to);
      }
      assert moves[..|moves|] == moves && retiring[..|moves|] == retiring;
    }

    method RotateAll(moves: seq<Epoch.Move>, owners: seq<nat>, now: int) returns (o: Outcome<nat>)
      requires Epoch.Movable(Tables(), moves)
      modifies this
      ensures (Snapshot(), o) == RotateTx(old(Snapshot()), moves, owners, now)
    {
      var saved := Snapshot();
      var retiring := Map(moves, Marking(saved.tables, now));
      var ok := PruneOwners(retiring, owners);
      if !ok || |retired| + |moves| > Markers.MAX_RETIRED {
        Rollback(saved);
        return Refused(MarkerLimit);
      }
      MoveVaults(moves, retiring);
      sessions := map[];
      return Done(|moves|);
    }

    // ----- transactions -----

    // UPDATE users, and for a credential revoke with it.
    method UpdateUser(user: nat, active: bool, revoke: bool, now: int)
      requires user in users
      modifies this`users, this`sessions
      ensures var t := Sessions.Touched(old(Accounts()), user, old(users)[user].(active := active), now);
        var who := Sessions.UnrevokedOf(old(Accounts()), user);
        Accounts() == if revoke then Sessions.Revoke(t, who, now) else t
    {
      var who := Sessions.UnrevokedOf(Accounts(), user);
      users := users[user := users[user].(active := active, updated := now)];
      if revoke { RevokeSessions(who, now); }
    }

    method ApplyUser(op: Sessions.Op, now: int)
      requires op.CreateUser? || op.Rename? || op.Enable? || op.Disable? || op.SetRole? || op.ChangeCredential?
      modifies this`users, this`sessions
      ensures Accounts() == Sessions.Do(old(Accounts()), op, now)
    {
      match op
      case CreateUser(user, admin) =>
        if user !in users && |users| < Sessions.MAX_USERS {
          users := users[user := Sessions.User(true, admin, now, now)];
        }
      case Rename(user) => if user in users { UpdateUser(user, users[user].active, false, now); }
      case Enable(user) => if user in users { UpdateUser(user, true, false, now); }
      case Disable(user) => var _ := DisableUser(user, now);
      case SetRole(user, admin) => var _ := SetUserRole(user, admin, now);
      case ChangeCredential(user) => if user in users { UpdateUser(user, users[user].active, true, now); }
    }

    method ApplyAccount(op: Sessions.Op, now: int)
      modifies this
      ensures Snapshot() == Do(old(Snapshot()), Account(op), now)
    {
      match op
      case Issue(token, user, ttlSecs) => var _ := IssueSession(token, user, ttlSecs, now);
      case Renew(token, ttlSecs, access) => var _ := RenewSession(token, ttlSecs, access, now);
      case RevokeToken(token) => RevokeSessions({token}, now);
      case RevokeUser(user) => RevokeSessions(Sessions.UnrevokedOf(Accounts(), user), now);
      case RevokeAll => RevokeSessions(Sessions.Unrevoked(Accounts()), now);
      case DeleteAll => sessions := map[];
      case _ => ApplyUser(op, now);
    }

    // The statements of any one operation, with its rollbacks, are its transition.
    method Apply(op: Op, now: int)
      requires op.Rotate? ==> Epoch.Movable(Tables(), op.moves)
      modifies this
      ensures Snapshot() == Do(old(Snapshot()), op, now)
    {
      match op
      case Account(o) => ApplyAccount(o, now);
      case Create(who, id, profile) => var _ := CreateVault(who, id, profile, now);
      case PushEmpty(who, r, lim) => var _ := AddEmptyRevision(who, r, lim, now);
      case PushFile(who, r, staged, lim) => var _ := AddFileRevision(who, r, staged, lim, now);
      case Restore(who, v, uid, device, lim, fits) => var _ := RestoreRevision(who, v, uid, device, lim, fits, now);
      case Purge(who, v) => var _ := PurgeVault(who, v, now);
      case PurgeDeleted(v) => var _ := PurgeDeletedHistory(v);
      case DeleteVault(who, v) => var _ := DeleteVault(who, v, now);
      case Migrate(who, v, w, profile) => var _ := MigrateVault(who, v, w, profile, now);
      case Invite(who, v, target) => var _ := InviteCollaborator(who, v, target, now);
      case Remove(who, v, share) => var _ := RemoveCollaborator(who, v, share, now);
      case Rotate(moves, owners) => var _ := RotateAll(moves, owners, now);
    }

    // Every transaction finds a consistent database and leaves one, at any clock value.
    method Execute(op: Op, now: int)
      requires Valid() && Admissible(Snapshot(), op, now)
      modifies this
      ensures Valid() && Snapshot() == Do(old(Snapshot()), op, now)
    {
      StepConsistent(Snapshot(), op, now);
      Apply(op, now);
    }

    // Operations executed one after another are a run of the database.
    method ExecuteAll(steps: seq<Step>, ghost s: State)
      requires Sound(s) && Snapshot() == s.db && Runs(s, steps)
      modifies this
      ensures Valid() && Snapshot() == End(s, steps).db && Sound(End(s, steps))
    {
      ghost var at := s;
      for i := 0 to |steps|
        invariant Sound(at) && Snapshot() == at.db && Runs(at, steps[i..]) && End(at, steps[i..]) == End(s, steps)
      {
        Unfold(at, steps, i);
        EnabledAdmissible(at, steps[i]);
        StepSound(at, steps[i]);
        Execute(steps[i].op, steps[i].now);
        at := Next(at, steps[i]);
      }
    }
  }

  lemma RotationConsistent(db: Db, moves: seq<Epoch.Move>, owners: seq<nat>, now: int)
    requires Consistent(db) && Admissible(db, Rotate(moves, owners), now)
    ensures Consistent(RotateTx(db, moves, owners, now).0)
  {
    StepConsistent(db, Rotate(moves, owners), now);
    RotateDoes(db, moves, owners, now);
  }

  lemma RotateDoes(db: Db, moves: seq<Epoch.Move>, owners: seq<nat>, now: int)
    ensures Do(db, Rotate(moves, owners), now) == RotateTx(db, moves, owners, now).0
  {
  }

  lemma DrawnAdmissible(db: Db, ids: seq<VaultId>, moves: seq<Epoch.Move>, owners: seq<nat>, now: int)
    requires Epoch.Enumerates(ids, db.tables) && |moves| == |ids|
    requires Epoch.Tos(moves) !! db.tables.vaults.Keys && Epoch.Tos(moves) !! Markers.Ids(db.retired)
    requires forall i | 0 <= i < |ids| :: moves[i].from == ids[i]
    requires forall i, j | 0 <= i < j < |ids| :: moves[i].to != moves[j].to
    requires forall v | v in db.tables.vaults :: db.tables.vaults[v].owner in owners
    ensures Admissible(db, Rotate(moves, owners), now)
  {
    Epoch.DrawnMovable(db.tables, ids, moves);
  }

  lemma Unfold(s: State, steps: seq<Step>, i: nat)
    requires i < |steps| && Runs(s, steps[i..])
    ensures Enabled(s, steps[i]) && Runs(Next(s, steps[i]), steps[i + 1..])
    ensures End(s, steps[i..]) == End(Next(s, steps[i]), steps[i + 1..])
  {
    assert steps[i..][1..] == steps[i + 1..];
  }
}
