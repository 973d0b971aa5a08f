// A run of invitations and removals that fills a vault's membership rows to the bound,
// and so past what the database verifier accepts.
module MembersRun {
  import opened Lists
  import opened Revisions
  import opened Members

  datatype Action = Inviting(user: nat) | Removing(uid: nat)

  const OWNER: nat := 0

  // Actions of the owner of vault `v`, all at time 0.
  function Do(t: Table, v: VaultId, a: Action): Table {
    match a
    case Inviting(user) => Invite(t, v, OWNER, user, 0).0
    case Removing(uid) => Remove(t, v, OWNER, OWNER, uid, 0).0
  }

  function DoAll(t: Table, v: VaultId, actions: seq<Action>): Table {
    if actions == [] then t else Do(DoAll(t, v, actions[..|actions| - 1]), v, actions[|actions| - 1])
  }

  // Nobody but the first twenty users is invited.
  ghost predicate Modest(actions: seq<Action>) {
    forall a | a in actions :: a.Inviting? ==> a.user <= MAX_ACTIVE
  }

  lemma DoSnoc(t: Table, v: VaultId, actions: seq<Action>, a: Action)
    ensures DoAll(t, v, actions + [a]) == Do(DoAll(t, v, actions), v, a)
  {
    assert (actions + [a])[..|actions|] == actions;
  }

  ghost predicate Good(t: Table, v: VaultId) {
    Inv(t, map[v := OWNER]) && |t.rows| <= t.sequence <= 200
  }

  // Only users up to `n` are active.
  ghost predicate UsersUpto(t: Table, v: VaultId, n: nat) {
    forall m | m in t.rows :: m.vault == v && m.revoked.None? ==> m.user <= n
  }

  lemma InviteOne(t: Table, v: VaultId, n: nat)
    requires Good(t, v) && t.sequence < 200 && UsersUpto(t, v, n) && Active(t, v) < MAX_ACTIVE
    ensures var d := Do(t, v, Inviting(n + 1));
      && Good(d, v) && UsersUpto(d, v, n + 1) && d.sequence == t.sequence + 1
      && Active(d, v) == Active(t, v) + 1 && Revoked(d, v) == Revoked(t, v) - Excess(t, v)
      && (exists m | m in d.rows :: m.id == d.sequence && m.vault == v && m.revoked.None?)
  {
    InviteInserts(t, v, n);
    InsertedInv(t, map[v := OWNER], v, n + 1, 0);
    InsertedCounts(t, v, n);
    InsertedUpto(t, v, n);
  }

  lemma InviteInserts(t: Table, v: VaultId, n: nat)
    requires Good(t, v) && t.sequence < 200 && UsersUpto(t, v, n) && Active(t, v) < MAX_ACTIVE
    ensures Inserts(t, v, OWNER, n + 1) && Do(t, v, Inviting(n + 1)) == Inserted(t, v, OWNER, n + 1, 0)
    ensures |Pruned(t, v)| <= |t.rows|
  {
    PrunedCounts(t, v, v);
  }

  lemma InsertedUpto(t: Table, v: VaultId, n: nat)
    requires IdsRise(t.rows) && UsersUpto(t, v, n)
    ensures UsersUpto(Inserted(t, v, OWNER, n + 1, 0), v, n + 1)
  {
    PrunedCounts(t, v, v);
  }

  lemma InsertedCounts(t: Table, v: VaultId, n: nat)
    requires IdsRise(t.rows) && CountsOk(t, v) && Active(t, v) < MAX_ACTIVE
    ensures var d := Inserted(t, v, OWNER, n + 1, 0);
      && Active(d, v) == Active(t, v) + 1 && Revoked(d, v) == Revoked(t, v) - Excess(t, v)
      && (exists m | m in d.rows :: m.id == d.sequence && m.vault == v && m.revoked.None?)
  {
    var m := Member(t.sequence + 1, v, n + 1, OWNER, 0, None);
    InvitedCounts(t, m, v);
    assert m in Inserted(t, v, OWNER, n + 1, 0).rows;
  }

  lemma RemoveOne(t: Table, v: VaultId, uid: nat, n: nat)
    requires Good(t, v) && UsersUpto(t, v, n)
    requires exists m | m in t.rows :: m.id == uid && m.vault == v && m.revoked.None?
    ensures var d := Do(t, v, Removing(uid));
      && Good(d, v) && UsersUpto(d, v, n) && d.sequence == t.sequence
      && Active(d, v) == Active(t, v) - 1 && Revoked(d, v) == Revoked(t, v) + 1
  {
    assert FindShare(t.rows, v, uid).Some?;
    RemoveInv(t, map[v := OWNER], v, OWNER, uid, 0);
    RevokedUpto(t, v, uid, n);
  }

  lemma RevokedUpto(t: Table, v: VaultId, uid: nat, n: nat)
    requires UsersUpto(t, v, n)
    ensures UsersUpto(t.(rows := Map(t.rows, Revoking(v, uid, 0))), v, n)
  {
    forall x | x in Map(t.rows, Revoking(v, uid, 0)) && x.vault == v && x.revoked.None? ensures x.user <= n {
      var p := RevokedFrom(t.rows, v, uid, 0, x);
    }
  }

  // Actions that lead from the empty table to `t`.
  ghost predicate Leads(v: VaultId, actions: seq<Action>, t: Table) {
    Modest(actions) && t == DoAll(Table([], 0), v, actions)
  }

  // A table with so many active and revoked rows, no user above `n` active.
  ghost predicate At(t: Table, v: VaultId, active: nat, revoked: nat, n: nat) {
    Good(t, v) && Active(t, v) == active && Revoked(t, v) == revoked && UsersUpto(t, v, n)
  }

  lemma ThenInvite(v: VaultId, actions: seq<Action>, t: Table, n: nat) returns (more: seq<Action>, d: Table)
    requires Leads(v, actions, t) && n < MAX_ACTIVE
    requires Good(t, v) && t.sequence < 200 && UsersUpto(t, v, n) && Active(t, v) < MAX_ACTIVE
    ensures Leads(v, more, d) && At(d, v, Active(t, v) + 1, Revoked(t, v) - Excess(t, v), n + 1)
    ensures d.sequence == t.sequence + 1
    ensures exists m | m in d.rows :: m.id == d.sequence && m.vault == v && m.revoked.None?
  {
    InviteOne(t, v, n);
    DoSnoc(Table([], 0), v, actions, Inviting(n + 1));
    more, d := actions + [Inviting(n + 1)], Do(t, v, Inviting(n + 1));
  }

  lemma ThenRemove(v: VaultId, actions: seq<Action>, t: Table, uid: nat, n: nat) returns (more: seq<Action>, d: Table)
    requires Leads(v, actions, t) && Good(t, v) && UsersUpto(t, v, n) && Active(t, v) > 0
    requires exists m | m in t.rows :: m.id == uid && m.vault == v && m.revoked.None?
    ensures Leads(v, more, d) && At(d, v, Active(t, v) - 1, Revoked(t, v) + 1, n) && d.sequence == t.sequence
  {
    RemoveOne(t, v, uid, n);
    DoSnoc(Table([], 0), v, actions, Removing(uid));
    more, d := actions + [Removing(uid)], Do(t, v, Removing(uid));
  }

  // Inviting and removing one collaborator k times leaves k revoked rows, up to 64.
  lemma {:induction false} Cycle(v: VaultId, k: nat) returns (actions: seq<Action>, t: Table)
    requires k <= MAX_REVOKED
    ensures Leads(v, actions, t) && At(t, v, 0, k, 1) && t.sequence == k
  {
    if k == 0 {
      actions, t := [], Table([], 0);
      EmptyGood(v);
    } else {
      actions, t := Cycle(v, k - 1);
      NoneActive(t, v);
      actions, t := ThenInvite(v, actions, t, 0);
      actions, t := ThenRemove(v, actions, t, k, 1);
    }
  }

  lemma EmptyGood(v: VaultId)
    ensures Good(Table([], 0), v) && Active(Table([], 0), v) == 0 && Revoked(Table([], 0), v) == 0
  {
    forall w ensures CountsOk(Table([], 0), w) {}
  }

  lemma NoneActive(t: Table, v: VaultId)
    requires Active(t, v) == 0
    ensures UsersUpto(t, v, 0)
  {
    assert Filter(t.rows, ActiveIn(v)) == [];
    forall m | m in t.rows ensures !ActiveIn(v)(m) { assert m !in Filter(t.rows, ActiveIn(v)); }
  }

  // Then inviting j collaborators, up to 20, prunes the revoked rows to 63 once.
  lemma {:induction false} Fill(v: VaultId, j: nat) returns (actions: seq<Action>, t: Table)
    requires 1 <= j <= MAX_ACTIVE
    ensures Leads(v, actions, t) && At(t, v, j, 63, j) && t.sequence == 64 + j
  {
    if j == 1 {
      actions, t := Cycle(v, MAX_REVOKED);
      NoneActive(t, v);
    } else {
      actions, t := Fill(v, j - 1);
    }
    actions, t := ThenInvite(v, actions, t, j - 1);
  }

  // Removing them one by one turns every active row into a revoked one.
  lemma {:induction false} Empties(v: VaultId, i: nat) returns (actions: seq<Action>, t: Table)
    requires i <= MAX_ACTIVE
    ensures Leads(v, actions, t) && At(t, v, MAX_ACTIVE - i, 63 + i, MAX_ACTIVE)
  {
    if i == 0 {
      actions, t := Fill(v, MAX_ACTIVE);
    } else {
      actions, t := Empties(v, i - 1);
      var m := Filter(t.rows, ActiveIn(v))[0];
      assert m in Filter(t.rows, ActiveIn(v));
      actions, t := ThenRemove(v, actions, t, m.id, MAX_ACTIVE);
    }
  }
}
