// Vault memberships: invitations with capped active and revoked rows, revocation, and
// what migration carries over.
module Members {
  import opened Lists
  import opened Revisions
  import opened Pruning

  const MAX_ACTIVE: nat := 20
  const MAX_REVOKED: nat := 64
  const MAX_MEMBERSHIPS: nat := 8192

  datatype Member = Member(id: nat, vault: VaultId, user: nat, invitedBy: nat, created: int, revoked: Option<int>)

  // The `memberships` table in key order and its AUTOINCREMENT mark.
  datatype Table = Table(rows: seq<Member>, sequence: nat)

  datatype Refusal = UserUnavailable | CollaboratorLimit | Capacity | Exhausted

  datatype Invited = Shared(uid: nat) | Declined(why: Refusal)

  function ActiveIn(v: VaultId): Member -> bool { (m: Member) => m.vault == v && m.revoked.None? }
  function RevokedIn(v: VaultId): Member -> bool { (m: Member) => m.vault == v && m.revoked.Some? }
  function In(v: VaultId): Member -> bool { (m: Member) => m.vault == v }
  function OutOf(v: VaultId): Member -> bool { (m: Member) => m.vault != v }

  function Active(t: Table, v: VaultId): nat { |Filter(t.rows, ActiveIn(v))| }
  function Revoked(t: Table, v: VaultId): nat { |Filter(t.rows, RevokedIn(v))| }

  function FindActive(rows: seq<Member>, v: VaultId, user: nat): (o: Option<Member>)
    ensures o.Some? ==> o.value in rows && o.value.vault == v && o.value.user == user && o.value.revoked.None?
    ensures o.None? ==> forall m | m in rows :: m.vault == v && m.user == user ==> m.revoked.Some?
  {
    if rows == [] then None
    else
      var m := rows[|rows| - 1];
      assert rows == rows[..|rows| - 1] + [m];
      if m.vault == v && m.user == user && m.revoked.None? then Some(m) else FindActive(rows[..|rows| - 1], v, user)
  }

  // ORDER BY revoked_at, id
  function ByRevocation(): (Member, Member) -> bool {
    (a: Member, b: Member) =>
      && a.revoked.Some? && b.revoked.Some?
      && (a.revoked.value < b.revoked.value || (a.revoked.value == b.revoked.value && a.id <= b.id))
  }

  // ----- operations -----

  function Excess(t: Table, v: VaultId): nat {
    if Revoked(t, v) < MAX_REVOKED then 0 else Revoked(t, v) - MAX_REVOKED + 1
  }

  // DELETE the oldest revoked rows of the vault until 63 are left.
  function Pruned(t: Table, v: VaultId): seq<Member> { Drop(t.rows, RevokedIn(v), ByRevocation(), Excess(t, v)) }

  function Inserted(t: Table, v: VaultId, owner: nat, user: nat, now: int): Table {
    Table(Pruned(t, v) + [Member(t.sequence + 1, v, user, owner, now, None)], t.sequence + 1)
  }

  // `invite_collaborator_for_session` once the owner's session and the target are found.
  function Invite(t: Table, v: VaultId, owner: nat, user: nat, now: int): (Table, Invited) {
    if user == owner then (t, Declined(UserUnavailable))
    else if FindActive(t.rows, v, user).Some? then (t, Shared(FindActive(t.rows, v, user).value.id))
    else if Active(t, v) >= MAX_ACTIVE then (t, Declined(CollaboratorLimit))
    else if |Pruned(t, v)| >= MAX_MEMBERSHIPS then (t, Declined(Capacity))
    else if t.sequence >= MAX_JS_SAFE_INTEGER then (t, Declined(Exhausted))
    else (Inserted(t, v, owner, user, now), Shared(t.sequence + 1))
  }

  function Revoking(v: VaultId, uid: nat, now: int): Member -> Member {
    (m: Member) => if m.id == uid && m.vault == v && m.revoked.None? then m.(revoked := Some(now)) else m
  }

  function FindShare(rows: seq<Member>, v: VaultId, uid: nat): (o: Option<Member>)
    ensures o.Some? ==> o.value in rows && o.value.id == uid && o.value.vault == v && o.value.revoked.None?
    ensures o.None? ==> forall m | m in rows :: m.id == uid && m.vault == v ==> m.revoked.Some?
  {
    if rows == [] then None
    else
      var m := rows[|rows| - 1];
      assert rows == rows[..|rows| - 1] + [m];
      if m.id == uid && m.vault == v && m.revoked.None? then Some(m) else FindShare(rows[..|rows| - 1], v, uid)
  }

  // `remove_collaborator_for_session`: by the owner or the collaborator, else nothing.
  function Remove(t: Table, v: VaultId, owner: nat, acting: nat, uid: nat, now: int): (Table, Option<nat>) {
    match FindShare(t.rows, v, uid)
    case None => (t, None)
    case Some(m) =>
      if acting != owner && acting != m.user then (t, None)
      else (t.(rows := Map(t.rows, Revoking(v, uid, now))), Some(m.user))
  }

  // DELETE FROM vaults cascades.
  function DropVault(t: Table, v: VaultId): Table { t.(rows := Filter(t.rows, OutOf(v))) }

  function Moving(v: VaultId, w: VaultId): Member -> Member {
    (m: Member) => if m.vault == v && m.revoked.None? then m.(vault := w) else m
  }

  // UPDATE memberships SET vault_id = w for the active rows of v, then DELETE v.
  function Migrate(t: Table, v: VaultId, w: VaultId): Table {
    DropVault(t.(rows := Map(t.rows, Moving(v, w))), v)
  }

  // ----- invariant -----

  ghost predicate IdsRise(rows: seq<Member>) {
    forall i, j | 0 <= i < j < |rows| :: rows[i].id < rows[j].id
  }

  ghost predicate Unique(rows: seq<Member>) {
    forall a, b | a in rows && b in rows ::
      a.vault == b.vault && a.user == b.user && a.revoked.None? && b.revoked.None? ==> a.id == b.id
  }

  // The row bound that every operation keeps: 63 pruned revoked rows and 20 active ones.
  const MAX_ROWS_PER_VAULT: nat := 83

  ghost predicate RowOk(t: Table, owners: map<VaultId, nat>, m: Member) {
    1 <= m.id <= t.sequence && m.vault in owners && owners[m.vault] != m.user
  }

  ghost predicate Inv(t: Table, owners: map<VaultId, nat>) {
    && IdsRise(t.rows) && Unique(t.rows) && |t.rows| <= MAX_MEMBERSHIPS && t.sequence <= MAX_JS_SAFE_INTEGER
    && (forall m {:trigger RowOk(t, owners, m)} | m in t.rows :: RowOk(t, owners, m))
    && (forall v {:trigger CountsOk(t, v)} :: CountsOk(t, v))
  }

  ghost predicate CountsOk(t: Table, v: VaultId) {
    Active(t, v) <= MAX_ACTIVE && Active(t, v) + Revoked(t, v) <= MAX_ROWS_PER_VAULT
  }

  // ----- filters over ids -----

  lemma SameId(rows: seq<Member>, a: Member, b: Member)
    requires IdsRise(rows)
    ensures a in rows && b in rows && a.id == b.id ==> a == b
  {
    if a in rows && b in rows && a.id == b.id {
      var i, j :| 0 <= i < |rows| && 0 <= j < |rows| && rows[i] == a && rows[j] == b;
      assert i == j;
    }
  }

  lemma {:induction false} FilterRises(rows: seq<Member>, keep: Member -> bool)
    requires IdsRise(rows)
    ensures IdsRise(Filter(rows, keep))
  {
    if rows != [] {
      var rest, x := rows[..|rows| - 1], rows[|rows| - 1];
      FilterRises(rest, keep);
      var f := Filter(rest, keep);
      forall i | 0 <= i < |f| ensures f[i].id < x.id { assert f[i] in f && f[i] in rest; }
    }
  }

  lemma {:induction false} RisingDistinct(rows: seq<Member>)
    requires IdsRise(rows)
    ensures Distinct(rows)
  {
    if rows != [] { RisingDistinct(rows[..|rows| - 1]); }
  }

  lemma {:induction false} DropRises(rows: seq<Member>, v: VaultId, n: nat)
    requires IdsRise(rows)
    ensures IdsRise(Drop(rows, RevokedIn(v), ByRevocation(), n))
    decreases n
  {
    var o := First(rows, RevokedIn(v), ByRevocation());
    if n > 0 && o.Some? {
      FilterRises(rows, Except(o.value));
      DropRises(Filter(rows, Except(o.value)), v, n - 1);
    }
  }

  // Pruning removes only revoked rows of the vault, and only ones revoked before every
  // revoked row it keeps.
  lemma PrunedOldest(t: Table, v: VaultId, a: Member, b: Member)
    ensures a in Pruned(t, v) ==> a in t.rows
    ensures a in t.rows && a !in Pruned(t, v) ==> RevokedIn(v)(a)
    ensures a in t.rows && a !in Pruned(t, v) && b in Pruned(t, v) && RevokedIn(v)(b) ==> ByRevocation()(a, b)
  {
    assert Ordering(RevokedIn(v), ByRevocation());
    DropOrder(t.rows, RevokedIn(v), ByRevocation(), Excess(t, v), a, b);
  }

  // ----- what every operation keeps -----

  // Later tables hold the old share uids only for the same user, and a revoked row only
  // as it was: uids are never reused or reactivated.
  ghost predicate Continues(t: Table, n: Table) {
    && t.sequence <= n.sequence
    && forall m | m in n.rows && m.id <= t.sequence :: Continued(t.rows, m)
  }

  ghost predicate Continued(rows: seq<Member>, m: Member) {
    exists p | p in rows :: p.id == m.id && p.user == m.user && (p.revoked.Some? ==> m == p)
  }

  lemma ContinuesOn(a: Table, b: Table, c: Table)
    requires Continues(a, b) && Continues(b, c)
    ensures Continues(a, c)
  {
    forall m | m in c.rows && m.id <= a.sequence ensures Continued(a.rows, m) {
      assert Continued(b.rows, m);
      var p :| p in b.rows && p.id == m.id && p.user == m.user && (p.revoked.Some? ==> m == p);
      assert Continued(a.rows, p);
    }
  }

  lemma SubsetContinues(t: Table, n: Table)
    requires n.sequence == t.sequence && forall m | m in n.rows :: m in t.rows
    ensures Continues(t, n)
  {
    forall m | m in n.rows ensures Continued(t.rows, m) { assert m in t.rows; }
  }

  lemma PrunedCounts(t: Table, v: VaultId, w: VaultId)
    requires IdsRise(t.rows)
    ensures var kept := Pruned(t, v);
      && IdsRise(kept) && |kept| == |t.rows| - Excess(t, v) && (forall m | m in kept :: m in t.rows)
      && |Filter(kept, ActiveIn(w))| == Active(t, w)
      && |Filter(kept, RevokedIn(w))| == Revoked(t, w) - (if w == v then Excess(t, v) else 0)
  {
    var n, sel, leq := Excess(t, v), RevokedIn(v), ByRevocation();
    RisingDistinct(t.rows);
    DropRises(t.rows, v, n);
    DropCounts(t.rows, sel, leq, n);
    DropLength(t.rows, sel, leq, n);
    DropSpares(t.rows, sel, leq, n, ActiveIn(w));
    if w != v { DropSpares(t.rows, sel, leq, n, RevokedIn(w)); }
    forall m | m in Pruned(t, v) ensures m in t.rows { PrunedOldest(t, v, m, m); }
  }

  ghost predicate Inserts(t: Table, v: VaultId, owner: nat, user: nat) {
    && user != owner && FindActive(t.rows, v, user).None? && Active(t, v) < MAX_ACTIVE
    && |Pruned(t, v)| < MAX_MEMBERSHIPS && t.sequence < MAX_JS_SAFE_INTEGER
  }

  lemma InsertedInv(t: Table, owners: map<VaultId, nat>, v: VaultId, user: nat, now: int)
    requires Inv(t, owners) && v in owners && Inserts(t, v, owners[v], user)
    ensures Inv(Inserted(t, v, owners[v], user, now), owners) && Continues(t, Inserted(t, v, owners[v], user, now))
  {
    var n, m := Inserted(t, v, owners[v], user, now), Member(t.sequence + 1, v, user, owners[v], now, None);
    PrunedCounts(t, v, v);
    InvitedRows(t, owners, Pruned(t, v), m);
    forall w ensures CountsOk(n, w) {
      assert CountsOk(t, w);
      InvitedCounts(t, m, w);
    }
  }

  // The share uid names an active row of the invited user, the old one or the one added now;
  // no other active row and no row of another vault has changed.
  ghost predicate Joined(t: Table, n: Table, v: VaultId, owner: nat, user: nat, now: int, uid: nat) {
    && (exists m | m in n.rows :: m.id == uid && m.vault == v && m.user == user && m.revoked.None?)
    && (forall m | m in t.rows && (m.vault != v || m.revoked.None?) :: m in n.rows)
    && (forall m | m in n.rows && m !in t.rows :: m == Member(uid, v, user, owner, now, None))
  }

  ghost predicate IsMember(rows: seq<Member>, v: VaultId, user: nat) {
    exists m | m in rows :: m.vault == v && m.user == user && m.revoked.None?
  }

  // Room for one more: in the vault, in the table once pruned, and in the uids.
  ghost predicate Room(t: Table, v: VaultId) {
    Active(t, v) < MAX_ACTIVE && |t.rows| - Excess(t, v) < MAX_MEMBERSHIPS && t.sequence < MAX_JS_SAFE_INTEGER
  }

  lemma InsertedJoins(t: Table, v: VaultId, owner: nat, user: nat, now: int)
    ensures Joined(t, Inserted(t, v, owner, user, now), v, owner, user, now, t.sequence + 1)
  {
    var n, x := Inserted(t, v, owner, user, now), Member(t.sequence + 1, v, user, owner, now, None);
    forall m | m in t.rows && (m.vault != v || m.revoked.None?) ensures m in n.rows { PrunedOldest(t, v, m, m); }
    forall m | m in n.rows && m !in t.rows ensures m == x { PrunedOldest(t, v, m, m); }
    assert x in n.rows;
  }

  // An invitation ends with the invited user a member exactly when that is not the owner
  // and the user is a member already or there is room for another.
  lemma InviteExact(t: Table, v: VaultId, owner: nat, user: nat, now: int)
    requires IdsRise(t.rows)
    ensures var (n, o) := Invite(t, v, owner, user, now);
      && (o.Shared? <==> user != owner && (IsMember(t.rows, v, user) || Room(t, v)))
      && (if o.Shared? then Joined(t, n, v, owner, user, now, o.uid) else n == t)
  {
    var (n, o) := Invite(t, v, owner, user, now);
    assert |Pruned(t, v)| == |t.rows| - Excess(t, v) by { PrunedCounts(t, v, v); }
    if n != t { InsertedJoins(t, v, owner, user, now); }
  }

  // An invitation that adds a row leaves fewer than 64 revoked rows of the vault.
  lemma InviteInv(t: Table, owners: map<VaultId, nat>, v: VaultId, user: nat, now: int)
    requires Inv(t, owners) && v in owners
    ensures var (n, o) := Invite(t, v, owners[v], user, now);
      && Inv(n, owners) && Continues(t, n)
      && (n.sequence != t.sequence ==> Revoked(n, v) < MAX_REVOKED)
  {
    if Inserts(t, v, owners[v], user) {
      InsertedInv(t, owners, v, user, now);
      assert CountsOk(t, v);
      InvitedCounts(t, Member(t.sequence + 1, v, user, owners[v], now, None), v);
    } else {
      SubsetContinues(t, t);
    }
  }

  lemma InvitedCounts(t: Table, m: Member, w: VaultId)
    requires IdsRise(t.rows) && CountsOk(t, w) && m.revoked.None? && Active(t, m.vault) < MAX_ACTIVE
    ensures var n := Table(Pruned(t, m.vault) + [m], m.id);
      && CountsOk(n, w)
      && (w == m.vault ==> Active(n, w) == Active(t, w) + 1)
      && (w == m.vault ==> Revoked(n, w) == Revoked(t, w) - Excess(t, w) < MAX_REVOKED)
  {
    PrunedCounts(t, m.vault, w);
    FilterSnoc(Pruned(t, m.vault), m, ActiveIn(w));
    FilterSnoc(Pruned(t, m.vault), m, RevokedIn(w));
  }

  lemma InvitedRows(t: Table, owners: map<VaultId, nat>, kept: seq<Member>, m: Member)
    requires Inv(t, owners) && IdsRise(kept) && (forall x | x in kept :: x in t.rows)
    requires m.id == t.sequence + 1 && m.vault in owners && owners[m.vault] != m.user && m.revoked.None?
    requires forall x | x in t.rows :: x.vault == m.vault && x.user == m.user ==> x.revoked.Some?
    ensures var n := Table(kept + [m], m.id);
      IdsRise(n.rows) && Unique(n.rows) && (forall x | x in n.rows :: RowOk(n, owners, x)) && Continues(t, n)
  {
    var n := Table(kept + [m], m.id);
    forall x | x in kept ensures RowOk(t, owners, x) && x.id < m.id && Continued(t.rows, x) {
      assert x in t.rows && RowOk(t, owners, x);
    }
    RisesSnoc(kept, m);
    InvitedUnique(t.rows, kept, m);
  }

  lemma RisesSnoc(kept: seq<Member>, m: Member)
    requires IdsRise(kept) && forall x | x in kept :: x.id < m.id
    ensures IdsRise(kept + [m])
  {
    var n := kept + [m];
    forall i, j | 0 <= i < j < |n| ensures n[i].id < n[j].id {
      if j == |kept| { assert kept[i] in kept; }
    }
  }

  lemma InvitedUnique(rows: seq<Member>, kept: seq<Member>, m: Member)
    requires Unique(rows) && (forall x | x in kept :: x in rows)
    requires forall x | x in rows :: x.vault == m.vault && x.user == m.user ==> x.revoked.Some?
    ensures Unique(kept + [m])
  {
  }

  // ----- revoking -----

  lemma {:induction false} MapOneCount(rows: seq<Member>, x: Member, g: Member -> Member, f: Member -> bool)
    requires Distinct(rows) && x in rows && (forall m | m in rows && m != x :: g(m) == m)
    ensures |Filter(Map(rows, g), f)| == |Filter(rows, f)| + (if f(g(x)) then 1 else 0) - (if f(x) then 1 else 0)
  {
    var rest, last := rows[..|rows| - 1], rows[|rows| - 1];
    assert rows == rest + [last];
    MapSnoc(rest, last, g, f);
    if last == x { MapNone(rest, g); } else { MapOneCount(rest, x, g, f); }
  }

  lemma MapSnoc(rows: seq<Member>, m: Member, g: Member -> Member, f: Member -> bool)
    ensures |Filter(Map(rows + [m], g), f)| == |Filter(Map(rows, g), f)| + if f(g(m)) then 1 else 0
    ensures |Filter(rows + [m], f)| == |Filter(rows, f)| + if f(m) then 1 else 0
  {
    assert Map(rows + [m], g) == Map(rows, g) + [g(m)];
    FilterSnoc(Map(rows, g), g(m), f);
    FilterSnoc(rows, m, f);
  }

  lemma MapNone(rows: seq<Member>, g: Member -> Member)
    requires forall m | m in rows :: g(m) == m
    ensures Map(rows, g) == rows
  {
    forall i | 0 <= i < |rows| ensures rows[i] == Map(rows, g)[i] { assert rows[i] in rows; }
  }

  // An active row of that uid and vault, of that user.
  ghost predicate Shares(t: Table, v: VaultId, uid: nat, user: nat) {
    exists m | m in t.rows :: m.id == uid && m.vault == v && m.user == user && m.revoked.None?
  }

  // Exactly the row of that uid was revoked, at that time.
  ghost predicate OnlyRevoked(t: Table, n: Table, uid: nat, now: int) {
    && |n.rows| == |t.rows| && n.sequence == t.sequence
    && forall i | 0 <= i < |t.rows| ::
         n.rows[i] == if t.rows[i].id == uid then t.rows[i].(revoked := Some(now)) else t.rows[i]
  }

  lemma RemoveExact(t: Table, owners: map<VaultId, nat>, v: VaultId, acting: nat, uid: nat, now: int)
    requires IdsRise(t.rows) && v in owners
    ensures var (n, o) := Remove(t, v, owners[v], acting, uid, now);
      && (forall u {:trigger Shares(t, v, uid, u)} ::
            o == Some(u) <==> Shares(t, v, uid, u) && (acting == owners[v] || acting == u))
      && (if o.Some? then OnlyRevoked(t, n, uid, now) else n == t)
  {
    var (n, o) := Remove(t, v, owners[v], acting, uid, now);
    if FindShare(t.rows, v, uid).Some? {
      var x := FindShare(t.rows, v, uid).value;
      forall m | m in t.rows && m.id == uid ensures m == x { SameId(t.rows, m, x); }
      forall i | 0 <= i < |t.rows| && t.rows[i].id == uid ensures t.rows[i] == x { assert t.rows[i] in t.rows; }
    }
  }

  // A collaborator leaves when the owner or that collaborator asks, and only then.
  lemma RemoveInv(t: Table, owners: map<VaultId, nat>, v: VaultId, acting: nat, uid: nat, now: int)
    requires Inv(t, owners) && v in owners
    ensures var (n, o) := Remove(t, v, owners[v], acting, uid, now);
      && Inv(n, owners) && Continues(t, n)
      && Active(n, v) == Active(t, v) - (if o.Some? then 1 else 0)
      && Revoked(n, v) == Revoked(t, v) + (if o.Some? then 1 else 0)
      && (forall u {:trigger Shares(t, v, uid, u)} ::
            o == Some(u) <==> Shares(t, v, uid, u) && (acting == owners[v] || acting == u))
      && (if o.Some? then OnlyRevoked(t, n, uid, now) else n == t)
  {
    var (n, o) := Remove(t, v, owners[v], acting, uid, now);
    RemoveExact(t, owners, v, acting, uid, now);
    if o.Some? {
      RevokedRows(t, owners, v, uid, now);
      forall w ensures CountsOk(n, w) {
        assert CountsOk(t, w);
        RemovedCounts(t, v, uid, now, w);
      }
      RemovedCounts(t, v, uid, now, v);
    } else {
      SubsetContinues(t, t);
    }
  }

  lemma RemovedCounts(t: Table, v: VaultId, uid: nat, now: int, w: VaultId)
    requires IdsRise(t.rows) && FindShare(t.rows, v, uid).Some?
    ensures var n := t.(rows := Map(t.rows, Revoking(v, uid, now)));
      && Active(n, w) == Active(t, w) - (if w == v then 1 else 0)
      && Revoked(n, w) == Revoked(t, w) + (if w == v then 1 else 0)
  {
    var g, x := Revoking(v, uid, now), FindShare(t.rows, v, uid).value;
    RisingDistinct(t.rows);
    forall m | m in t.rows && m != x ensures g(m) == m { SameId(t.rows, m, x); }
    MapOneCount(t.rows, x, g, ActiveIn(w));
    MapOneCount(t.rows, x, g, RevokedIn(w));
  }

  lemma RevokedRows(t: Table, owners: map<VaultId, nat>, v: VaultId, uid: nat, now: int)
    requires Inv(t, owners)
    ensures var n := t.(rows := Map(t.rows, Revoking(v, uid, now)));
      IdsRise(n.rows) && Unique(n.rows) && (forall x | x in n.rows :: RowOk(n, owners, x)) && Continues(t, n)
  {
    var n := t.(rows := Map(t.rows, Revoking(v, uid, now)));
    forall x | x in n.rows ensures RowOk(n, owners, x) && Continued(t.rows, x) {
      var p := RevokedFrom(t.rows, v, uid, now, x);
      assert RowOk(t, owners, p);
    }
    forall a, b |
      a in n.rows && b in n.rows && a.vault == b.vault && a.user == b.user && a.revoked.None? && b.revoked.None?
      ensures a.id == b.id
    {
      var p := RevokedFrom(t.rows, v, uid, now, a);
      var q := RevokedFrom(t.rows, v, uid, now, b);
    }
  }

  lemma RevokedFrom(rows: seq<Member>, v: VaultId, uid: nat, now: int, x: Member) returns (p: Member)
    requires x in Map(rows, Revoking(v, uid, now))
    ensures p in rows && x == Revoking(v, uid, now)(p)
  {
    var i :| 0 <= i < |rows| && Map(rows, Revoking(v, uid, now))[i] == x;
    p := rows[i];
  }

  // The database verifier accepts at most 64 revoked rows per vault. A removal keeps
  // within that exactly when fewer than 64 were there before it.
  lemma RemoveVerifies(t: Table, owners: map<VaultId, nat>, v: VaultId, acting: nat, uid: nat, now: int)
    requires Inv(t, owners) && v in owners && Remove(t, v, owners[v], acting, uid, now).1.Some?
    ensures Revoked(Remove(t, v, owners[v], acting, uid, now).0, v) <= MAX_REVOKED <==> Revoked(t, v) < MAX_REVOKED
  {
    RemoveInv(t, owners, v, acting, uid, now);
  }

  // ----- deleting and migrating -----

  lemma DropVaultInv(t: Table, owners: map<VaultId, nat>, v: VaultId)
    requires Inv(t, owners)
    ensures Inv(DropVault(t, v), owners - {v}) && Continues(t, DropVault(t, v))
    ensures forall m | m in DropVault(t, v).rows :: m.vault != v
  {
    var n := DropVault(t, v);
    FilterRises(t.rows, OutOf(v));
    SubsetContinues(t, n);
    forall m | m in n.rows ensures RowOk(n, owners - {v}, m) { assert RowOk(t, owners, m); }
    forall w ensures CountsOk(n, w) {
      assert CountsOk(t, w);
      SubCount(t.rows, OutOf(v), ActiveIn(w));
      SubCount(t.rows, OutOf(v), RevokedIn(w));
    }
  }

  lemma SubCount(rows: seq<Member>, keep: Member -> bool, f: Member -> bool)
    ensures |Filter(Filter(rows, keep), f)| <= |Filter(rows, f)|
  {
    var both := (m: Member) => keep(m) && f(m);
    FilterFilter(rows, keep, f, both);
    FilterShorter(rows, both, f);
  }

  // Migration carries exactly the active rows of the vault, with their uids, users and
  // dates, and leaves the other vaults alone.
  lemma MigrateCarries(t: Table, v: VaultId, w: VaultId)
    requires v != w && forall m | m in t.rows :: m.vault != w
    ensures Filter(Migrate(t, v, w).rows, In(w)) == Map(Filter(t.rows, ActiveIn(v)), Moving(v, w))
    ensures Filter(Migrate(t, v, w).rows, OutOf(w)) == Filter(t.rows, OutOf(v))
  {
    var g := Moving(v, w);
    var moved := Map(t.rows, g);
    FilterFilter(moved, OutOf(v), In(w), In(w));
    FilterMap(t.rows, g, In(w), ActiveIn(v));
    var other := (m: Member) => m.vault != v && m.vault != w;
    FilterFilter(moved, OutOf(v), OutOf(w), other);
    FilterMap(t.rows, g, other, OutOf(v));
    var kept := Filter(t.rows, OutOf(v));
    forall i | 0 <= i < |kept| ensures Map(kept, g)[i] == kept[i] { assert kept[i] in kept; }
    assert Map(kept, g) == kept;
  }

  lemma MigrateInv(t: Table, owners: map<VaultId, nat>, v: VaultId, w: VaultId)
    requires Inv(t, owners) && v in owners && w !in owners
    ensures Inv(Migrate(t, v, w), (owners - {v})[w := owners[v]]) && Continues(t, Migrate(t, v, w))
  {
    var n := Migrate(t, v, w);
    forall m | m in t.rows ensures m.vault != w { assert RowOk(t, owners, m); }
    MigratedRows(t, owners, v, w);
    forall x ensures CountsOk(n, x) {
      assert CountsOk(t, x) && CountsOk(t, v);
      MigratedCounts(t, v, w, x);
    }
  }

  lemma MigratedCounts(t: Table, v: VaultId, w: VaultId, x: VaultId)
    requires v != w && forall m | m in t.rows :: m.vault != w
    ensures Active(Migrate(t, v, w), x) == if x == v then 0 else if x == w then Active(t, v) else Active(t, x)
    ensures Revoked(Migrate(t, v, w), x) == if x == v || x == w then 0 else Revoked(t, x)
  {
    var none := (m: Member) => false;
    FilterNone(t.rows, none);
    MovedCount(t, v, w, ActiveIn(x), if x == v then none else if x == w then ActiveIn(v) else ActiveIn(x));
    MovedCount(t, v, w, RevokedIn(x), if x == v || x == w then none else RevokedIn(x));
  }

  lemma MovedCount(t: Table, v: VaultId, w: VaultId, sel: Member -> bool, was: Member -> bool)
    requires forall m | m in t.rows :: was(m) == (Moving(v, w)(m).vault != v && sel(Moving(v, w)(m)))
    ensures |Filter(Migrate(t, v, w).rows, sel)| == |Filter(t.rows, was)|
  {
    var both := (m: Member) => m.vault != v && sel(m);
    FilterFilter(Map(t.rows, Moving(v, w)), OutOf(v), sel, both);
    FilterMap(t.rows, Moving(v, w), both, was);
  }

  lemma MigratedRows(t: Table, owners: map<VaultId, nat>, v: VaultId, w: VaultId)
    requires Inv(t, owners) && v in owners && w !in owners
    ensures var n := Migrate(t, v, w);
      && IdsRise(n.rows) && Unique(n.rows) && Continues(t, n)
      && (forall m | m in n.rows :: RowOk(n, (owners - {v})[w := owners[v]], m))
  {
    var n, after := Migrate(t, v, w), (owners - {v})[w := owners[v]];
    FilterRises(Map(t.rows, Moving(v, w)), OutOf(v));
    forall x | x in n.rows ensures RowOk(n, after, x) && Continued(t.rows, x) {
      var p := MovedFrom(t.rows, v, w, x);
      assert RowOk(t, owners, p);
    }
    MigratedUnique(t, owners, v, w);
  }

  lemma MigratedUnique(t: Table, owners: map<VaultId, nat>, v: VaultId, w: VaultId)
    requires Inv(t, owners) && v in owners && w !in owners
    ensures Unique(Migrate(t, v, w).rows)
  {
    var rows := Migrate(t, v, w).rows;
    forall a, b | a in rows && b in rows && a.vault == b.vault && a.user == b.user && a.revoked.None? && b.revoked.None?
      ensures a.id == b.id
    {
      var p := MovedFrom(t.rows, v, w, a);
      var q := MovedFrom(t.rows, v, w, b);
      assert RowOk(t, owners, p) && RowOk(t, owners, q);
    }
  }

  lemma MovedFrom(rows: seq<Member>, v: VaultId, w: VaultId, x: Member) returns (p: Member)
    requires x in Map(rows, Moving(v, w))
    ensures p in rows && x == Moving(v, w)(p)
  {
    var i :| 0 <= i < |rows| && Map(rows, Moving(v, w))[i] == x;
    p := rows[i];
  }
}
