// The run of `MembersRun` on the whole database, where accounts, sessions and ownership
// have to allow every step of it.
module VerifierRun {
  import Lists
  import opened Revisions
  import opened Store
  import opened Database
  import Members
  import Sessions
  import MembersRun

  const TOKEN: Sessions.Token := "owner"
  const WHO: Caller := Caller(TOKEN, MembersRun.OWNER)

  // ----- appending a step to a run -----

  lemma {:induction false} RunSnoc(s: State, steps: seq<Step>, e: Step)
    requires Runs(s, steps) && Enabled(End(s, steps), e)
    ensures Runs(s, steps + [e]) && End(s, steps + [e]) == Next(End(s, steps), e)
    decreases |steps|
  {
    if steps == [] {
      assert [e][1..] == [];
    } else {
      RunSnoc(Next(s, steps[0]), steps[1..], e);
      assert (steps + [e])[1..] == steps[1..] + [e];
    }
  }

  // ----- twenty-one users, a session and a vault -----

  // Only users 0 to n - 1 exist, all of them active, and nothing else.
  ghost predicate Populated(s: State, n: nat) {
    && (forall u: nat :: u in s.db.accounts.users <==> u < n) && |s.db.accounts.users| == n
    && (forall u | u in s.db.accounts.users :: s.db.accounts.users[u].active)
    && s.db == Fresh.(accounts := Sessions.Accounts(s.db.accounts.users, map[])) && s.used == {} && s.issued == {}
  }

  function Adding(user: nat): Step { Step(Account(Sessions.CreateUser(user, false)), 0) }

  lemma AddUser(s: State, n: nat)
    requires Populated(s, n) && n < Sessions.MAX_USERS
    ensures Enabled(s, Adding(n)) && Populated(Next(s, Adding(n)), n + 1)
  {
    var users := s.db.accounts.users;
    Lists.OneKeyMore(users, n, Sessions.User(true, false, 0, 0));
    AddingDoes(s, n);
  }

  lemma AddingDoes(s: State, n: nat)
    requires n !in s.db.accounts.users && |s.db.accounts.users| < Sessions.MAX_USERS
    ensures var users := s.db.accounts.users[n := Sessions.User(true, false, 0, 0)];
      Next(s, Adding(n)) == State(s.db.(accounts := s.db.accounts.(users := users)), 0, s.used, s.issued)
  {
    assert s.used + {} == s.used;
  }

  ghost predicate Populates(b: State, steps: seq<Step>, n: nat) { Runs(b, steps) && Populated(End(b, steps), n) }

  lemma OneMore(b: State, steps: seq<Step>, n: nat) returns (more: seq<Step>)
    requires Populates(b, steps, n) && n < Sessions.MAX_USERS
    ensures Populates(b, more, n + 1)
  {
    AddUser(End(b, steps), n);
    RunSnoc(b, steps, Adding(n));
    more := steps + [Adding(n)];
  }

  lemma {:induction false} Populate(b: State, n: nat) returns (steps: seq<Step>)
    requires Populated(b, 0) && n <= Sessions.MAX_USERS
    ensures Populates(b, steps, n)
    decreases n
  {
    if n == 0 {
      steps := [];
      assert Runs(b, []) && End(b, []) == b;
    } else {
      var first := Populate(b, n - 1);
      steps := OneMore(b, first, n - 1);
    }
  }

  // The owner is signed in and owns `v`; the first twenty users can be invited.
  ghost predicate Ready(s: State, v: VaultId) {
    && Authorized(s.db, WHO, 0) && Owns(s.db, MembersRun.OWNER, v)
    && (forall u | 0 <= u <= Members.MAX_ACTIVE :: u in s.db.accounts.users && s.db.accounts.users[u].active)
  }

  lemma Sign(s: State, n: nat)
    requires Populated(s, n) && 0 < n
    ensures var e := Step(Account(Sessions.Issue(TOKEN, MembersRun.OWNER, 1)), 0); var d := Next(s, e);
      && Enabled(s, e) && Authorized(d.db, WHO, 0) && d.db == s.db.(accounts := d.db.accounts)
      && d.db.accounts.users == s.db.accounts.users && d.used == {}
  {
    var kept := Sessions.Unexpired(s.db.accounts, 0);
    assert kept == map[] && Sessions.OpenOf(kept, MembersRun.OWNER, 0) == {};
  }

  lemma Found(s: State, v: VaultId)
    requires Authorized(s.db, WHO, 0) && s.db.tables == Empty && s.used == {}
    ensures var e := Step(Op.Create(WHO, v, ""), 0); var d := Next(s, e);
      Enabled(s, e) && Owns(d.db, MembersRun.OWNER, v) && d.db == s.db.(tables := d.db.tables)
  {
  }

  // A run that ends ready, with the memberships given.
  ghost predicate Leads(b: State, steps: seq<Step>, v: VaultId, members: Members.Table) {
    Runs(b, steps) && Ready(End(b, steps), v) && End(b, steps).db.members == members
  }

  lemma Prepare(b: State, v: VaultId) returns (steps: seq<Step>)
    requires Populated(b, 0)
    ensures Leads(b, steps, v, Members.Table([], 0))
  {
    var users := Populate(b, Members.MAX_ACTIVE + 1);
    var signing := Step(Account(Sessions.Issue(TOKEN, MembersRun.OWNER, 1)), 0);
    Sign(End(b, users), Members.MAX_ACTIVE + 1);
    RunSnoc(b, users, signing);
    var creating := Step(Op.Create(WHO, v, ""), 0);
    Found(End(b, users + [signing]), v);
    RunSnoc(b, users + [signing], creating);
    steps := users + [signing] + [creating];
  }

  // ----- the run -----

  function Acting(v: VaultId, a: MembersRun.Action): Step {
    match a
    case Inviting(user) => Step(Op.Invite(WHO, v, user), 0)
    case Removing(uid) => Step(Op.Remove(WHO, v, uid), 0)
  }

  lemma ActsAs(s: State, v: VaultId, a: MembersRun.Action)
    requires Ready(s, v) && (a.Inviting? ==> a.user <= Members.MAX_ACTIVE)
    ensures Enabled(s, Acting(v, a)) && Ready(Next(s, Acting(v, a)), v)
    ensures Next(s, Acting(v, a)).db.members == MembersRun.Do(s.db.members, v, a)
  {
  }

  lemma ActOne(b: State, steps: seq<Step>, v: VaultId, members: Members.Table, a: MembersRun.Action)
    requires Leads(b, steps, v, members) && (a.Inviting? ==> a.user <= Members.MAX_ACTIVE)
    ensures Leads(b, steps + [Acting(v, a)], v, MembersRun.Do(members, v, a))
  {
    ActsAs(End(b, steps), v, a);
    RunSnoc(b, steps, Acting(v, a));
  }

  lemma {:induction false} ActAll(
    b: State, start: seq<Step>, v: VaultId, t: Members.Table, actions: seq<MembersRun.Action>)
    returns (steps: seq<Step>)
    requires Leads(b, start, v, t) && MembersRun.Modest(actions)
    ensures Leads(b, steps, v, MembersRun.DoAll(t, v, actions))
    decreases |actions|
  {
    if actions == [] {
      steps := start;
    } else {
      var before, a := actions[..|actions| - 1], actions[|actions| - 1];
      assert actions == before + [a];
      var first := ActAll(b, start, v, t, before);
      ActOne(b, first, v, MembersRun.DoAll(t, v, before), a);
      steps := first + [Acting(v, a)];
    }
  }

  // From an empty database the bound of 83 rows is attained, all of them revoked: 19 more
  // than the 64 the database verifier accepts when the database is next opened.
  lemma VerifierBoundExceeded(v: VaultId)
    ensures exists steps ::
              && Runs(Boot, steps) && v in End(Boot, steps).db.tables.vaults
              && Members.Revoked(End(Boot, steps).db.members, v) == Members.MAX_ROWS_PER_VAULT > Members.MAX_REVOKED
  {
    assert Populated(Boot, 0);
    var start := Prepare(Boot, v);
    var actions, filled := MembersRun.Empties(v, Members.MAX_ACTIVE);
    var steps := ActAll(Boot, start, v, Members.Table([], 0), actions);
  }

  // ----- dates -----

  // On a database that is otherwise sound, a user created at 100 and enabled at 50, after
  // the clock was set back, has dates the verifier rejects.
  lemma VerifierRejectsDates(user: nat)
    ensures exists steps ::
              && Runs(Boot, steps) && user in End(Boot, steps).db.accounts.users
              && !Sessions.Stamped(End(Boot, steps).db.accounts.users[user])
  {
    var creating := Step(Account(Sessions.CreateUser(user, false)), 100);
    var enabling := Step(Account(Sessions.Enable(user)), 50);
    assert Runs(Boot, []) && End(Boot, []) == Boot;
    RunSnoc(Boot, [], creating);
    var s := Next(Boot, creating);
    assert [] + [creating] == [creating] && s.db.accounts.users == map[user := Sessions.User(true, false, 100, 100)];
    RunSnoc(Boot, [creating], enabling);
    assert Next(s, enabling).db.accounts.users[user] == Sessions.User(true, false, 100, 50);
  }
}
