// Accounts and bearer sessions: issue, sliding renewal, revocation, disabling. The clock
// is a parameter of every operation and may read anything; what needs it not to go back
// says so.
module Sessions {
  import opened Lists
  import opened Words

  const MAX_USERS: nat := 256
  const MAX_SESSIONS: nat := 1024
  const MAX_SESSIONS_PER_USER: nat := 64

  type Token = string

  datatype User = User(active: bool, admin: bool, created: int, updated: int)
  datatype Session = Session(user: nat, created: int, expires: int, revoked: Option<int>)
  datatype Accounts = Accounts(users: map<nat, User>, sessions: map<Token, Session>)

  datatype Op =
    | CreateUser(user: nat, admin: bool) | Rename(user: nat)
    | Enable(user: nat) | Disable(user: nat) | SetRole(user: nat, admin: bool) | ChangeCredential(user: nat)
    | Issue(token: Token, user: nat, ttlSecs: int) | Renew(token: Token, ttlSecs: int, access: bool)
    | RevokeToken(token: Token) | RevokeUser(user: nat) | RevokeAll | DeleteAll

  // Division by two that truncates toward zero.
  function Half(x: int): int { if x >= 0 then x / 2 else -(-x / 2) }

  predicate Open(s: Session, now: int) { s.revoked.None? && s.expires > now }

  // `auth_context_hash` finds the session and its active user.
  predicate Valid(a: Accounts, token: Token, now: int) {
    && token in a.sessions && Open(a.sessions[token], now)
    && a.sessions[token].user in a.users && a.users[a.sessions[token].user].active
  }

  function Admins(a: Accounts): set<nat> { set u | u in a.users && a.users[u].admin && a.users[u].active }

  function Unexpired(a: Accounts, now: int): map<Token, Session> {
    map k | k in a.sessions && Open(a.sessions[k], now) :: a.sessions[k]
  }

  function OpenOf(sessions: map<Token, Session>, user: nat, now: int): set<Token> {
    set k | k in sessions && sessions[k].user == user && Open(sessions[k], now)
  }

  // UPDATE sessions SET revoked_at = MAX(now, created_at)
  function Revoke(a: Accounts, who: set<Token>, now: int): Accounts {
    a.(sessions := map k | k in a.sessions ::
         var s := a.sessions[k];
         if k in who then s.(revoked := Some(if now > s.created then now else s.created)) else s)
  }

  function UnrevokedOf(a: Accounts, user: nat): set<Token> {
    set k | k in a.sessions && a.sessions[k].user == user && a.sessions[k].revoked.None?
  }

  function Unrevoked(a: Accounts): set<Token> { set k | k in a.sessions && a.sessions[k].revoked.None? }

  // `issue_session_for_user`; a refusal rolls the cleanup back too.
  function Issued(a: Accounts, token: Token, user: nat, ttlSecs: int, now: int): Accounts {
    var kept := Unexpired(a, now);
    if |kept| >= MAX_SESSIONS || user !in a.users || !a.users[user].active
       || |OpenOf(kept, user, now)| >= MAX_SESSIONS_PER_USER || token in kept then a
    else a.(sessions := kept[token := Session(user, now, now + ttlSecs * 1000, None)])
  }

  // `auth_context_hash_with_renewal` and `renew_session_for_vault`; `access` is the vault
  // authorization of the second, true for the first.
  function Renewed(a: Accounts, token: Token, ttlSecs: int, access: bool, now: int): Accounts {
    var ttl := Saturate(ttlSecs * 1000);
    if !Valid(a, token, now) || !access || a.sessions[token].expires > Saturate(now + Half(ttl)) then a
    else a.(sessions := a.sessions[token := a.sessions[token].(expires := Saturate(now + ttl))])
  }

  // UPDATE users SET ..., updated_at = now
  function Touched(a: Accounts, user: nat, record: User, now: int): Accounts {
    a.(users := a.users[user := record.(updated := now)])
  }

  function Disabled(a: Accounts, user: nat, now: int): Accounts {
    if user !in a.users || (a.users[user].admin && |Admins(a)| <= 1) then a
    else Revoke(Touched(a, user, a.users[user].(active := false), now), UnrevokedOf(a, user), now)
  }

  function Roled(a: Accounts, user: nat, admin: bool, now: int): Accounts {
    if user !in a.users || (a.users[user].admin && !admin && a.users[user].active && |Admins(a)| <= 1) then a
    else Revoke(Touched(a, user, a.users[user].(admin := admin), now), UnrevokedOf(a, user), now)
  }

  function Do(a: Accounts, op: Op, now: int): Accounts {
    match op
    case CreateUser(u, admin) =>
      if u in a.users || |a.users| >= MAX_USERS then a else a.(users := a.users[u := User(true, admin, now, now)])
    case Rename(u) => if u in a.users then Touched(a, u, a.users[u], now) else a
    case Enable(u) => if u in a.users then Touched(a, u, a.users[u].(active := true), now) else a
    case Disable(u) => Disabled(a, u, now)
    case SetRole(u, admin) => Roled(a, u, admin, now)
    case ChangeCredential(u) =>
      if u in a.users then Revoke(Touched(a, u, a.users[u], now), UnrevokedOf(a, u), now) else a
    case Issue(token, u, ttl) => Issued(a, token, u, ttl, now)
    case Renew(token, ttl, access) => Renewed(a, token, ttl, access, now)
    case RevokeToken(token) => Revoke(a, {token}, now)
    case RevokeUser(u) => Revoke(a, UnrevokedOf(a, u), now)
    case RevokeAll => Revoke(a, Unrevoked(a), now)
    case DeleteAll => a.(sessions := map[])
  }

  // Configured lifetimes are positive, and no expiry leaves 64 bits.
  predicate Lawful(op: Op, now: int) { op.Issue? ==> 0 < op.ttlSecs && now + op.ttlSecs * 1000 <= MAX_I64 }

  // ----- runs -----

  datatype State = State(accounts: Accounts, clock: int, issued: set<Token>)

  datatype Step = Step(op: Op, now: int)

  const Start := State(Accounts(map[], map[]), 0, {})

  // New tokens are fresh random values.
  ghost predicate Enabled(s: State, e: Step) { Lawful(e.op, e.now) && (e.op.Issue? ==> e.op.token !in s.issued) }

  function Next(s: State, e: Step): State {
    State(Do(s.accounts, e.op, e.now), e.now, if e.op.Issue? then s.issued + {e.op.token} else s.issued)
  }

  function End(s: State, steps: seq<Step>): State
    decreases |steps|
  {
    if steps == [] then s else End(Next(s, steps[0]), steps[1..])
  }

  ghost predicate Runs(s: State, steps: seq<Step>)
    decreases |steps|
  {
    steps == [] || (Enabled(s, steps[0]) && Runs(Next(s, steps[0]), steps[1..]))
  }

  // Time does not go back.
  ghost predicate Timely(s: State, steps: seq<Step>)
    decreases |steps|
  {
    steps == [] || (s.clock <= steps[0].now && Timely(Next(s, steps[0]), steps[1..]))
  }

  // ----- what holds at any clock -----

  ghost predicate SessionOk(a: Accounts, k: Token)
    requires k in a.sessions
  {
    var s := a.sessions[k];
    && s.user in a.users && (s.revoked.None? ==> a.users[s.user].active)
    && s.created < s.expires <= MAX_I64 && (s.revoked.Some? ==> s.created <= s.revoked.value)
  }

  ghost predicate CountOk(a: Accounts, u: nat) { |UnrevokedOf(a, u)| <= MAX_SESSIONS_PER_USER }

  ghost predicate Solid(a: Accounts) {
    && |a.users| <= MAX_USERS && |a.sessions| <= MAX_SESSIONS
    && (forall k {:trigger SessionOk(a, k)} | k in a.sessions :: SessionOk(a, k))
    && (forall u {:trigger CountOk(a, u)} :: CountOk(a, u))
  }

  ghost predicate Inv(s: State) { Solid(s.accounts) && s.accounts.sessions.Keys <= s.issued }

  // So no user has more than 64 open sessions, at whatever time one counts.
  lemma OpenBound(a: Accounts, u: nat, at: int)
    requires CountOk(a, u)
    ensures |OpenOf(a.sessions, u, at)| <= MAX_SESSIONS_PER_USER
  {
    SubsetSize(OpenOf(a.sessions, u, at), UnrevokedOf(a, u));
  }

  lemma RevokeKeeps(a: Accounts, n: Accounts, who: set<Token>, now: int)
    requires n.sessions == Revoke(a, who, now).sessions
    ensures n.sessions.Keys == a.sessions.Keys && |n.sessions| == |a.sessions|
    ensures forall k | k in n.sessions && k !in who :: n.sessions[k] == a.sessions[k]
    ensures forall k | k in n.sessions && k in who ::
              var s := a.sessions[k]; n.sessions[k] == s.(revoked := Some(if now > s.created then now else s.created))
  {
    assert n.sessions.Keys == a.sessions.Keys;
    assert |n.sessions| == |n.sessions.Keys| && |a.sessions| == |a.sessions.Keys|;
  }

  lemma CountsShrink(a: Accounts, n: Accounts, u: nat)
    requires CountOk(a, u) && UnrevokedOf(n, u) <= UnrevokedOf(a, u)
    ensures CountOk(n, u)
  {
    SubsetSize(UnrevokedOf(n, u), UnrevokedOf(a, u));
  }

  // Issuing deletes everything expired or revoked first, so what is unrevoked is open.
  lemma IssueCount(a: Accounts, token: Token, u: nat, ttl: int, now: int, v: nat)
    requires CountOk(a, v)
    ensures CountOk(Issued(a, token, u, ttl, now), v)
  {
    var n, kept := Issued(a, token, u, ttl, now), Unexpired(a, now);
    if n != a {
      if v == u {
        SubsetSize(UnrevokedOf(n, v), OpenOf(kept, v, now) + {token});
      } else {
        CountsShrink(a, n, v);
      }
    }
  }

  lemma IssueSolid(a: Accounts, token: Token, u: nat, ttl: int, now: int)
    requires Solid(a) && Lawful(Issue(token, u, ttl), now)
    ensures Solid(Issued(a, token, u, ttl, now))
  {
    var n, kept := Issued(a, token, u, ttl, now), Unexpired(a, now);
    if n != a {
      assert n.sessions.Keys == kept.Keys + {token};
      assert |n.sessions| == |n.sessions.Keys| && |kept| == |kept.Keys|;
      forall k | k in n.sessions ensures SessionOk(n, k) { if k != token { assert SessionOk(a, k); } }
      forall v ensures CountOk(n, v) { assert CountOk(a, v); IssueCount(a, token, u, ttl, now, v); }
    }
  }

  lemma RenewSolid(a: Accounts, token: Token, ttl: int, access: bool, now: int)
    requires Solid(a)
    ensures Solid(Renewed(a, token, ttl, access, now))
  {
    var n := Renewed(a, token, ttl, access, now);
    assert n.sessions.Keys == a.sessions.Keys;
    assert |n.sessions| == |n.sessions.Keys| && |a.sessions| == |a.sessions.Keys|;
    forall k | k in n.sessions ensures SessionOk(n, k) { assert SessionOk(a, k); }
    forall v ensures CountOk(n, v) { assert CountOk(a, v); CountsShrink(a, n, v); }
  }

  // The sessions an operation revokes; the other operations revoke none.
  function Revoked(a: Accounts, op: Op, now: int): set<Token> {
    match op
    case Disable(u) => if Do(a, op, now) == a then {} else UnrevokedOf(a, u)
    case SetRole(u, _) => if Do(a, op, now) == a then {} else UnrevokedOf(a, u)
    case ChangeCredential(u) => if u in a.users then UnrevokedOf(a, u) else {}
    case RevokeToken(k) => {k}
    case RevokeUser(u) => UnrevokedOf(a, u)
    case RevokeAll => Unrevoked(a)
    case _ => {}
  }

  predicate OnlyRevokes(op: Op) { !op.Issue? && !op.Renew? && !op.DeleteAll? }

  lemma RevokesOnly(a: Accounts, op: Op, now: int)
    requires OnlyRevokes(op)
    ensures Do(a, op, now).sessions == Revoke(a, Revoked(a, op, now), now).sessions
  {
  }

  // How an operation changes the users: it may add one, and it keeps the others, active
  // unless their sessions are revoked.
  lemma UsersMove(a: Accounts, op: Op, now: int, u: nat)
    requires OnlyRevokes(op) && u in a.users
    ensures var n := Do(a, op, now);
      u in n.users && (n.users[u].active || !a.users[u].active || UnrevokedOf(a, u) <= Revoked(a, op, now))
  {
  }

  lemma UserCount(a: Accounts, op: Op, now: int)
    requires |a.users| <= MAX_USERS
    ensures |Do(a, op, now).users| <= MAX_USERS
  {
    var n := Do(a, op, now);
    assert |n.users| == |n.users.Keys| && |a.users| == |a.users.Keys|;
    UserKeys(a, op, now);
  }

  lemma UserKeys(a: Accounts, op: Op, now: int)
    ensures Do(a, op, now).users.Keys ==
      if op.CreateUser? && |a.users| < MAX_USERS then a.users.Keys + {op.user} else a.users.Keys
  {
  }

  lemma RevokeSolid(a: Accounts, op: Op, now: int)
    requires Solid(a) && OnlyRevokes(op)
    ensures Solid(Do(a, op, now))
  {
    var n := Do(a, op, now);
    UserCount(a, op, now);
    RevokesOnly(a, op, now);
    RevokeKeeps(a, n, Revoked(a, op, now), now);
    forall k | k in n.sessions ensures SessionOk(n, k) {
      assert SessionOk(a, k);
      UsersMove(a, op, now, a.sessions[k].user);
    }
    forall v ensures CountOk(n, v) { assert CountOk(a, v); CountsShrink(a, n, v); }
  }

  // Every operation, at any clock value, keeps at most 1024 sessions, at most 64 unrevoked
  // ones per user and none of a disabled user, and sensible timestamps.
  lemma DoSolid(a: Accounts, op: Op, now: int)
    requires Solid(a) && Lawful(op, now)
    ensures Solid(Do(a, op, now))
  {
    match op
    case Issue(token, u, ttl) => IssueSolid(a, token, u, ttl, now);
    case Renew(token, ttl, access) => RenewSolid(a, token, ttl, access, now);
    case DeleteAll => forall v ensures CountOk(Do(a, op, now), v) { assert UnrevokedOf(Do(a, op, now), v) == {}; }
    case _ => RevokeSolid(a, op, now);
  }

  lemma StepKeys(s: State, e: Step)
    requires s.accounts.sessions.Keys <= s.issued
    ensures Next(s, e).accounts.sessions.Keys <= Next(s, e).issued
  {
    if OnlyRevokes(e.op) {
      RevokesOnly(s.accounts, e.op, e.now);
      RevokeKeeps(s.accounts, Do(s.accounts, e.op, e.now), Revoked(s.accounts, e.op, e.now), e.now);
    }
  }

  lemma StepInv(s: State, e: Step)
    requires Inv(s) && Enabled(s, e)
    ensures Inv(Next(s, e))
  {
    DoSolid(s.accounts, e.op, e.now);
    StepKeys(s, e);
  }

  lemma {:induction false} RunInv(s: State, steps: seq<Step>)
    requires Inv(s) && Runs(s, steps)
    ensures Inv(End(s, steps))
    decreases |steps|
  {
    if steps != [] {
      StepInv(s, steps[0]);
      RunInv(Next(s, steps[0]), steps[1..]);
    }
  }

  lemma NobodySolid()
    ensures Solid(Accounts(map[], map[]))
  {
    forall u ensures CountOk(Accounts(map[], map[]), u) { assert UnrevokedOf(Accounts(map[], map[]), u) == {}; }
  }

  // From an empty database, at any clock values.
  lemma BootRun(steps: seq<Step>)
    requires Runs(Start, steps)
    ensures Inv(End(Start, steps))
  {
    NobodySolid();
    RunInv(Start, steps);
  }

  // ----- a revoked token stays revoked, at any clock -----

  // A token that was once issued and is now revoked or deleted.
  ghost predicate Gone(s: State, k: Token) {
    k in s.issued && (k in s.accounts.sessions ==> s.accounts.sessions[k].revoked.Some?)
  }

  lemma StepGone(s: State, e: Step, k: Token)
    requires Enabled(s, e) && Gone(s, k)
    ensures Gone(Next(s, e), k)
  {
  }

  lemma {:induction false} RunGone(s: State, steps: seq<Step>, k: Token)
    requires Runs(s, steps) && Gone(s, k)
    ensures Gone(End(s, steps), k)
    decreases |steps|
  {
    if steps != [] {
      StepGone(s, steps[0], k);
      RunGone(Next(s, steps[0]), steps[1..], k);
    }
  }

  // Disabling a user, changing their role or credential, or revoking their sessions ends
  // every token they hold, for good, even after the user is enabled again and whatever
  // the clock reads.
  lemma RevokedForGood(s: State, e: Step, steps: seq<Step>, k: Token, later: int)
    requires Inv(s) && Enabled(s, e) && Runs(Next(s, e), steps) && k in s.accounts.sessions
    requires || e.op.RevokeUser? || (e.op.ChangeCredential? && e.op.user in s.accounts.users)
             || ((e.op.Disable? || e.op.SetRole?) && Do(s.accounts, e.op, e.now) != s.accounts)
    requires s.accounts.sessions[k].user == e.op.user
    ensures !Valid(End(Next(s, e), steps).accounts, k, later)
  {
    RevokesOnly(s.accounts, e.op, e.now);
    RevokeKeeps(s.accounts, Do(s.accounts, e.op, e.now), Revoked(s.accounts, e.op, e.now), e.now);
    RunGone(Next(s, e), steps, k);
  }

  // ----- a dead token stays dead while time does not go back -----

  // A token that was once issued and no longer opens anything.
  ghost predicate Dead(s: State, k: Token) {
    k in s.issued && (k in s.accounts.sessions ==> !Open(s.accounts.sessions[k], s.clock))
  }

  // A stored, unrevoked token authenticates exactly until its expiry. So an expired one
  // authenticates again if and only if the clock reads less than its expiry again.
  lemma ValidUntilExpiry(a: Accounts, k: Token, at: int)
    requires Solid(a) && k in a.sessions && a.sessions[k].revoked.None?
    ensures Valid(a, k, at) <==> at < a.sessions[k].expires
  {
    assert SessionOk(a, k);
  }

  lemma InvalidIsDead(s: State, k: Token)
    requires Inv(s) && k in s.issued
    ensures Dead(s, k) <==> !Valid(s.accounts, k, s.clock)
  {
    if k in s.accounts.sessions { assert SessionOk(s.accounts, k); }
  }

  lemma StepDead(s: State, e: Step, k: Token)
    requires Enabled(s, e) && s.clock <= e.now && Dead(s, k)
    ensures Dead(Next(s, e), k)
  {
  }

  lemma LaterDead(s: State, now: int, k: Token)
    requires Dead(s, k) && s.clock <= now
    ensures Dead(s.(clock := now), k)
  {
  }

  lemma {:induction false} RunDead(s: State, steps: seq<Step>, k: Token)
    requires Runs(s, steps) && Timely(s, steps) && Dead(s, k)
    ensures Dead(End(s, steps), k)
    decreases |steps|
  {
    if steps != [] {
      StepDead(s, steps[0], k);
      RunDead(Next(s, steps[0]), steps[1..], k);
    }
  }

  // Expired, revoked, deleted, or its user disabled: once a token has stopped
  // authenticating, no later state of the run lets it in again.
  lemma NeverValidAgain(s: State, steps: seq<Step>, k: Token, later: int)
    requires Inv(s) && Runs(s, steps) && Timely(s, steps) && k in s.issued && !Valid(s.accounts, k, s.clock)
    requires End(s, steps).clock <= later
    ensures !Valid(End(s, steps).accounts, k, later)
  {
    InvalidIsDead(s, k);
    RunDead(s, steps, k);
  }

  // ----- when a user was last updated -----

  // What the database verifier asks of a user's dates.
  predicate Stamped(u: User) { u.created <= u.updated }

  predicate Touches(op: Op) {
    op.Rename? || op.Enable? || op.Disable? || op.SetRole? || op.ChangeCredential?
  }

  // The operation updates the user, which only the guards for the last administrator stop.
  predicate Updates(a: Accounts, op: Op, u: nat)
    requires u in a.users
  {
    && Touches(op) && op.user == u
    && (op.Disable? ==> !a.users[u].admin || |Admins(a)| > 1)
    && (op.SetRole? ==> !a.users[u].admin || op.admin || !a.users[u].active || |Admins(a)| > 1)
  }

  // An update changes exactly what it is for and the date, a creation adds an active user
  // while there is room, and nobody else's record changes or goes.
  lemma UserExact(a: Accounts, op: Op, now: int, u: nat)
    ensures var n := Do(a, op, now);
      if u in a.users then
        && u in n.users
        && n.users[u] == if !Updates(a, op, u) then a.users[u]
             else User(op.Enable? || (!op.Disable? && a.users[u].active),
                       if op.SetRole? then op.admin else a.users[u].admin, a.users[u].created, now)
      else if op.CreateUser? && op.user == u && |a.users| < MAX_USERS then
        u in n.users && n.users[u] == User(true, op.admin, now, now)
      else u !in n.users
  {
  }

  // An update keeps the dates in order if and only if the clock does not read less than at
  // the user's creation; nobody else's record changes.
  lemma UpdateStamps(a: Accounts, op: Op, now: int, u: nat)
    requires u in a.users
    ensures var n := Do(a, op, now);
      && u in n.users && n.users[u].created == a.users[u].created
      && (Updates(a, op, u) ==> (Stamped(n.users[u]) <==> a.users[u].created <= now))
      && (!Updates(a, op, u) ==> n.users[u] == a.users[u])
  {
  }

  // A user created at 100 and enabled at 50, after the clock was set back, has dates the
  // database verifier rejects.
  lemma ClockBackUnstamps(user: nat)
    ensures var steps := [Step(CreateUser(user, false), 100), Step(Enable(user), 50)];
      && Runs(Start, steps) && user in End(Start, steps).accounts.users
      && !Stamped(End(Start, steps).accounts.users[user])
  {
    var first, second := Step(CreateUser(user, false), 100), Step(Enable(user), 50);
    assert [first, second][1..] == [second] && [second][1..] == [];
    var s := Next(Start, first);
    assert s.accounts.users == map[user := User(true, false, 100, 100)];
    assert End(s, [second]) == End(Next(s, second), []) == Next(s, second);
    assert End(Start, [first, second]) == End(s, [second]);
    assert Runs(s, [second]);
  }

  ghost predicate StampsOk(s: State) {
    forall u | u in s.accounts.users :: Stamped(s.accounts.users[u]) && s.accounts.users[u].created <= s.clock
  }

  lemma StepStamps(s: State, e: Step)
    requires StampsOk(s) && s.clock <= e.now
    ensures StampsOk(Next(s, e))
  {
    var n := Next(s, e);
    forall u | u in n.accounts.users ensures Stamped(n.accounts.users[u]) && n.accounts.users[u].created <= n.clock {
      if u in s.accounts.users { UpdateStamps(s.accounts, e.op, e.now, u); }
    }
  }

  // While time does not go back every user's dates stay in order.
  lemma {:induction false} RunStamps(s: State, steps: seq<Step>)
    requires StampsOk(s) && Timely(s, steps)
    ensures StampsOk(End(s, steps))
    decreases |steps|
  {
    if steps != [] {
      StepStamps(s, steps[0]);
      RunStamps(Next(s, steps[0]), steps[1..]);
    }
  }

  // ----- what each operation does -----

  function OpenAt(a: Accounts, now: int): set<Token> { set k | k in a.sessions && Open(a.sessions[k], now) }

  // The user is active and there is room for one more open session, in all and of the user.
  ghost predicate MayIssue(a: Accounts, token: Token, user: nat, now: int) {
    && user in a.users && a.users[user].active && token !in OpenAt(a, now)
    && |OpenAt(a, now)| < MAX_SESSIONS && |OpenOf(a.sessions, user, now)| < MAX_SESSIONS_PER_USER
  }

  // An issued token authenticates its user for exactly its lifetime; beside it exactly the
  // sessions still open are left, as they were.
  lemma IssueExact(a: Accounts, token: Token, user: nat, ttlSecs: int, now: int)
    requires 0 < ttlSecs
    ensures var n := Issued(a, token, user, ttlSecs, now);
      if MayIssue(a, token, user, now) then
        && token in n.sessions && n.sessions[token].user == user && n.sessions[token].created == now
        && (forall at :: Valid(n, token, at) <==> at < now + ttlSecs * 1000)
        && n.users == a.users && (forall k | k != token :: k in n.sessions <==> k in OpenAt(a, now))
        && (forall k | k in OpenAt(a, now) :: n.sessions[k] == a.sessions[k])
      else n == a
  {
    var kept := Unexpired(a, now);
    assert kept.Keys == OpenAt(a, now) && |kept| == |kept.Keys|;
    assert OpenOf(kept, user, now) == OpenOf(a.sessions, user, now);
  }

  // The session is one the operation is meant to end.
  predicate Ends(a: Accounts, op: Op, k: Token)
    requires k in a.sessions
  {
    var s := a.sessions[k];
    match op
    case Disable(u) => s.user == u && s.revoked.None? && u in a.users && Updates(a, op, u)
    case SetRole(u, _) => s.user == u && s.revoked.None? && u in a.users && Updates(a, op, u)
    case ChangeCredential(u) => s.user == u && s.revoked.None? && u in a.users
    case RevokeToken(t) => k == t
    case RevokeUser(u) => s.user == u && s.revoked.None?
    case RevokeAll => s.revoked.None?
    case _ => false
  }

  function Ended(s: Session, now: int): Session { s.(revoked := Some(if now > s.created then now else s.created)) }

  // Every other operation but a renewal revokes exactly the sessions it is meant to end, no
  // earlier than they were created, and leaves all others as they are.
  lemma RevokesExactly(a: Accounts, op: Op, now: int, k: Token)
    requires OnlyRevokes(op)
    ensures var n := Do(a, op, now);
      && (k in n.sessions <==> k in a.sessions)
      && (k in a.sessions ==> n.sessions[k] == if Ends(a, op, k) then Ended(a.sessions[k], now) else a.sessions[k])
  {
  }

  // Half of the lifetime or more is used up.
  predicate Due(s: Session, ttlSecs: int, now: int) { 2 * (s.expires - now) <= ttlSecs * 1000 }

  // A renewal gives a valid token its full lifetime again exactly when half of it or more
  // is used up and access is granted; otherwise, and for every other session, nothing
  // changes. It never shortens a session, for any lifetime, also where sums saturate.
  lemma RenewalExtends(a: Accounts, token: Token, ttlSecs: int, access: bool, now: int)
    requires MIN_I64 <= now <= MAX_I64 && (token in a.sessions ==> a.sessions[token].expires <= MAX_I64)
    ensures var n := Renewed(a, token, ttlSecs, access, now);
      && n.users == a.users && n.sessions.Keys == a.sessions.Keys
      && (forall k | k in a.sessions && k != token :: n.sessions[k] == a.sessions[k])
      && (token in a.sessions ==> n.sessions[token].expires >= a.sessions[token].expires)
      && (forall k, at | at >= now :: Valid(a, k, at) ==> Valid(n, k, at))
    ensures 0 < ttlSecs && now + ttlSecs * 1000 <= MAX_I64 && ttlSecs * 1000 <= MAX_I64 ==>
      var n := Renewed(a, token, ttlSecs, access, now);
      if access && Valid(a, token, now) && Due(a.sessions[token], ttlSecs, now)
      then n.sessions[token] == a.sessions[token].(expires := now + ttlSecs * 1000)
      else n == a
  {
  }

  // ----- administrators -----

  // Taking one administrator away leaves another when there were two.
  lemma OtherAdmin(admins: set<nat>, u: nat) returns (x: nat)
    requires |admins| > 1
    ensures x in admins && x != u
  {
    var others := admins - {u};
    SubsetSize(admins, others + {u});
    assert |others + {u}| == |others| + 1;
    x :| x in others;
  }

  // Once there is an active administrator there always is one.
  lemma AdminRemains(a: Accounts, op: Op, now: int)
    requires Admins(a) != {}
    ensures Admins(Do(a, op, now)) != {}
  {
    var n := Do(a, op, now);
    if (op.Disable? || op.SetRole?) && op.user in Admins(a) && |Admins(a)| > 1 {
      var x := OtherAdmin(Admins(a), op.user);
      assert x in Admins(n);
    } else {
      var x :| x in Admins(a);
      assert x in Admins(n);
    }
  }

  lemma {:induction false} RunAdmin(s: State, steps: seq<Step>)
    requires Admins(s.accounts) != {}
    ensures Admins(End(s, steps).accounts) != {}
    decreases |steps|
  {
    if steps != [] {
      AdminRemains(s.accounts, steps[0].op, steps[0].now);
      RunAdmin(Next(s, steps[0]), steps[1..]);
    }
  }
}
