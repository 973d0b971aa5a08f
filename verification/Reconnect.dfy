// Coming back: who is let in by `init`, and that a connection once let in is brought up to
// date and made live by its own steps.
module Reconnect {
  import opened Lists
  import opened Revisions
  import opened Store
  import opened Pages
  import opened Hub
  import opened HubInv
  import opened HubRun
  import opened Convergence
  import opened Resume
  import Acknowledge
  import Delivery

  // ----- the boundary -----

  // The version of a vault is the uid of the last commit ever made to it.
  lemma VersionIsNewest(s: System, v: VaultId)
    requires TablesOk(s) && v in s.t.vaults
    ensures s.t.vaults[v].version == MaxUid(LogOf(s, v))
  {
    var rows, log := Rows(s.t, v), LogOf(s, v);
    VersionBound(s.t, v);
    assert FaithfulAt(s, v);
    if log != [] {
      var r := MaxUidIn(log);
      FilterSorted(s.log, InVault(v));
      LastIsHead(log, r.path);
      SameUid(log, r, Last(log, r.path).value);
      assert r in rows;
      var q := MaxUidIn(rows);
    }
  }

  // `init` lets in exactly the fresh clients and those that announce no version above the
  // last commit. One let in begins its replay at what it announced, with what it brought.
  lemma LetIn(s: System, k: nat, v: VaultId, initial: bool, version: nat, m: Mirror)
    requires SysInv(s) && Enabled(s, Connect(k, v, initial, version, m))
    ensures var n := Next(s, Connect(k, v, initial, version, m));
      && k in n.conns && (Open(n.conns[k]) <==> initial || version <= MaxUid(LogOf(s, v)))
      && n.t == s.t && n.log == s.log
      && var c := n.conns[k];
         && c.vault == v && c.initial == initial && c.start == (if initial then 0 else version) && c.brought == m
         && c.boundary == MaxUid(LogOf(s, v)) && (Open(c) ==> c.phase == Replaying)
  {
    VersionIsNewest(s, v);
  }

  // ----- a device never knows more than the server -----

  ghost predicate Behind(s: System, k: nat)
    requires k in s.conns
  {
    Open(s.conns[k]) ==> s.conns[k].ack <= MaxUid(LogOf(s, s.conns[k].vault))
  }

  ghost predicate AllBehind(s: System) {
    forall k {:trigger Behind(s, k)} | k in s.conns :: Behind(s, k)
  }

  lemma MaxUidGrows(log: seq<Rev>, more: seq<Rev>)
    requires forall r | r in log :: r in more
    ensures MaxUid(log) <= MaxUid(more)
  {
    if log != [] { var r := MaxUidIn(log); }
  }

  lemma LogGrows(s: System, step: Step, v: VaultId)
    requires SysInv(s) && Enabled(s, step)
    ensures MaxUid(LogOf(s, v)) <= MaxUid(LogOf(Next(s, step), v))
  {
    Delivery.StepLog(s, step);
    MaxUidGrows(LogOf(s, v), LogOf(Next(s, step), v));
  }

  lemma ReceivedBehind(c: Conn, q: Topic, log: seq<Rev>, alive: bool)
    requires QueueOk(c, q, log, alive) && c.next < q.tail && c.ack <= MaxUid(log)
    ensures Open(Received(c, q)) ==> Received(c, q).ack <= MaxUid(log)
  {
    if !Lagged(q, c.next) {
      QueueFront(c, q, log, alive);
      assert Changes(log, c.ack) != [] ==> Changes(log, c.ack)[0] in Changes(log, c.ack);
    }
  }

  lemma ReceiveBehind(s: System, k: nat)
    requires SysInv(s) && Enabled(s, Receive(k)) && Behind(s, k)
    ensures Behind(Next(s, Receive(k)), k)
  {
    var c := s.conns[k];
    assert ConnOk(s, k);
    ReceivedSame(c, s.topics[c.vault]);
    ReceivedBehind(c, s.topics[c.vault], LogOf(s, c.vault), c.vault in s.t.vaults);
  }

  // No other step moves what a connection has covered.
  lemma AckStays(s: System, step: Step, k: nat)
    requires Enabled(s, step) && k in Next(s, step).conns
    requires step != Receive(k) && !(step.Connect? && step.k == k)
    ensures k in s.conns
    ensures var c, d := s.conns[k], Next(s, step).conns[k];
      d.ack == c.ack && d.vault == c.vault && (Open(d) ==> Open(c))
  {
  }

  lemma ConnBehind(s: System, step: Step, k: nat)
    requires SysInv(s) && AllBehind(s) && Enabled(s, step) && k in Next(s, step).conns
    ensures Behind(Next(s, step), k)
  {
    if step == Receive(k) {
      assert Behind(s, k);
      ReceiveBehind(s, k);
    } else if step.Connect? && step.k == k {
      LetIn(s, k, step.v, step.initial, step.version, step.mirror);
    } else {
      AckStays(s, step, k);
      assert Behind(s, k);
      LogGrows(s, step, s.conns[k].vault);
    }
  }

  lemma StepBehind(s: System, step: Step)
    requires SysInv(s) && AllBehind(s) && Enabled(s, step)
    ensures AllBehind(Next(s, step))
  {
    forall k | k in Next(s, step).conns ensures Behind(Next(s, step), k) { ConnBehind(s, step, k); }
  }

  lemma {:induction false} RunBehind(s: System, steps: seq<Step>)
    requires SysInv(s) && AllBehind(s) && Runs(s, steps)
    ensures AllBehind(End(s, steps))
    decreases |steps|
  {
    if steps != [] {
      StepBehind(s, steps[0]);
      StepInv(s, steps[0]);
      RunBehind(Next(s, steps[0]), steps[1..]);
    }
  }

  lemma {:induction false} RunGrows(s: System, steps: seq<Step>, v: VaultId)
    requires SysInv(s) && Runs(s, steps)
    ensures MaxUid(LogOf(s, v)) <= MaxUid(LogOf(End(s, steps), v))
    decreases |steps|
  {
    if steps != [] {
      LogGrows(s, steps[0], v);
      StepInv(s, steps[0]);
      RunGrows(Next(s, steps[0]), steps[1..], v);
    }
  }

  lemma PositionBehind(s: System, k: nat)
    requires SysInv(s) && AllBehind(s) && k in s.conns && Open(s.conns[k])
    ensures Position(s.conns[k]) <= MaxUid(LogOf(s, s.conns[k].vault))
  {
    assert ConnOk(s, k) && Behind(s, k);
  }

  // ----- a replay ends -----

  function RowMsgs(rows: seq<Rev>): seq<Msg> { Map(rows, (r: Rev) => Row(r.uid)) }

  // The connection after the rest of its replay: every unsent row was sent and applied, in
  // order, and then `ready`.
  ghost predicate CaughtUp(c: Conn, rows: seq<Rev>, d: Conn) {
    && d.phase == Streaming && d.out == c.out + RowMsgs(Unsent(c, rows)) + [Ready(c.boundary)]
    && d.mirror == Replay(c.mirror, Unsent(c, rows))
    && d.vault == c.vault && d.initial == c.initial && d.start == c.start && d.brought == c.brought
    && d.boundary == c.boundary && d.ack == c.ack && d.next == c.next && d.waiting == c.waiting
  }

  // Steps a connection takes by itself: reading and sending pages, and receiving.
  ghost predicate Own(step: Step, k: nat) {
    (step.Fetch? || step.SendRow? || step.Finish? || step.Receive?) && step.k == k
  }

  lemma SentUnsent(c: Conn, rows: seq<Rev>)
    requires c.phase == Replaying && c.page != []
    ensures Unsent(c, rows) != [] && Unsent(c, rows)[0] == c.page[0] && Unsent(Sent(c), rows) == Unsent(c, rows)[1..]
  {
    CoveredStays(c);
    if !c.short { TailOfConcat(c.page, ReplayList(c.initial, rows, Covered(c), c.boundary)); }
  }

  lemma CoveredStays(c: Conn)
    requires c.page != []
    ensures Covered(Sent(c)) == Covered(c)
  {
    assert c.page[1..] != [] ==> c.page[1..][|c.page| - 2] == c.page[|c.page| - 1];
  }

  lemma TailOfConcat(a: seq<Rev>, b: seq<Rev>)
    requires a != []
    ensures (a + b)[0] == a[0] && (a + b)[1..] == a[1..] + b
  {
  }

  // A full page and what is read after it are together what was to be read.
  lemma FullPage(initial: bool, rows: seq<Rev>, after: nat, through: nat, n: nat)
    requires Sorted(rows) && 0 < n <= |ReplayList(initial, rows, after, through)|
    ensures var list := ReplayList(initial, rows, after, through);
      list[..n] + ReplayList(initial, rows, list[n - 1].uid, through) == list
  {
    var list := ReplayList(initial, rows, after, through);
    ReplayListSorted(initial, rows, after, through);
    assert list[n - 1] in list;
    ReplayListAfter(initial, rows, after, list[n - 1].uid, through);
    AfterPage(list, n);
    assert list == list[..n] + list[n..];
  }

  lemma ShortPage(c: Conn, rows: seq<Rev>, list: seq<Rev>)
    requires list == ReplayList(c.initial, rows, c.cursor, c.boundary) && |list| < REPLAY_PAGE_SIZE
    ensures Fetched(c, rows) == c.(page := list, short := true)
  {
  }

  lemma LongPage(c: Conn, rows: seq<Rev>, list: seq<Rev>)
    requires list == ReplayList(c.initial, rows, c.cursor, c.boundary) && |list| >= REPLAY_PAGE_SIZE
    ensures Fetched(c, rows) == c.(page := list[..REPLAY_PAGE_SIZE], short := false)
  {
    assert list[..REPLAY_PAGE_SIZE] == Take(list, REPLAY_PAGE_SIZE);
  }

  // Reading a page changes nothing in what is still to be sent.
  lemma FetchedUnsent(c: Conn, rows: seq<Rev>)
    requires Sorted(rows) && c.phase == Replaying && c.page == [] && !c.short
    ensures Unsent(Fetched(c, rows), rows) == Unsent(c, rows)
    ensures Fetched(c, rows).short || Fetched(c, rows).page != []
  {
    var list := ReplayList(c.initial, rows, c.cursor, c.boundary);
    assert Unsent(c, rows) == [] + list == list;
    if |list| < REPLAY_PAGE_SIZE {
      ShortPage(c, rows, list);
    } else {
      LongPage(c, rows, list);
      FullPage(c.initial, rows, c.cursor, c.boundary, REPLAY_PAGE_SIZE);
    }
  }

  lemma MsgsCons(out: seq<Msg>, rows: seq<Rev>, last: Msg)
    requires rows != []
    ensures out + RowMsgs(rows) + [last] == (out + [Row(rows[0].uid)]) + RowMsgs(rows[1..]) + [last]
  {
    assert RowMsgs(rows) == [Row(rows[0].uid)] + RowMsgs(rows[1..]);
  }

  lemma ReplayCons(m: Mirror, rows: seq<Rev>)
    requires rows != []
    ensures Replay(m, rows) == Replay(Apply(m, rows[0]), rows[1..])
  {
    assert rows == [rows[0]] + rows[1..];
    ReplayConcat(m, [rows[0]], rows[1..]);
    assert Replay(m, [rows[0]]) == Apply(m, rows[0]);
  }

  lemma SentCaughtUp(c: Conn, rows: seq<Rev>, d: Conn)
    requires c.phase == Replaying && c.page != [] && CaughtUp(Sent(c), rows, d)
    ensures CaughtUp(c, rows, d)
  {
    SentUnsent(c, rows);
    MsgsCons(c.out, Unsent(c, rows), Ready(c.boundary));
    ReplayCons(c.mirror, Unsent(c, rows));
  }

  lemma FinishedCaughtUp(c: Conn, rows: seq<Rev>)
    requires c.phase == Replaying && c.page == [] && c.short
    ensures CaughtUp(c, rows, Finished(c))
  {
    assert Unsent(c, rows) == [] && c.out + RowMsgs([]) + [Ready(c.boundary)] == c.out + [Ready(c.boundary)];
  }

  // What a turn of the replay brings nearer.
  function Stage(c: Conn): nat { if c.short then 0 else if c.page != [] then 1 else 2 }

  function Turned(c: Conn, rows: seq<Rev>): Conn {
    if c.page != [] then Sent(c) else if c.short then Finished(c) else Fetched(c, rows)
  }

  function Turn(c: Conn, k: nat): Step { if c.page != [] then SendRow(k) else if c.short then Finish(k) else Fetch(k) }

  lemma TurnTaken(s: System, k: nat)
    requires k in s.conns && s.conns[k].phase == Replaying
    ensures var c := s.conns[k];
      && Enabled(s, Turn(c, k)) && Own(Turn(c, k), k)
      && Next(s, Turn(c, k)) == s.(conns := s.conns[k := Turned(c, Rows(s.t, c.vault))])
  {
  }

  lemma TurnNearer(c: Conn, rows: seq<Rev>, d: Conn)
    requires Sorted(rows) && c.phase == Replaying && (c.page != [] || !c.short)
    ensures var e := Turned(c, rows);
      && e.phase == Replaying
      && (|Unsent(e, rows)| < |Unsent(c, rows)| || (|Unsent(e, rows)| == |Unsent(c, rows)| && Stage(e) < Stage(c)))
      && (CaughtUp(e, rows, d) ==> CaughtUp(c, rows, d))
  {
    if c.page != [] {
      SentUnsent(c, rows);
      if CaughtUp(Sent(c), rows, d) { SentCaughtUp(c, rows, d); }
    } else {
      FetchedUnsent(c, rows);
    }
  }

  // A run of the connection's own steps that changes only the connection.
  ghost predicate Leads(s: System, k: nat, steps: seq<Step>, d: Conn) {
    && Runs(s, steps) && (forall e | e in steps :: Own(e, k))
    && k in s.conns && End(s, steps) == s.(conns := s.conns[k := d])
  }

  lemma LeadsOne(s: System, k: nat, step: Step, d: Conn)
    requires Enabled(s, step) && Own(step, k) && k in s.conns && Next(s, step) == s.(conns := s.conns[k := d])
    ensures Leads(s, k, [step], d)
  {
    assert [step][1..] == [] && End(Next(s, step), []) == Next(s, step);
  }

  lemma LeadsCons(s: System, k: nat, step: Step, e: Conn, rest: seq<Step>, d: Conn)
    requires Enabled(s, step) && Own(step, k) && k in s.conns && Next(s, step) == s.(conns := s.conns[k := e])
    requires Leads(Next(s, step), k, rest, d)
    ensures Leads(s, k, [step] + rest, d)
  {
    assert ([step] + rest)[1..] == rest && s.conns[k := e][k := d] == s.conns[k := d];
  }

  // By its own steps alone every replay ends in `ready`, with exactly the unsent rows sent.
  lemma {:induction false} ReplayEnds(s: System, k: nat) returns (steps: seq<Step>, d: Conn)
    requires Sorted(s.t.revisions) && k in s.conns && s.conns[k].phase == Replaying
    ensures Leads(s, k, steps, d) && CaughtUp(s.conns[k], Rows(s.t, s.conns[k].vault), d)
    decreases |Unsent(s.conns[k], Rows(s.t, s.conns[k].vault))|, Stage(s.conns[k])
  {
    var c := s.conns[k];
    var rows := Rows(s.t, c.vault);
    var step, e := Turn(c, k), Turned(c, rows);
    TurnTaken(s, k);
    FilterSorted(s.t.revisions, InVault(c.vault));
    if c.page == [] && c.short {
      steps, d := [step], e;
      FinishedCaughtUp(c, rows);
      LeadsOne(s, k, step, e);
    } else {
      TurnNearer(c, rows, e);
      var rest: seq<Step>;
      rest, d := ReplayEnds(Next(s, step), k);
      TurnNearer(c, rows, d);
      steps := [step] + rest;
      LeadsCons(s, k, step, e, rest, d);
    }
  }

  // ----- a queue is drained -----

  ghost predicate SameClient(c: Conn, d: Conn) {
    d.vault == c.vault && d.initial == c.initial && d.start == c.start && d.brought == c.brought
  }

  // While the vault exists and the receiver has not lagged, receiving does not close.
  lemma ReceiveOpen(s: System, k: nat)
    requires SysInv(s) && InStep(s, k) && s.conns[k].phase == Streaming
    requires s.conns[k].vault in s.topics && s.conns[k].next < s.topics[s.conns[k].vault].tail
    ensures var c := s.conns[k]; var d := Received(c, s.topics[c.vault]);
      && Enabled(s, Receive(k)) && Next(s, Receive(k)) == s.(conns := s.conns[k := d])
      && d.phase == Streaming && d.next == c.next + 1 && SameClient(c, d)
  {
    var c := s.conns[k];
    var q, log := s.topics[c.vault], LogOf(s, c.vault);
    assert ConnOk(s, k);
    FilterSorted(s.log, InVault(c.vault));
    QueueFront(c, q, log, true);
    FirstAbove(log, c.boundary, c.ack);
    ReceivedShape(c, q, log, Changes(log, c.ack)[0]);
  }

  lemma LeadsNone(s: System, k: nat)
    requires k in s.conns
    ensures Leads(s, k, [], s.conns[k])
  {
    assert s.conns[k := s.conns[k]] == s.conns;
  }

  lemma {:induction false} Drains(s: System, k: nat) returns (steps: seq<Step>, d: Conn)
    requires SysInv(s) && InStep(s, k) && s.conns[k].phase == Streaming && s.conns[k].vault in s.topics
    requires s.conns[k].next <= s.topics[s.conns[k].vault].tail
    ensures Leads(s, k, steps, d) && d.phase == Streaming && SameClient(s.conns[k], d)
    ensures d.next == s.topics[d.vault].tail
    decreases s.topics[s.conns[k].vault].tail - s.conns[k].next
  {
    var c := s.conns[k];
    if c.next == s.topics[c.vault].tail {
      steps, d := [], c;
      LeadsNone(s, k);
    } else {
      var e := Received(c, s.topics[c.vault]);
      ReceiveOpen(s, k);
      StepInv(s, Receive(k));
      var rest: seq<Step>;
      rest, d := Drains(Next(s, Receive(k)), k);
      steps := [Receive(k)] + rest;
      LeadsCons(s, k, Receive(k), e, rest, d);
    }
  }

  lemma LeadsJoin(s: System, k: nat, a: seq<Step>, e: Conn, b: seq<Step>, d: Conn)
    requires Leads(s, k, a, e) && Leads(End(s, a), k, b, d)
    ensures Leads(s, k, a + b, d)
  {
    RunJoin(s, a, b);
    assert s.conns[k := e][k := d] == s.conns[k := d];
  }

  lemma DrainedWaits(c: Conn, q: Topic, log: seq<Rev>)
    requires QueueOk(c, q, log, true) && WaitOk(c, log) && c.next == q.tail
    ensures c.waiting == None
  {
    DrainedQueue(c, q, log, true);
    assert forall r | r in log :: c.ack < r.uid ==> r in Changes(log, c.ack);
  }

  // Whenever an open connection to an existing vault has not lagged, its own steps make it
  // live with nothing queued and nothing awaited, and its mirror is then the live state if
  // and only if the client came sound.
  lemma BecomesLive(s: System, k: nat) returns (steps: seq<Step>, d: Conn)
    requires SysInv(s) && InStep(s, k)
    ensures Leads(s, k, steps, d) && d.phase == Streaming && d.waiting == None && SameClient(s.conns[k], d)
    ensures var c := s.conns[k];
      d.mirror == Live(Rows(s.t, c.vault)) <==> Sound(c.brought, c.start, LogOf(s, c.vault))
  {
    var c := s.conns[k];
    var first, e := [], c;
    assert ConnOk(s, k);
    if c.phase == Replaying { first, e := ReplayEnds(s, k); } else { LeadsNone(s, k); }
    RunInv(s, first);
    var rest: seq<Step>;
    rest, d := Drains(End(s, first), k);
    steps := first + rest;
    LeadsJoin(s, k, first, e, rest, d);
    LiveAtEnd(s, k, steps, d);
  }

  lemma LiveAtEnd(s: System, k: nat, steps: seq<Step>, d: Conn)
    requires SysInv(s) && k in s.conns && Leads(s, k, steps, d) && SameClient(s.conns[k], d) && d.phase == Streaming
    requires d.vault in s.t.vaults && d.vault in s.topics && d.next == s.topics[d.vault].tail
    ensures d.waiting == None
    ensures d.mirror == Live(Rows(s.t, d.vault)) <==> Sound(d.brought, d.start, LogOf(s, d.vault))
  {
    RunInv(s, steps);
    DrainedConn(End(s, steps), k);
    assert ConnOk(End(s, steps), k);
    DrainedWaits(d, s.topics[d.vault], LogOf(s, d.vault));
  }

  // ----- a commit is answered -----

  ghost predicate AwaitsCommit(s: System, n: System, k: nat, row: Rev) {
    && n.log == s.log + [row]
    && k in s.conns && n.conns == s.conns[k := s.conns[k].(waiting := Some(row.uid))]
  }

  // An accepted command is stored and announced as one commit, and the connection waits for
  // exactly that one; a refused command changes nothing.
  lemma MutateWaits(s: System, k: nat, command: Command)
    requires SysInv(s) && Enabled(s, Mutate(k, command))
    ensures var (t, row) := Execute(s.t, command); var n := Next(s, Mutate(k, command));
      if row.Some? then n.t == t && Commits(s.t, t, row.value) && AwaitsCommit(s, n, k, row.value) else n == s
  {
    ExecuteCommits(s.t, command);
  }

  // Its own receives bring a waiting connection exactly the notices due and its `ok`.
  lemma {:induction false} AckArrives(s: System, k: nat) returns (steps: seq<Step>, d: Conn)
    requires SysInv(s) && InStep(s, k) && s.conns[k].phase == Streaming && s.conns[k].waiting.Some?
    ensures Leads(s, k, steps, d) && d.phase == Streaming && d.waiting == None
    ensures d.out == s.conns[k].out + Acknowledge.Due(s.conns[k], LogOf(s, s.conns[k].vault))
    decreases Delivery.Remaining(s.conns[k], LogOf(s, s.conns[k].vault))
  {
    var c := s.conns[k];
    assert ConnOk(s, k);
    var q, log := s.topics[c.vault], LogOf(s, c.vault);
    FilterSorted(s.log, InVault(c.vault));
    Acknowledge.Turn(c, q, log, true);
    ReceiveOpen(s, k);
    var e := Received(c, q);
    if e.waiting.None? {
      steps, d := [Receive(k)], e;
      LeadsOne(s, k, Receive(k), e);
    } else {
      StepInv(s, Receive(k));
      var rest: seq<Step>;
      rest, d := AckArrives(Next(s, Receive(k)), k);
      steps := [Receive(k)] + rest;
      LeadsCons(s, k, Receive(k), e, rest, d);
    }
  }

  // ----- let in, and live -----

  // A connection that `init` lets in, left to itself, becomes live, and then its mirror is
  // the live state if and only if the client came sound; a fresh client always does.
  lemma CatchesUp(s: System, k: nat, v: VaultId, initial: bool, version: nat, m: Mirror)
    returns (steps: seq<Step>, d: Conn)
    requires SysInv(s) && Enabled(s, Connect(k, v, initial, version, m))
    requires initial || version <= MaxUid(LogOf(s, v))
    ensures Leads(Next(s, Connect(k, v, initial, version, m)), k, steps, d) && d.phase == Streaming
    ensures initial ==> d.mirror == Live(Rows(s.t, v))
    ensures d.mirror == Live(Rows(s.t, v)) <==> Sound(m, if initial then 0 else version, LogOf(s, v))
  {
    var n := Next(s, Connect(k, v, initial, version, m));
    LetIn(s, k, v, initial, version, m);
    StepInv(s, Connect(k, v, initial, version, m));
    steps, d := ReplayEnds(n, k);
    RunInv(n, steps);
    ConnectTail(s, k, v, initial, version, m);
    DrainedConn(End(n, steps), k);
  }

  lemma ConnectTail(s: System, k: nat, v: VaultId, initial: bool, version: nat, m: Mirror)
    requires Enabled(s, Connect(k, v, initial, version, m))
    ensures var n := Next(s, Connect(k, v, initial, version, m)); v in n.topics && n.conns[k].next == n.topics[v].tail
  {
  }

  // A device cut off at any moment of any run is let in whenever it comes back while its
  // vault exists, with its mirror and its position, and its own steps then make it live
  // with exactly the live state.
  lemma ComesBack(before: seq<Step>, after: seq<Step>, k: nat, j: nat) returns (steps: seq<Step>, d: Conn)
    requires Runs(Boot, before) && Runs(End(Boot, before), after)
    requires var s := End(Boot, before);
      k in s.conns && Open(s.conns[k]) && s.conns[k].vault in s.t.vaults && CameSound(s, s.conns[k])
    requires var c, n := End(Boot, before).conns[k], End(End(Boot, before), after);
      c.vault in n.t.vaults && j !in n.conns
    ensures var c, n := End(Boot, before).conns[k], End(End(Boot, before), after);
      var connect := Connect(j, c.vault, false, Position(c), c.mirror);
      && Position(c) <= MaxUid(LogOf(n, c.vault)) && Enabled(n, connect) && Open(Next(n, connect).conns[j])
      && Leads(Next(n, connect), j, steps, d)
      && d.phase == Streaming && d.mirror == Live(Rows(n.t, c.vault))
  {
    var s := End(Boot, before);
    var c, n := s.conns[k], End(s, after);
    var connect := Connect(j, c.vault, false, Position(c), c.mirror);
    BootRun(before);
    RunBehind(Boot, before);
    PositionBehind(s, k);
    RunGrows(s, after, c.vault);
    MirrorSound(s, k);
    SoundRun(s, after, c.vault, c.mirror, Position(c));
    RunInv(s, after);
    LetIn(n, j, c.vault, false, Position(c), c.mirror);
    steps, d := CatchesUp(n, j, c.vault, false, Position(c), c.mirror);
  }
}
