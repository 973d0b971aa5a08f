// What each connection is sent: every commit once and in order, and acknowledgements
// behind every earlier notice.
module Delivery {
  import opened Lists
  import opened Revisions
  import opened Store
  import opened Hub
  import opened HubInv
  import opened HubRun
  import opened Convergence

  lemma {:induction false} RevsBeforeInvalidation(rows: seq<Rev>)
    ensures Revs(Notices(rows) + [Invalidated]) == rows
  {
    RevsOfNotices(rows);
    assert (Notices(rows) + [Invalidated])[..|rows|] == Notices(rows);
  }

  lemma BetweenAbove(log: seq<Rev>, b: nat, ack: nat)
    requires Sorted(log) && b <= ack
    ensures Filter(log, Between(b, ack)) + Filter(log, Above(ack)) == Filter(log, Above(b))
  {
    FilterSorted(log, Between(b, ack));
    FilterSorted(log, Above(ack));
    FilterSorted(log, Above(b));
    SortedConcat(Filter(log, Between(b, ack)), Filter(log, Above(ack)), ack);
    SortedUnique(Filter(log, Between(b, ack)) + Filter(log, Above(ack)), Filter(log, Above(b)));
  }

  lemma UidsConcat(a: seq<Rev>, b: seq<Rev>)
    ensures UidList(a + b) == UidList(a) + UidList(b)
  {
  }

  // Exactly once: on every connection, open or closed, uids rise across replay and live
  // notices, and the live notices are precisely the commits from the boundary up to the
  // last one covered; on an open connection that has not lagged the queue holds
  // precisely the rest.
  lemma ExactlyOnce(steps: seq<Step>, k: nat)
    requires Runs(Boot, steps) && k in End(Boot, steps).conns
    ensures var s := End(Boot, steps); var c := s.conns[k];
      && Rising(SentUids(c.out))
      && Delivered(c.out) == UidList(Filter(LogOf(s, c.vault), Between(c.boundary, c.ack)))
      && (Open(c) ==> c.vault in s.topics && c.next <= s.topics[c.vault].tail)
      && (Open(c) && !Lagged(s.topics[c.vault], c.next) ==>
            Delivered(c.out) + UidList(Revs(Queue(s.topics[c.vault], c.next)))
              == UidList(Filter(LogOf(s, c.vault), Above(c.boundary))))
  {
    var s := End(Boot, steps);
    BootRun(steps);
    assert ConnOk(s, k);
    var c := s.conns[k];
    FilterSorted(s.log, InVault(c.vault));
    if Open(c) && !Lagged(s.topics[c.vault], c.next) {
      NothingMissing(c, s.topics[c.vault], LogOf(s, c.vault), c.vault in s.t.vaults);
    }
  }

  lemma NothingMissing(c: Conn, q: Topic, log: seq<Rev>, alive: bool)
    requires Sorted(log) && c.boundary <= c.ack && QueueOk(c, q, log, alive) && !Lagged(q, c.next)
    requires Delivered(c.out) == UidList(Filter(log, Between(c.boundary, c.ack)))
    ensures Delivered(c.out) + UidList(Revs(Queue(q, c.next))) == UidList(Filter(log, Above(c.boundary)))
  {
    QueuedChanges(c, q, log, alive);
    BetweenAbove(log, c.boundary, c.ack);
    UidsConcat(Filter(log, Between(c.boundary, c.ack)), Changes(log, c.ack));
  }

  lemma QueuedChanges(c: Conn, q: Topic, log: seq<Rev>, alive: bool)
    requires QueueOk(c, q, log, alive) && !Lagged(q, c.next)
    ensures Revs(Queue(q, c.next)) == Changes(log, c.ack)
  {
    var above := Changes(log, c.ack);
    RevsOfNotices(above);
    RevsBeforeInvalidation(above);
    assert Notices(above) + [] == Notices(above);
  }

  // ----- acknowledgements -----

  // The notices a connection has still to receive before its own commit is acknowledged.
  function Remaining(c: Conn, log: seq<Rev>): nat {
    if !Open(c) || c.waiting.None? then 0 else |Filter(log, Between(c.ack, c.waiting.value))|
  }

  lemma RemainingPositive(c: Conn, log: seq<Rev>)
    requires Open(c) && WaitOk(c, log) && c.waiting.Some?
    ensures Remaining(c, log) > 0
  {
    var w :| w in log && w.uid == c.waiting.value;
    assert w in Filter(log, Between(c.ack, c.waiting.value));
  }

  lemma AckQueued(c: Conn, q: Topic, log: seq<Rev>, alive: bool)
    requires WaitOk(c, log) && c.waiting.Some? && QueueOk(c, q, log, alive)
    ensures c.next < q.tail && Changes(log, c.ack) != []
  {
    var w :| w in log && w.uid == c.waiting.value;
    assert w in Changes(log, c.ack);
    assert !Lagged(q, c.next) ==> |Queue(q, c.next)| >= |Changes(log, c.ack)|;
  }

  lemma AckReceived(c: Conn, q: Topic, log: seq<Rev>, alive: bool)
    requires Sorted(log) && WaitOk(c, log) && c.waiting.Some? && QueueOk(c, q, log, alive) && Open(c)
    requires c.next < q.tail && !Lagged(q, c.next)
    ensures var d := Received(c, q);
      && Remaining(d, log) < Remaining(c, log)
      && (d.waiting.None? ==> d.out == c.out + [Change(c.waiting.value), Ok(c.waiting.value)])
  {
    AckQueued(c, q, log, alive);
    QueueFront(c, q, log, alive);
    FirstAbove(log, c.ack, c.ack);
    var r := Changes(log, c.ack)[0];
    ReceivedShape(c, q, log, r);
    var w :| w in log && w.uid == c.waiting.value;
    FewerLeft(log, c.ack, r, c.waiting.value);
  }

  // Receiving is always possible while a connection waits for its own commit, and every
  // turn of that loop brings it nearer, acknowledges it or closes the connection.
  lemma AckTurn(s: System, k: nat)
    requires SysInv(s) && k in s.conns && s.conns[k].phase == Streaming && s.conns[k].waiting.Some?
    ensures Enabled(s, Receive(k))
    ensures var c, d := s.conns[k], Next(s, Receive(k)).conns[k];
      && Remaining(d, LogOf(s, c.vault)) < Remaining(c, LogOf(s, c.vault))
      && (Open(d) && d.waiting.None? ==> d.out == c.out + [Change(c.waiting.value), Ok(c.waiting.value)])
  {
    var c := s.conns[k];
    assert ConnOk(s, k);
    var q, log, alive := s.topics[c.vault], LogOf(s, c.vault), c.vault in s.t.vaults;
    FilterSorted(s.log, InVault(c.vault));
    AckQueued(c, q, log, alive);
    RemainingPositive(c, log);
    if !Lagged(q, c.next) { AckReceived(c, q, log, alive); }
  }

  lemma FewerLeft(log: seq<Rev>, ack: nat, r: Rev, u: nat)
    requires r in log && ack < r.uid <= u
    ensures |Filter(log, Between(r.uid, u))| < |Filter(log, Between(ack, u))|
  {
    FilterSplit(log, Between(ack, u), Between(r.uid, u), Between(ack, r.uid));
    assert r in Filter(log, Between(ack, r.uid));
  }

  // Every step but its own receive leaves a waiting connection alone or closes it.
  lemma OthersKeep(s: System, step: Step, k: nat)
    requires Enabled(s, step) && step != Receive(k) && k in s.conns
    requires s.conns[k].phase == Streaming && s.conns[k].waiting.Some?
    ensures var c, n := s.conns[k], Next(s, step);
      k in n.conns && (n.conns[k] == c || n.conns[k] == c.(phase := Closed))
  {
  }

  ghost predicate LogGrows(s: System, n: System) {
    n.log == s.log || (|n.log| == |s.log| + 1 && n.log[..|s.log|] == s.log && n.log[|s.log|].uid == s.t.sequence + 1)
  }

  lemma StepLog(s: System, step: Step)
    requires SysInv(s) && Enabled(s, step)
    ensures LogGrows(s, Next(s, step))
  {
    if step.Mutate? {
      ExecuteCommits(s.t, step.command);
    }
  }

  lemma LaterRows(s: System, n: System, v: VaultId, b: nat, u: nat)
    requires LogGrows(s, n) && u <= s.t.sequence
    ensures Filter(LogOf(n, v), Between(b, u)) == Filter(LogOf(s, v), Between(b, u))
  {
    if n.log != s.log {
      var row := n.log[|s.log|];
      assert n.log == s.log + [row];
      RowsSnoc(s.log, row, v);
      FilterSnoc(LogOf(s, v), row, Between(b, u));
    }
  }

  lemma WaitsBelow(s: System, k: nat)
    requires SysInv(s) && k in s.conns && Open(s.conns[k]) && s.conns[k].waiting.Some?
    ensures s.conns[k].waiting.value <= s.t.sequence
  {
    assert ConnOk(s, k);
    var w :| w in LogOf(s, s.conns[k].vault) && w.uid == s.conns[k].waiting.value;
  }

  // No step of anyone else moves the acknowledgement further away.
  lemma AckNotDelayed(s: System, step: Step, k: nat)
    requires SysInv(s) && Enabled(s, step) && k in s.conns && step != Receive(k)
    requires s.conns[k].phase == Streaming && s.conns[k].waiting.Some?
    ensures k in Next(s, step).conns && Next(s, step).conns[k].vault == s.conns[k].vault
    ensures var c, n := s.conns[k], Next(s, step);
      Remaining(n.conns[k], LogOf(n, c.vault)) <= Remaining(c, LogOf(s, c.vault))
  {
    var c, n := s.conns[k], Next(s, step);
    OthersKeep(s, step, k);
    StepLog(s, step);
    WaitsBelow(s, k);
    LaterRows(s, n, c.vault, c.ack, c.waiting.value);
  }

  // ----- order -----

  lemma {:induction false} SentIn(out: seq<Msg>, i: nat)
    requires i < |out| && (out[i].Row? || out[i].Change?)
    ensures out[i].uid in SentUids(out)
  {
    OutSnoc(out[..|out| - 1], out[|out| - 1]);
    assert out == out[..|out| - 1] + [out[|out| - 1]];
    if i < |out| - 1 { SentIn(out[..|out| - 1], i); }
  }

  lemma {:induction false} SentOrder(out: seq<Msg>, i: nat, j: nat)
    requires i < j < |out| && Rising(SentUids(out))
    requires (out[i].Row? || out[i].Change?) && (out[j].Row? || out[j].Change?)
    ensures out[i].uid < out[j].uid
  {
    var rest, m := out[..|out| - 1], out[|out| - 1];
    assert out == rest + [m];
    OutSnoc(rest, m);
    RisingInit(SentUids(rest), SentUids(out));
    if j < |rest| {
      SentOrder(rest, i, j);
    } else {
      SentIn(rest, i);
      var n :| 0 <= n < |SentUids(rest)| && SentUids(rest)[n] == out[i].uid;
      assert SentUids(out)[n] == out[i].uid && SentUids(out)[|SentUids(rest)|] == m.uid;
    }
  }

  lemma RisingInit(a: seq<nat>, b: seq<nat>)
    requires Rising(b) && a <= b
    ensures Rising(a)
  {
    forall i, j | 0 <= i < j < |a| ensures a[i] < a[j] { assert a[i] == b[i] && a[j] == b[j]; }
  }

  lemma {:induction false} DeliveredAt(out: seq<Msg>, u: nat) returns (i: nat)
    requires u in Delivered(out)
    ensures i < |out| && out[i] == Change(u)
  {
    var rest, m := out[..|out| - 1], out[|out| - 1];
    assert out == rest + [m];
    OutSnoc(rest, m);
    if m == Change(u) { i := |out| - 1; } else { i := DeliveredAt(rest, u); }
  }

  // In every run an acknowledgement of commit u comes after the notice of u and of every
  // commit to the vault between the connection's boundary and u.
  lemma AckAfterEarlierNotices(steps: seq<Step>, k: nat, i: nat, r: Rev)
    requires Runs(Boot, steps) && k in End(Boot, steps).conns
    requires var s := End(Boot, steps); var c := s.conns[k];
      && i < |c.out| && c.out[i].Ok? && r in LogOf(s, c.vault) && c.boundary < r.uid <= c.out[i].uid
    ensures Change(r.uid) in End(Boot, steps).conns[k].out[..i]
  {
    var s := End(Boot, steps);
    BootRun(steps);
    assert ConnOk(s, k);
    var c, log := s.conns[k], LogOf(s, s.conns[k].vault);
    SentIn(c.out, i - 1);
    var told := Filter(log, Between(c.boundary, c.ack));
    assert c.out[i].uid <= c.ack;
    assert r in told;
    var n :| 0 <= n < |told| && told[n] == r;
    assert UidList(told)[n] == r.uid;
    var j := DeliveredAt(c.out, r.uid);
    if i <= j { SentOrder(c.out, i - 1, j); }
    assert c.out[..i][j] == Change(r.uid);
  }
}
