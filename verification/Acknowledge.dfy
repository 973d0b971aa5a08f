// The loop that acknowledges a connection's own commit.
module Acknowledge {
  import opened Lists
  import opened Revisions
  import opened Hub
  import opened HubInv
  import opened HubRun
  import opened Convergence
  import opened Delivery

  function Told(rows: seq<Rev>): seq<Msg> { Map(rows, (r: Rev) => Change(r.uid)) }

  // A connection that waits for its commit, ahead of it in the queue.
  ghost predicate Waits(c: Conn, q: Topic, log: seq<Rev>, alive: bool) {
    && Sorted(log) && c.phase == Streaming && c.waiting.Some? && WaitOk(c, log) && QueueOk(c, q, log, alive)
  }

  function Due(c: Conn, log: seq<Rev>): seq<Msg>
    requires c.waiting.Some?
  {
    Told(Filter(log, Between(c.ack, c.waiting.value))) + [Ok(c.waiting.value)]
  }

  lemma DueFirst(log: seq<Rev>, ack: nat, r: Rev, w: nat)
    requires Sorted(log) && r in log && ack < r.uid <= w && forall x | x in log :: ack < x.uid ==> r.uid <= x.uid
    ensures Filter(log, Between(ack, w)) == [r] + Filter(log, Between(r.uid, w))
  {
    FilterSorted(log, Between(ack, w));
    FilterSorted(log, Between(r.uid, w));
    SortedConcat([r], Filter(log, Between(r.uid, w)), r.uid);
    forall x | x in log && Between(ack, w)(x) && x.uid == r.uid ensures x == r { SameUid(log, x, r); }
    SortedUnique(Filter(log, Between(ack, w)), [r] + Filter(log, Between(r.uid, w)));
  }

  // One turn sends the first notice that is due, and `ok` right behind the last.
  lemma Turn(c: Conn, q: Topic, log: seq<Rev>, alive: bool)
    requires Waits(c, q, log, alive) && !Lagged(q, c.next)
    ensures c.next < q.tail
    ensures var d := Received(c, q);
      && d.phase == Streaming && !d.skipped && d.next == c.next + 1 && Remaining(d, log) < Remaining(c, log)
      && if d.waiting.None? then d.out == c.out + Due(c, log) && d.ack == c.waiting.value && QueueOk(d, q, log, alive)
         else d.waiting == c.waiting && Waits(d, q, log, alive) && d.out + Due(d, log) == c.out + Due(c, log)
  {
    AckQueued(c, q, log, alive);
    QueueFront(c, q, log, alive);
    FirstAbove(log, c.ack, c.ack);
    var r, w := Changes(log, c.ack)[0], c.waiting.value;
    ReceivedShape(c, q, log, r);
    AckReceived(c, q, log, alive);
    DueFirst(log, c.ack, r, w);
    DueText(c, log, r);
    if r.uid == w { FilterNone(log, Between(w, w)); }
  }

  lemma DueText(c: Conn, log: seq<Rev>, r: Rev)
    requires c.waiting.Some?
    requires Filter(log, Between(c.ack, c.waiting.value)) == [r] + Filter(log, Between(r.uid, c.waiting.value))
    ensures c.out + Due(c, log) ==
            c.out + [Change(r.uid)] + (Told(Filter(log, Between(r.uid, c.waiting.value))) + [Ok(c.waiting.value)])
  {
    var rest := Filter(log, Between(r.uid, c.waiting.value));
    assert Told([r] + rest) == [Change(r.uid)] + Told(rest);
  }

  // ----- commits of others while the loop waits -----

  function Grown(q: Topic, rows: seq<Rev>): Topic {
    if rows == [] then q else Send(Grown(q, rows[..|rows| - 1]), Notice(rows[|rows| - 1]))
  }

  // Commits of other connections arrive above everything logged before.
  ghost predicate Follow(rows: seq<Rev>, log: seq<Rev>) {
    Sorted(rows) && forall r, q | r in rows && q in log :: q.uid < r.uid
  }

  lemma GrowOnce(c: Conn, q: Topic, log: seq<Rev>, r: Rev)
    requires Waits(c, q, log, true) && RingOk(q) && forall x | x in log :: x.uid < r.uid
    ensures Waits(c, Send(q, Notice(r)), log + [r], true) && RingOk(Send(q, Notice(r)))
    ensures Due(c, log + [r]) == Due(c, log) && Remaining(c, log + [r]) == Remaining(c, log)
  {
    var w :| w in log && w.uid == c.waiting.value;
    SortedSnoc(log, r);
    CommittedQueue(c, q, log, r);
    CommittedWait(c, log, r);
    FilterSnoc(log, r, Between(c.ack, c.waiting.value));
  }

  lemma {:induction false} Grow(c: Conn, q: Topic, log: seq<Rev>, rows: seq<Rev>)
    requires Waits(c, q, log, true) && RingOk(q) && Follow(rows, log)
    ensures Waits(c, Grown(q, rows), log + rows, true) && RingOk(Grown(q, rows))
    ensures Due(c, log + rows) == Due(c, log) && Remaining(c, log + rows) == Remaining(c, log)
    decreases |rows|
  {
    if rows == [] {
      assert log + rows == log;
    } else {
      var before, r := rows[..|rows| - 1], rows[|rows| - 1];
      assert rows == before + [r];
      Grow(c, q, log, before);
      assert log + rows == (log + before) + [r];
      GrowOnce(c, Grown(q, before), log + before, r);
    }
  }

  // A vault deleted or replaced during the wait announces it behind every commit.
  lemma Invalidate(c: Conn, q: Topic, log: seq<Rev>)
    requires Waits(c, q, log, true) && RingOk(q)
    ensures Waits(c, Send(q, Invalidated), log, false) && RingOk(Send(q, Invalidated))
  {
    SendQueue(q, c.next, Invalidated);
  }

  // What is published before a turn: commits of others, then perhaps the vault's end.
  datatype Arrival = Arrival(rows: seq<Rev>, gone: bool)

  function Published(q: Topic, a: Arrival): Topic {
    var g := Grown(q, a.rows);
    if a.gone then Send(g, Invalidated) else g
  }

  // `arrivals[i]` come before turn i, and nothing comes after the vault's end.
  ghost predicate Later(arrivals: seq<Arrival>, log: seq<Rev>, alive: bool)
    decreases |arrivals|
  {
    arrivals == [] ||
    (&& Follow(arrivals[0].rows, log) && (!alive ==> arrivals[0] == Arrival([], false))
     && Later(arrivals[1..], log + arrivals[0].rows, alive && !arrivals[0].gone))
  }

  lemma Publishes(c: Conn, q: Topic, log: seq<Rev>, alive: bool, a: Arrival)
    requires Waits(c, q, log, alive) && RingOk(q) && Follow(a.rows, log) && (!alive ==> a == Arrival([], false))
    ensures Waits(c, Published(q, a), log + a.rows, alive && !a.gone) && RingOk(Published(q, a))
    ensures Due(c, log + a.rows) == Due(c, log) && Remaining(c, log + a.rows) == Remaining(c, log)
  {
    if alive {
      Grow(c, q, log, a.rows);
      if a.gone { Invalidate(c, Grown(q, a.rows), log + a.rows); }
    } else {
      assert log + a.rows == log;
    }
  }

  // The loop's progress: what has been sent and what is still due make up the whole.
  ghost predicate Underway(c: Conn, d: Conn, at: Topic, log: seq<Rev>, alive: bool, due: seq<Msg>) {
    && !d.skipped && (d.phase == Closed ==> Lagged(at, d.next))
    && (Open(d) ==> d.phase == Streaming)
    && (Open(d) && d.waiting.Some? ==> d.waiting == c.waiting && Waits(d, at, log, alive) && d.out + Due(d, log) == due)
    && (Open(d) && d.waiting.None? ==> d.out == due && Some(d.ack) == c.waiting && QueueOk(d, at, log, alive))
  }

  // While commits of others go on arriving, and even if the vault is deleted meanwhile,
  // the connection is sent every earlier notice it has not yet had, in order, then its
  // own, then `ok`, unless it lags and is closed; the "skipped" error is never reached.
  method AcknowledgeCommit(c: Conn, q: Topic, arrivals: seq<Arrival>, ghost log: seq<Rev>, ghost alive: bool)
    returns (d: Conn, at: Topic)
    requires Waits(c, q, log, alive) && RingOk(q) && Later(arrivals, log, alive)
    ensures !d.skipped && (d.phase == Closed ==> Lagged(at, d.next))
    ensures Open(d) ==> d.phase == Streaming && d.waiting.None? && Some(d.ack) == c.waiting
    ensures Open(d) ==> d.out == c.out + Due(c, log)
  {
    d, at := c, q;
    var coming := arrivals;
    ghost var seen, living, due := log, alive, c.out + Due(c, log);
    while Open(d) && d.waiting.Some?
      invariant RingOk(at) && Later(coming, seen, living) && Underway(c, d, at, seen, living, due)
      decreases Remaining(d, seen)
    {
      ghost var left := Remaining(d, seen);
      if coming != [] {
        Publishes(d, at, seen, living, coming[0]);
        at, seen, living := Published(at, coming[0]), seen + coming[0].rows, living && !coming[0].gone;
        coming := coming[1..];
      }
      assert Remaining(d, seen) == left;
      Taken(c, d, at, seen, living, due);
      d := Received(d, at);
    }
  }

  // One turn of the loop.
  lemma Taken(c: Conn, d: Conn, at: Topic, log: seq<Rev>, alive: bool, due: seq<Msg>)
    requires Underway(c, d, at, log, alive, due) && Open(d) && d.waiting.Some?
    ensures d.next < at.tail && Underway(c, Received(d, at), at, log, alive, due)
    ensures Remaining(Received(d, at), log) < Remaining(d, log)
  {
    AckQueued(d, at, log, alive);
    RemainingPositive(d, log);
    if !Lagged(at, d.next) { Turn(d, at, log, alive); }
  }

  // ----- in every run -----

  function Receives(steps: seq<Step>, k: nat): nat {
    if steps == [] then 0 else Receives(steps[..|steps| - 1], k) + if steps[|steps| - 1] == Receive(k) then 1 else 0
  }

  // Through the whole run the connection is waiting.
  ghost predicate WaitsThrough(s: System, steps: seq<Step>, k: nat)
    requires Runs(s, steps)
    decreases |steps|
  {
    && k in s.conns && s.conns[k].phase == Streaming && s.conns[k].waiting.Some?
    && (steps != [] ==> WaitsThrough(Next(s, steps[0]), steps[1..], k))
  }

  lemma {:induction false} ReceivesFirst(steps: seq<Step>, k: nat)
    requires steps != []
    ensures Receives(steps, k) == (if steps[0] == Receive(k) then 1 else 0) + Receives(steps[1..], k)
    decreases |steps|
  {
    var init := steps[..|steps| - 1];
    if |steps| > 1 {
      ReceivesFirst(init, k);
      assert steps[1..][..|steps| - 2] == init[1..];
    }
  }

  function Left(s: System, k: nat): nat
    requires k in s.conns
  {
    Remaining(s.conns[k], LogOf(s, s.conns[k].vault))
  }

  // However others interleave, a waiting connection turns its loop at most as often as
  // there were notices ahead of its own commit.
  lemma {:induction false} AckTerminates(s: System, steps: seq<Step>, k: nat)
    requires SysInv(s) && Runs(s, steps) && WaitsThrough(s, steps, k)
    ensures k in End(s, steps).conns
    ensures Receives(steps, k) + Left(End(s, steps), k) <= Left(s, k)
    decreases |steps|
  {
    if steps != [] {
      var n := Next(s, steps[0]);
      StepInv(s, steps[0]);
      AckStep(s, steps[0], k);
      AckTerminates(n, steps[1..], k);
      ReceivesFirst(steps, k);
    }
  }

  lemma AckStep(s: System, step: Step, k: nat)
    requires SysInv(s) && Enabled(s, step) && k in s.conns && s.conns[k].phase == Streaming && s.conns[k].waiting.Some?
    ensures k in Next(s, step).conns
    ensures (if step == Receive(k) then 1 else 0) + Left(Next(s, step), k) <= Left(s, k)
  {
    if step == Receive(k) { AckTurn(s, k); } else { AckNotDelayed(s, step, k); }
  }
}
