// What a client ends up with, is sent and is told, in every run of the hub.
module Convergence {
  import opened Lists
  import opened Revisions
  import opened Compaction
  import opened Store
  import opened Pages
  import opened Hub
  import opened HubInv
  import opened HubRun

  // The revisions an event queue carries.
  function Revs(events: seq<Event>): seq<Rev> {
    if events == [] then []
    else
      var rest := Revs(events[..|events| - 1]);
      match events[|events| - 1] case Notice(r) => rest + [r] case Invalidated => rest
  }

  lemma {:induction false} RevsOfNotices(rows: seq<Rev>)
    ensures Revs(Notices(rows)) == rows
  {
    if rows != [] {
      RevsOfNotices(rows[..|rows| - 1]);
      assert Notices(rows)[..|rows| - 1] == Notices(rows[..|rows| - 1]);
    }
  }

  // The mirror the client came with is right for every path without a commit since the
  // version it came with.
  ghost predicate Sound(brought: Mirror, start: nat, log: seq<Rev>) {
    forall p :: Last(log, p).None? || Last(log, p).value.uid <= start ==> At(brought, p) == Shown(Last(log, p))
  }

  // ----- the rows still to be replayed -----

  // The table part of what is still to be sent.
  lemma UnreadRows(c: Conn, rows: seq<Rev>, log: seq<Rev>)
    requires Sorted(rows) && Sorted(log) && Faithful(rows, log)
    ensures var list := ReplayList(c.initial, rows, Covered(c), c.boundary);
      && Sorted(list) && (forall r | r in list :: PageRowOk(c, log, r) && Covered(c) < r.uid)
      && forall p :: Pending(c, Last(log, p)) && Covered(c) < Last(log, p).value.uid ==> Last(log, p).value in list
  {
    var d := c.(cursor := Covered(c));
    var list := ReplayList(c.initial, rows, Covered(c), c.boundary);
    FetchList(d, rows, log);
    forall r | r in list ensures PageRowOk(c, log, r) { assert PageRowOk(d, log, r); }
    forall p | Pending(c, Last(log, p)) && Covered(c) < Last(log, p).value.uid ensures Last(log, p).value in list {
      assert Pending(d, Last(log, p));
    }
  }

  lemma PageRows(c: Conn, log: seq<Rev>)
    requires SpanOk(c, c.ack) && ReplayOk(c, log)
    ensures c.cursor <= Covered(c)
    ensures forall r | r in c.page :: PageRowOk(c, log, r) && c.cursor < r.uid <= Covered(c)
  {
    if c.page != [] { assert c.page[|c.page| - 1] in c.page; }
    forall r | r in c.page ensures PageRowOk(c, log, r) && c.cursor < r.uid <= Covered(c) {
      assert PageRowOk(c, log, r);
      InitIn(c.page, r);
    }
  }

  lemma UnsentRows(c: Conn, rows: seq<Rev>, log: seq<Rev>)
    requires Sorted(rows) && Sorted(log) && Faithful(rows, log) && c.phase == Replaying
    requires SpanOk(c, c.ack) && ReplayOk(c, log)
    ensures Sorted(Unsent(c, rows))
    ensures forall r | r in Unsent(c, rows) :: PageRowOk(c, log, r) && c.cursor < r.uid
    ensures forall p :: Pending(c, Last(log, p)) ==> Last(log, p).value in Unsent(c, rows)
  {
    PageRows(c, log);
    if !c.short {
      UnreadRows(c, rows, log);
      SortedConcat(c.page, ReplayList(c.initial, rows, Covered(c), c.boundary), Covered(c));
    }
    forall p | Pending(c, Last(log, p)) ensures Last(log, p).value in Unsent(c, rows) {
      assert CoverOk(c, log, p);
    }
  }

  lemma SortedConcat(a: seq<Rev>, b: seq<Rev>, m: nat)
    requires Sorted(a) && Sorted(b) && (forall r | r in a :: r.uid <= m) && (forall r | r in b :: m < r.uid)
    ensures Sorted(a + b)
  {
    forall i, j | 0 <= i < j < |a + b| ensures (a + b)[i].uid < (a + b)[j].uid {
      if i < |a| <= j { assert a[i] in a && b[j - |a|] in b; }
    }
  }

  lemma UnsentLast(c: Conn, rows: seq<Rev>, log: seq<Rev>, p: string)
    requires Sorted(rows) && Sorted(log) && Faithful(rows, log) && c.phase == Replaying
    requires SpanOk(c, c.ack) && ReplayOk(c, log)
    requires Last(log, p).None? || Last(log, p).value.uid <= c.boundary
    ensures Last(Unsent(c, rows), p) == if Pending(c, Last(log, p)) then Last(log, p) else None
  {
    var unsent, l := Unsent(c, rows), Last(log, p);
    UnsentRows(c, rows, log);
    LastIsHead(log, p);
    LastIsHead(unsent, p);
    if Last(unsent, p).Some? {
      var r := Last(unsent, p).value;
      assert PageRowOk(c, log, r);
      if c.initial { BoundaryHead(log, c.boundary, r); }
    }
    if Pending(c, l) {
      assert l.value in unsent;
      SameUid(log, l.value, Last(unsent, p).value);
    }
  }

  // ----- convergence -----

  lemma FinalAt(c: Conn, rows: seq<Rev>, log: seq<Rev>, p: string)
    requires Sorted(rows) && Sorted(log) && Faithful(rows, log) && Open(c)
    requires SpanOk(c, c.ack) && MirrorOk(c, log)
    ensures var l := Last(log, p);
      At(Replay(Replay(c.mirror, Unsent(c, rows)), Changes(log, c.ack)), p)
      == if l.None? || l.value.uid <= c.start then At(c.brought, p) else Shown(l)
  {
    var l, mid := Last(log, p), Replay(c.mirror, Unsent(c, rows));
    ReplayAt(mid, Changes(log, c.ack), p);
    ChangesLast(log, c.ack, p);
    ReplayAt(c.mirror, Unsent(c, rows), p);
    assert PathOk(c, log, p);
    if c.phase == Replaying && (l.None? || l.value.uid <= c.boundary) { UnsentLast(c, rows, log, p); }
  }

  lemma FinalIsLive(c: Conn, rows: seq<Rev>, log: seq<Rev>)
    requires Sorted(rows) && Sorted(log) && Faithful(rows, log) && Open(c)
    requires SpanOk(c, c.ack) && MirrorOk(c, log)
    ensures Replay(Replay(c.mirror, Unsent(c, rows)), Changes(log, c.ack)) == Live(rows)
       <==> Sound(c.brought, c.start, log)
  {
    var m := Replay(Replay(c.mirror, Unsent(c, rows)), Changes(log, c.ack));
    forall p ensures At(Live(rows), p) == Shown(Last(log, p)) {
      LiveAt(rows, p);
      assert Last(rows, p) == Last(log, p);
    }
    if m == Live(rows) {
      forall p | Last(log, p).None? || Last(log, p).value.uid <= c.start
        ensures At(c.brought, p) == Shown(Last(log, p))
      {
        FinalAt(c, rows, log, p);
      }
    }
    if Sound(c.brought, c.start, log) {
      forall p ensures At(m, p) == At(Live(rows), p) { FinalAt(c, rows, log, p); }
      MirrorsAgree(m, Live(rows));
    }
  }

  // The client's mirror once everything still on its way has arrived.
  function Arrived(s: System, c: Conn): Mirror
    requires c.vault in s.topics && c.next <= s.topics[c.vault].tail && !Lagged(s.topics[c.vault], c.next)
  {
    Replay(Replay(c.mirror, Unsent(c, Rows(s.t, c.vault))), Revs(Queue(s.topics[c.vault], c.next)))
  }

  // An open connection to an existing vault that has not lagged.
  ghost predicate InStep(s: System, k: nat) {
    && k in s.conns && Open(s.conns[k]) && s.conns[k].vault in s.t.vaults
    && (s.conns[k].vault in s.topics ==> !Lagged(s.topics[s.conns[k].vault], s.conns[k].next))
  }

  lemma ConvergesAt(s: System, k: nat)
    requires SysInv(s) && InStep(s, k)
    ensures var c := s.conns[k];
      && c.vault in s.topics && c.next <= s.topics[c.vault].tail
      && (Arrived(s, c) == Live(Rows(s.t, c.vault)) <==> Sound(c.brought, c.start, LogOf(s, c.vault)))
  {
    var c := s.conns[k];
    assert ConnOk(s, k) && FaithfulAt(s, c.vault);
    FilterSorted(s.log, InVault(c.vault));
    FilterSorted(s.t.revisions, InVault(c.vault));
    var above := Changes(LogOf(s, c.vault), c.ack);
    RevsOfNotices(above);
    assert Notices(above) + [] == Notices(above);
    FinalIsLive(c, Rows(s.t, c.vault), LogOf(s, c.vault));
  }

  // At every moment of every run: the mirror of an open connection that has not lagged,
  // overlaid with the rows the replay has still to send and then with the queued events,
  // is the live state of the vault - exactly when the client's own mirror was right for
  // the paths that have had no commit since the version it announced.
  lemma Converges(steps: seq<Step>, k: nat)
    requires Runs(Boot, steps) && InStep(End(Boot, steps), k)
    ensures var s := End(Boot, steps); var c := s.conns[k];
      && c.vault in s.topics && c.next <= s.topics[c.vault].tail
      && (Arrived(s, c) == Live(Rows(s.t, c.vault)) <==> Sound(c.brought, c.start, LogOf(s, c.vault)))
  {
    BootRun(steps);
    ConvergesAt(End(Boot, steps), k);
  }

  // After `ready` and with nothing queued the vault still exists, and a fresh client's
  // mirror is exactly the live state; a returning client's is exactly when it was sound.
  lemma DrainedIsExact(steps: seq<Step>, k: nat)
    requires Runs(Boot, steps) && k in End(Boot, steps).conns
    requires var s := End(Boot, steps); var c := s.conns[k];
      c.phase == Streaming && (c.vault in s.topics ==> c.next == s.topics[c.vault].tail)
    ensures var s := End(Boot, steps); var c := s.conns[k];
      && c.vault in s.t.vaults
      && (c.initial ==> c.mirror == Live(Rows(s.t, c.vault)))
      && (c.mirror == Live(Rows(s.t, c.vault)) <==> Sound(c.brought, c.start, LogOf(s, c.vault)))
  {
    BootRun(steps);
    DrainedConn(End(Boot, steps), k);
  }

  lemma DrainedConn(s: System, k: nat)
    requires SysInv(s) && k in s.conns && s.conns[k].phase == Streaming
    requires var c := s.conns[k]; c.vault in s.topics ==> c.next == s.topics[c.vault].tail
    ensures var c := s.conns[k];
      && c.vault in s.t.vaults
      && (c.initial ==> c.mirror == Live(Rows(s.t, c.vault)))
      && (c.mirror == Live(Rows(s.t, c.vault)) <==> Sound(c.brought, c.start, LogOf(s, c.vault)))
  {
    var c, log := s.conns[k], LogOf(s, s.conns[k].vault);
    assert ConnOk(s, k);
    DrainedQueue(c, s.topics[c.vault], log, c.vault in s.t.vaults);
    assert FaithfulAt(s, c.vault);
    FilterSorted(s.log, InVault(c.vault));
    FilterSorted(s.t.revisions, InVault(c.vault));
    FinalIsLive(c, Rows(s.t, c.vault), log);
    if c.initial { FreshIsSound(log); }
  }

  lemma DrainedQueue(c: Conn, q: Topic, log: seq<Rev>, alive: bool)
    requires QueueOk(c, q, log, alive) && c.next == q.tail
    ensures alive && Changes(log, c.ack) == []
  {
    assert Queue(q, c.next) == [];
    assert |Notices(Changes(log, c.ack))| == |Changes(log, c.ack)|;
  }

  lemma FreshIsSound(log: seq<Rev>)
    requires forall r | r in log :: 0 < r.uid
    ensures Sound(map[], 0, log)
  {
    forall p | Last(log, p).None? || Last(log, p).value.uid <= 0 ensures At(map[], p) == Shown(Last(log, p)) {}
  }
}
