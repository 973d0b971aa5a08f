// What every connection keeps at every step.
module HubInv {
  import opened Lists
  import opened Revisions
  import opened Pages
  import opened Hub

  // The rows of a vault against everything ever committed to it: purging removes old
  // rows only, so what is left of a path is always a suffix that ends in its newest row.
  ghost predicate Faithful(rows: seq<Rev>, log: seq<Rev>) {
    && (forall r | r in rows :: r in log)
    && (forall r, q | r in rows && q in log :: q.path == r.path && r.uid <= q.uid ==> q in rows)
    && (forall p :: Last(rows, p) == Last(log, p))
  }

  // ----- the mirror -----

  ghost predicate PathOk(c: Conn, log: seq<Rev>, p: string) {
    var l := Last(log, p);
    && (l.None? || l.value.uid <= c.start ==> At(c.mirror, p) == At(c.brought, p))
    && (l.Some? && c.start < l.value.uid <= c.ack && (c.phase == Streaming || l.value.uid <= c.cursor)
        ==> At(c.mirror, p) == Shown(l))
    && (c.initial && c.phase == Replaying && l.Some? && l.value.uid <= c.boundary && l.value.deleted
        ==> p !in c.mirror)
  }

  ghost predicate PageRowOk(c: Conn, log: seq<Rev>, r: Rev) {
    && r in log
    && (c.initial ==> !r.deleted && Last(Filter(log, Upto(c.boundary)), r.path) == Some(r))
  }

  // No newest row below the point read so far has been missed.
  ghost predicate CoverOk(c: Conn, log: seq<Rev>, p: string) {
    var l := Last(log, p);
    l.Some? && c.cursor < l.value.uid <= Covered(c) && (c.initial ==> !l.value.deleted) ==> l.value in c.page
  }

  ghost predicate ReplayOk(c: Conn, log: seq<Rev>) {
    && (forall r {:trigger PageRowOk(c, log, r)} | r in c.page :: PageRowOk(c, log, r))
    && (forall p {:trigger CoverOk(c, log, p)} :: CoverOk(c, log, p))
  }

  ghost predicate MirrorOk(c: Conn, log: seq<Rev>) {
    && (forall p {:trigger PathOk(c, log, p)} :: PathOk(c, log, p))
    && (c.phase == Replaying ==> ReplayOk(c, log))
  }

  // ----- the stream -----

  ghost predicate SpanOk(c: Conn, top: nat) {
    && c.start <= c.cursor <= c.boundary <= c.ack <= top
    && (c.phase == Replaying ==> c.ack == c.boundary && c.waiting == None)
    && (c.initial ==> c.start == 0 && c.brought == map[])
    && Sorted(c.page) && (forall r | r in c.page :: c.cursor < r.uid <= c.boundary)
  }

  function Notices(rows: seq<Rev>): seq<Event> { Map(rows, (r: Rev) => Notice(r)) }
  function UidList(rows: seq<Rev>): seq<nat> { Map(rows, (r: Rev) => r.uid) }

  // A receiver that has not lagged still holds every commit it has not covered, in order,
  // and the invalidation once the vault is gone.
  ghost predicate QueueOk(c: Conn, q: Topic, log: seq<Rev>, alive: bool) {
    && c.next <= q.tail
    && (!Lagged(q, c.next) ==>
          Queue(q, c.next) == Notices(Changes(log, c.ack)) + (if alive then [] else [Invalidated]))
  }

  // ----- what was sent -----

  function SentUids(out: seq<Msg>): seq<nat> {
    if out == [] then []
    else
      var m, rest := out[|out| - 1], SentUids(out[..|out| - 1]);
      if m.Row? || m.Change? then rest + [m.uid] else rest
  }

  function Delivered(out: seq<Msg>): seq<nat> {
    if out == [] then []
    else
      var m, rest := out[|out| - 1], Delivered(out[..|out| - 1]);
      if m.Change? then rest + [m.uid] else rest
  }

  ghost predicate Rising(s: seq<nat>) { forall i, j | 0 <= i < j < |s| :: s[i] < s[j] }

  // An acknowledgement is sent right behind the notice of the commit it acknowledges.
  ghost predicate AcksFollow(out: seq<Msg>) {
    forall i | 0 <= i < |out| :: out[i].Ok? ==> i > 0 && out[i - 1] == Change(out[i].uid)
  }

  ghost predicate OutOk(c: Conn, log: seq<Rev>) {
    && Delivered(c.out) == UidList(Filter(log, Between(c.boundary, c.ack)))
    && Rising(SentUids(c.out))
    && (forall u | u in SentUids(c.out) :: u <= if c.phase == Replaying then c.cursor else c.ack)
    && AcksFollow(c.out)
  }

  ghost predicate WaitOk(c: Conn, log: seq<Rev>) {
    && !c.skipped
    && (c.waiting.Some? ==> c.ack < c.waiting.value && exists r | r in log :: r.uid == c.waiting.value)
  }

  ghost predicate ConnInv(c: Conn, q: Topic, log: seq<Rev>, alive: bool, top: nat) {
    && SpanOk(c, top) && QueueOk(c, q, log, alive) && OutOk(c, log) && WaitOk(c, log)
    && (alive ==> MirrorOk(c, log))
  }

  // ----- sequence facts -----

  lemma OutSnoc(out: seq<Msg>, m: Msg)
    ensures SentUids(out + [m]) == if m.Row? || m.Change? then SentUids(out) + [m.uid] else SentUids(out)
    ensures Delivered(out + [m]) == if m.Change? then Delivered(out) + [m.uid] else Delivered(out)
  {
    assert (out + [m])[..|out|] == out;
  }

  lemma AcksSnoc(out: seq<Msg>, m: Msg)
    requires AcksFollow(out) && (m.Ok? ==> out != [] && out[|out| - 1] == Change(m.uid))
    ensures AcksFollow(out + [m])
  {
    var all := out + [m];
    forall i | 0 <= i < |all| && all[i].Ok? ensures i > 0 && all[i - 1] == Change(all[i].uid) {
      if i < |out| { assert all[i] == out[i]; }
    }
  }

  lemma RisingSnoc(s: seq<nat>, u: nat)
    requires Rising(s) && forall x | x in s :: x < u
    ensures Rising(s + [u])
  {
    forall i, j | 0 <= i < j < |s + [u]| ensures (s + [u])[i] < (s + [u])[j] {
      if j == |s| { assert s[i] in s; }
    }
  }

  lemma SameUid(rows: seq<Rev>, a: Rev, b: Rev)
    requires Sorted(rows)
    ensures a in rows && b in rows && a.uid == b.uid ==> a == b
  {
    if a in rows && b in rows && a.uid == b.uid { SortedIndex(rows, a, b); }
  }

  lemma FrontLeast(rows: seq<Rev>, q: Rev)
    requires Sorted(rows) && rows != []
    ensures q in rows ==> rows[0].uid <= q.uid
    ensures q in rows[1..] <==> q in rows && rows[0].uid < q.uid
  {
    assert rows == [rows[0]] + rows[1..];
    if q in rows {
      var i :| 0 <= i < |rows| && rows[i] == q;
    }
    if q in rows[1..] {
      var i :| 0 <= i < |rows[1..]| && rows[1..][i] == q;
      assert rows[i + 1] == q;
    }
  }

  // The first commit above `ack` splits what is delivered from what is queued.
  lemma FirstAbove(log: seq<Rev>, b: nat, ack: nat)
    requires Sorted(log) && Changes(log, ack) != [] && b <= ack
    ensures var r := Changes(log, ack)[0];
      && r in log && ack < r.uid && (forall q | q in log :: ack < q.uid ==> r.uid <= q.uid)
      && Changes(log, r.uid) == Changes(log, ack)[1..]
      && Filter(log, Between(b, r.uid)) == Filter(log, Between(b, ack)) + [r]
  {
    var above := Changes(log, ack);
    var r := above[0];
    assert r in above;
    FilterSorted(log, Above(ack));
    FilterSorted(log, Above(r.uid));
    forall q | q in log && ack < q.uid ensures r.uid <= q.uid {
      FrontLeast(above, q);
      assert q in above;
    }
    forall q ensures q in Changes(log, r.uid) <==> q in above[1..] {
      FrontLeast(above, q);
      assert q in above <==> q in log && ack < q.uid;
    }
    SortedUnique(Changes(log, r.uid), above[1..]);
    FirstBetween(log, b, ack, r);
  }

  lemma FirstBetween(log: seq<Rev>, b: nat, ack: nat, r: Rev)
    requires Sorted(log) && r in log && b <= ack < r.uid
    requires forall q | q in log :: ack < q.uid ==> r.uid <= q.uid
    ensures Filter(log, Between(b, r.uid)) == Filter(log, Between(b, ack)) + [r]
  {
    var past := Filter(log, Between(b, ack));
    FilterSorted(log, Between(b, ack));
    FilterSorted(log, Between(b, r.uid));
    SortedSnoc(past, r);
    forall q ensures q in Filter(log, Between(b, r.uid)) <==> q in past + [r] {
      if q in log && q.uid == r.uid { SortedIndex(log, q, r); }
    }
    SortedUnique(Filter(log, Between(b, r.uid)), past + [r]);
  }

  lemma IndexAtMost(rows: seq<Rev>, i: nat, j: nat)
    requires Sorted(rows) && i < |rows| && j < |rows| && rows[i].uid <= rows[j].uid
    ensures i <= j
  {
  }

  // The front of a page covers everything of the list below its last row.
  lemma PageCovers(list: seq<Rev>, n: nat, r: Rev)
    requires Sorted(list) && r in list && n > 0
    requires var page := Take(list, n); |page| < n || r.uid <= page[|page| - 1].uid
    ensures r in Take(list, n)
  {
    var i :| 0 <= i < |list| && list[i] == r;
    var page := Take(list, n);
    if |page| == n { IndexAtMost(list, i, n - 1); }
    assert page[i] == r;
  }

  lemma LastSnoc(log: seq<Rev>, r: Rev, p: string)
    ensures Last(log + [r], p) == if r.path == p then Some(r) else Last(log, p)
  {
    assert (log + [r])[..|log|] == log;
  }

  // ----- the ring -----

  lemma SendQueue(q: Topic, next: nat, e: Event)
    requires RingOk(q) && next <= q.tail
    ensures RingOk(Send(q, e))
    ensures !Lagged(Send(q, e), next) ==> !Lagged(q, next) && Queue(Send(q, e), next) == Queue(q, next) + [e]
  {
  }

  // ----- replay -----

  lemma LogBelow(rows: seq<Rev>, log: seq<Rev>)
    requires Sorted(log) && Faithful(rows, log)
    ensures forall r | r in log :: r.uid <= MaxUid(rows)
  {
    var m := MaxUid(rows);
    forall r | r in log ensures r.uid <= m {
      LastIsHead(log, r.path);
      assert Last(rows, r.path) == Last(log, r.path);
    }
  }

  lemma AcceptedOk(
    v: VaultId, initial: bool, version: nat, q: Topic, m: Mirror, rows: seq<Rev>, log: seq<Rev>, top: nat)
    requires Sorted(log) && Faithful(rows, log) && MaxUid(rows) <= top && (initial ==> m == map[])
    requires initial || version <= MaxUid(rows)
    ensures ConnInv(Accepted(v, initial, version, MaxUid(rows), q.tail, m), q, log, true, top)
  {
    var c := Accepted(v, initial, version, MaxUid(rows), q.tail, m);
    LogBelow(rows, log);
    FilterNone(log, Above(c.boundary));
    FilterNone(log, Between(c.boundary, c.boundary));
    assert Queue(q, q.tail) == [];
  }

  // A newest row the replay has still to send.
  ghost predicate Pending(c: Conn, l: Option<Rev>) {
    l.Some? && c.cursor < l.value.uid <= c.boundary && (c.initial ==> !l.value.deleted)
  }

  lemma FetchList(c: Conn, rows: seq<Rev>, log: seq<Rev>)
    requires Sorted(rows) && Sorted(log) && Faithful(rows, log)
    ensures var list := ReplayList(c.initial, rows, c.cursor, c.boundary);
      && Sorted(list) && (forall r | r in list :: PageRowOk(c, log, r) && c.cursor < r.uid <= c.boundary)
      && forall p :: Pending(c, Last(log, p)) ==> Last(log, p).value in list
  {
    var list := ReplayList(c.initial, rows, c.cursor, c.boundary);
    if c.initial {
      var below := Filter(rows, Upto(c.boundary));
      FilterSorted(rows, Upto(c.boundary));
      FilterSorted(below, LiveHead(below));
      FilterSorted(Snapshot(below), Above(c.cursor));
      forall r | r in list ensures PageRowOk(c, log, r) && c.cursor < r.uid <= c.boundary {
        SnapshotRow(c, rows, log, r);
      }
      forall p | Pending(c, Last(log, p)) ensures Last(log, p).value in list {
        var r := Last(log, p).value;
        assert Last(rows, p) == Some(r);
        LastIsHead(rows, p);
        assert IsHead(below, r) && r in Snapshot(below);
      }
    } else {
      FilterSorted(rows, Between(c.cursor, c.boundary));
      forall p | Pending(c, Last(log, p)) ensures Last(log, p).value in list {
        assert Last(rows, p) == Last(log, p);
      }
    }
  }

  // A snapshot row is the newest commit of its path up to the boundary, however much
  // has been purged meanwhile.
  lemma SnapshotRow(c: Conn, rows: seq<Rev>, log: seq<Rev>, r: Rev)
    requires Sorted(rows) && Sorted(log) && Faithful(rows, log) && c.initial
    requires r in ReplayList(true, rows, c.cursor, c.boundary)
    ensures PageRowOk(c, log, r) && c.cursor < r.uid <= c.boundary
  {
    var below, past := Filter(rows, Upto(c.boundary)), Filter(log, Upto(c.boundary));
    FilterSorted(log, Upto(c.boundary));
    assert r in Snapshot(below) && r in below && r in rows && r in past;
    LastIsHead(past, r.path);
    var g := Last(past, r.path).value;
    assert g in rows && g in below;
    SortedIndex(log, g, r);
  }

  lemma FetchedOk(c: Conn, q: Topic, rows: seq<Rev>, log: seq<Rev>, top: nat)
    requires Sorted(rows) && Sorted(log) && Faithful(rows, log)
    requires ConnInv(c, q, log, true, top) && c.phase == Replaying && c.page == [] && !c.short
    ensures ConnInv(Fetched(c, rows), q, log, true, top)
  {
    FetchedPage(c, rows, log);
    forall p ensures PathOk(Fetched(c, rows), log, p) { assert PathOk(c, log, p); }
  }

  lemma FetchedPage(c: Conn, rows: seq<Rev>, log: seq<Rev>)
    requires Sorted(rows) && Sorted(log) && Faithful(rows, log) && c.cursor <= c.boundary
    ensures var d := Fetched(c, rows);
      ReplayOk(d, log) && Sorted(d.page) && forall r | r in d.page :: d.cursor < r.uid <= d.boundary
  {
    var d := Fetched(c, rows);
    var list := ReplayList(c.initial, rows, c.cursor, c.boundary);
    FetchList(c, rows, log);
    assert d.page == Take(list, REPLAY_PAGE_SIZE);
    forall r | r in d.page ensures PageRowOk(d, log, r) && d.cursor < r.uid <= d.boundary {
      assert r in list && PageRowOk(c, log, r);
    }
    forall p ensures CoverOk(d, log, p) { FetchedCover(c, d, list, log, p); }
  }

  lemma FetchedCover(c: Conn, d: Conn, list: seq<Rev>, log: seq<Rev>, p: string)
    requires Sorted(list) && c.cursor <= c.boundary && d.page == Take(list, REPLAY_PAGE_SIZE)
    requires d == c.(page := d.page, short := |d.page| < REPLAY_PAGE_SIZE)
    requires forall r | r in d.page :: r.uid <= d.boundary
    requires Pending(c, Last(log, p)) ==> Last(log, p).value in list
    ensures CoverOk(d, log, p)
  {
    if d.page != [] { assert d.page[|d.page| - 1] in d.page; }
    if Pending(c, Last(log, p)) && Last(log, p).value.uid <= Covered(d) {
      PageCovers(list, REPLAY_PAGE_SIZE, Last(log, p).value);
    }
  }

  lemma SentSamePath(c: Conn, log: seq<Rev>)
    requires Sorted(log) && MirrorOk(c, log) && SpanOk(c, c.ack) && c.phase == Replaying && c.page != []
    ensures PathOk(Sent(c), log, c.page[0].path)
  {
    var r := c.page[0];
    assert r in c.page;
    assert PageRowOk(c, log, r);
    LastIsHead(log, r.path);
    var l := Last(log, r.path).value;
    if l.uid == r.uid { SortedIndex(log, l, r); }
    if c.initial && l.uid <= c.boundary { BoundaryHead(log, c.boundary, r); }
  }

  lemma SentOtherPath(c: Conn, log: seq<Rev>, p: string)
    requires Sorted(log) && MirrorOk(c, log) && SpanOk(c, c.ack) && c.phase == Replaying
    requires c.page != [] && p != c.page[0].path
    ensures PathOk(Sent(c), log, p)
  {
    var r, l, d := c.page[0], Last(log, p), Sent(c);
    assert At(d.mirror, p) == At(c.mirror, p);
    assert PathOk(c, log, p) && CoverOk(c, log, p);
    assert r in c.page && c.page[|c.page| - 1] in c.page;
    FrontLeast(c.page, c.page[|c.page| - 1]);
    if l.Some? && c.start < l.value.uid <= r.uid && c.cursor < l.value.uid {
      FrontLeast(c.page, l.value);
      SameUid(c.page, r, l.value);
    }
  }

  lemma BoundaryHead(log: seq<Rev>, b: nat, r: Rev)
    requires Sorted(log) && Last(log, r.path).Some? && Last(log, r.path).value.uid <= b
    ensures Last(Filter(log, Upto(b)), r.path) == Last(log, r.path)
  {
    var l := Last(log, r.path).value;
    var past := Filter(log, Upto(b));
    FilterSorted(log, Upto(b));
    LastIsHead(log, r.path);
    assert IsHead(past, l);
    HeadIsLast(past, l);
  }

  lemma SentOk(c: Conn, q: Topic, log: seq<Rev>, alive: bool, top: nat)
    requires Sorted(log) && ConnInv(c, q, log, alive, top) && c.phase == Replaying && c.page != []
    ensures ConnInv(Sent(c), q, log, alive, top)
  {
    var d, r := Sent(c), c.page[0];
    OutSnoc(c.out, Row(r.uid));
    AcksSnoc(c.out, Row(r.uid));
    assert r in c.page;
    RisingSnoc(SentUids(c.out), r.uid);
    forall x | x in d.page ensures d.cursor < x.uid <= d.boundary { FrontLeast(c.page, x); }
    if alive {
      forall p ensures PathOk(d, log, p) {
        if p == r.path { SentSamePath(c, log); } else { SentOtherPath(c, log, p); }
      }
      SentReplay(c, log);
    }
  }

  lemma SentReplay(c: Conn, log: seq<Rev>)
    requires ReplayOk(c, log) && c.page != [] && Sorted(c.page) && forall r | r in c.page :: c.cursor < r.uid
    ensures ReplayOk(Sent(c), log)
  {
    var d, r := Sent(c), c.page[0];
    assert c.page == [r] + d.page;
    forall x | x in d.page ensures PageRowOk(d, log, x) {
      var i :| 0 <= i < |d.page| && d.page[i] == x;
      assert c.page[i + 1] == x;
      assert PageRowOk(c, log, x);
    }
    forall p ensures CoverOk(d, log, p) {
      assert CoverOk(c, log, p) && r in c.page;
      if d.page != [] { assert d.page[|d.page| - 1] == c.page[|c.page| - 1]; }
    }
  }

  lemma FinishedOk(c: Conn, q: Topic, log: seq<Rev>, alive: bool, top: nat)
    requires Sorted(log) && ConnInv(c, q, log, alive, top) && c.phase == Replaying && c.page == [] && c.short
    ensures ConnInv(Finished(c), q, log, alive, top)
  {
    var d := Finished(c);
    OutSnoc(c.out, Ready(c.boundary));
    AcksSnoc(c.out, Ready(c.boundary));
    if alive {
      forall p ensures PathOk(d, log, p) { assert PathOk(c, log, p) && CoverOk(c, log, p); }
    }
  }

  // ----- the live stream -----

  lemma ReceivedPath(c: Conn, log: seq<Rev>, r: Rev, d: Conn, p: string)
    requires Sorted(log) && PathOk(c, log, p) && c.phase == Streaming && c.start <= c.ack < r.uid && r in log
    requires forall q | q in log :: c.ack < q.uid ==> r.uid <= q.uid
    requires d == c.(next := d.next, ack := r.uid, mirror := Apply(c.mirror, r), waiting := d.waiting, out := d.out)
    ensures PathOk(d, log, p)
  {
    var l := Last(log, p);
    LastIsHead(log, p);
    if l.Some? { SameUid(log, l.value, r); }
  }

  lemma NoticesSplit(rows: seq<Rev>)
    requires rows != []
    ensures Notices(rows)[0] == Notice(rows[0]) && Notices(rows)[1..] == Notices(rows[1..])
  {
  }

  // What the front of the queue is.
  lemma QueueFront(c: Conn, q: Topic, log: seq<Rev>, alive: bool)
    requires QueueOk(c, q, log, alive) && c.next < q.tail && !Lagged(q, c.next)
    ensures var above := Changes(log, c.ack);
      && (above == [] ==> !alive && Queue(q, c.next)[0] == Invalidated)
      && (above != [] ==> Queue(q, c.next)[0] == Notice(above[0]))
      && (above != [] ==> Queue(q, c.next + 1) == Notices(above[1..]) + (if alive then [] else [Invalidated]))
  {
    var above := Changes(log, c.ack);
    var tl := if alive then [] else [Invalidated];
    assert Queue(q, c.next + 1) == Queue(q, c.next)[1..];
    if above != [] {
      NoticesSplit(above);
      assert (Notices(above) + tl)[1..] == Notices(above)[1..] + tl;
    }
  }

  // Receiving never reaches the "skipped originating commit" error.
  lemma ReceivedOk(c: Conn, q: Topic, log: seq<Rev>, alive: bool, top: nat)
    requires Sorted(log) && (forall r | r in log :: r.uid <= top)
    requires ConnInv(c, q, log, alive, top) && c.phase == Streaming && c.next < q.tail
    ensures !Received(c, q).skipped && c.boundary <= Received(c, q).ack <= top && OutOk(Received(c, q), log)
    ensures Open(Received(c, q)) ==> ConnInv(Received(c, q), q, log, alive, top)
  {
    if !Lagged(q, c.next) {
      QueueFront(c, q, log, alive);
      if Changes(log, c.ack) != [] { ReceivedNotice(c, q, log, alive, top); }
    }
  }

  lemma ReceivedNotice(c: Conn, q: Topic, log: seq<Rev>, alive: bool, top: nat)
    requires Sorted(log) && (forall r | r in log :: r.uid <= top)
    requires ConnInv(c, q, log, alive, top) && c.phase == Streaming && c.next < q.tail
    requires !Lagged(q, c.next) && Changes(log, c.ack) != []
    ensures Open(Received(c, q)) && ConnInv(Received(c, q), q, log, alive, top)
  {
    var d, r := Received(c, q), Changes(log, c.ack)[0];
    QueueFront(c, q, log, alive);
    FirstAbove(log, c.boundary, c.ack);
    ReceivedShape(c, q, log, r);
    ReceivedOut(c, log, r, d);
    if alive {
      forall p ensures PathOk(d, log, p) {
        assert PathOk(c, log, p);
        ReceivedPath(c, log, r, d, p);
      }
    }
  }

  lemma ReceivedShape(c: Conn, q: Topic, log: seq<Rev>, r: Rev)
    requires WaitOk(c, log) && c.next < q.tail && !Lagged(q, c.next) && Queue(q, c.next)[0] == Notice(r)
    requires forall x | x in log :: c.ack < x.uid ==> r.uid <= x.uid
    ensures var d := Received(c, q); var told := c.out + [Change(r.uid)];
      && d == c.(next := c.next + 1, ack := r.uid, mirror := Apply(c.mirror, r), waiting := d.waiting, out := d.out)
      && ((d.waiting == c.waiting && d.out == told) || (d.waiting == None && d.out == told + [Ok(r.uid)]))
      && WaitOk(d, log)
  {
    if c.waiting.Some? {
      var w :| w in log && w.uid == c.waiting.value;
    }
  }

  lemma ReceivedOut(c: Conn, log: seq<Rev>, r: Rev, d: Conn)
    requires OutOk(c, log) && c.phase == d.phase == Streaming && d.boundary == c.boundary && d.ack == r.uid > c.ack
    requires Filter(log, Between(c.boundary, r.uid)) == Filter(log, Between(c.boundary, c.ack)) + [r]
    requires var told := c.out + [Change(r.uid)]; d.out == told || d.out == told + [Ok(r.uid)]
    ensures OutOk(d, log)
  {
    var told := c.out + [Change(r.uid)];
    ToldOut(c, log, r);
    if d.out != told {
      OutSnoc(told, Ok(r.uid));
      AcksSnoc(told, Ok(r.uid));
    }
  }

  lemma ToldOut(c: Conn, log: seq<Rev>, r: Rev)
    requires OutOk(c, log) && c.phase == Streaming && r.uid > c.ack
    requires Filter(log, Between(c.boundary, r.uid)) == Filter(log, Between(c.boundary, c.ack)) + [r]
    ensures OutOk(c.(ack := r.uid, out := c.out + [Change(r.uid)]), log)
  {
    OutSnoc(c.out, Change(r.uid));
    AcksSnoc(c.out, Change(r.uid));
    RisingSnoc(SentUids(c.out), r.uid);
    UidsSnoc(Filter(log, Between(c.boundary, c.ack)), r);
  }

  lemma UidsSnoc(rows: seq<Rev>, r: Rev)
    ensures UidList(rows + [r]) == UidList(rows) + [r.uid]
    ensures Notices(rows + [r]) == Notices(rows) + [Notice(r)]
  {
  }

  // ----- commits and invalidations by others -----

  lemma CommittedPath(c: Conn, log: seq<Rev>, r: Rev, p: string)
    requires SpanOk(c, c.ack) && c.ack < r.uid
    requires PathOk(c, log, p)
    ensures PathOk(c, log + [r], p)
  {
    LastSnoc(log, r, p);
  }

  lemma CommittedReplay(c: Conn, log: seq<Rev>, r: Rev)
    requires SpanOk(c, c.ack) && c.boundary < r.uid && ReplayOk(c, log)
    ensures ReplayOk(c, log + [r])
  {
    FilterSnoc(log, r, Upto(c.boundary));
    forall x | x in c.page ensures PageRowOk(c, log + [r], x) { assert PageRowOk(c, log, x); }
    if c.page != [] { assert c.page[|c.page| - 1] in c.page; }
    forall p ensures CoverOk(c, log + [r], p) {
      LastSnoc(log, r, p);
      assert CoverOk(c, log, p);
    }
  }

  lemma CommittedOk(c: Conn, q: Topic, log: seq<Rev>, r: Rev, top: nat)
    requires RingOk(q) && ConnInv(c, q, log, true, top) && top < r.uid
    ensures ConnInv(c, Send(q, Notice(r)), log + [r], true, r.uid)
    ensures c.phase == Streaming ==> ConnInv(c.(waiting := Some(r.uid)), Send(q, Notice(r)), log + [r], true, r.uid)
  {
    CommittedStream(c, q, log, r, top);
    CommittedMirror(c, log, r);
    if c.phase == Streaming {
      var d := c.(waiting := Some(r.uid));
      assert r in log + [r];
      forall p ensures PathOk(d, log + [r], p) { assert PathOk(c, log + [r], p); }
    }
  }

  lemma CommittedMirror(c: Conn, log: seq<Rev>, r: Rev)
    requires SpanOk(c, c.ack) && c.ack < r.uid && MirrorOk(c, log)
    ensures MirrorOk(c, log + [r])
  {
    forall p ensures PathOk(c, log + [r], p) {
      assert PathOk(c, log, p);
      CommittedPath(c, log, r, p);
    }
    if c.phase == Replaying { CommittedReplay(c, log, r); }
  }

  lemma CommittedStream(c: Conn, q: Topic, log: seq<Rev>, r: Rev, top: nat)
    requires RingOk(q) && SpanOk(c, top) && top < r.uid
    requires QueueOk(c, q, log, true) && OutOk(c, log) && WaitOk(c, log)
    ensures QueueOk(c, Send(q, Notice(r)), log + [r], true) && OutOk(c, log + [r]) && WaitOk(c, log + [r])
  {
    CommittedQueue(c, q, log, r);
    CommittedOut(c, log, r);
    CommittedWait(c, log, r);
  }

  lemma CommittedQueue(c: Conn, q: Topic, log: seq<Rev>, r: Rev)
    requires RingOk(q) && QueueOk(c, q, log, true) && c.ack < r.uid
    ensures QueueOk(c, Send(q, Notice(r)), log + [r], true)
  {
    SendQueue(q, c.next, Notice(r));
    FilterSnoc(log, r, Above(c.ack));
    UidsSnoc(Changes(log, c.ack), r);
    assert Notices(Changes(log, c.ack)) + [] == Notices(Changes(log, c.ack));
  }

  lemma CommittedWait(c: Conn, log: seq<Rev>, r: Rev)
    requires WaitOk(c, log)
    ensures WaitOk(c, log + [r])
  {
    if c.waiting.Some? {
      var w :| w in log && w.uid == c.waiting.value;
      assert w in log + [r];
    }
  }

  lemma CommittedOut(c: Conn, log: seq<Rev>, r: Rev)
    requires OutOk(c, log) && c.ack < r.uid
    ensures OutOk(c, log + [r])
  {
    FilterSnoc(log, r, Between(c.boundary, c.ack));
  }

  lemma InvalidatedOk(c: Conn, q: Topic, log: seq<Rev>, top: nat)
    requires RingOk(q) && ConnInv(c, q, log, true, top)
    ensures ConnInv(c, Send(q, Invalidated), log, false, top)
  {
    SendQueue(q, c.next, Invalidated);
  }
}
