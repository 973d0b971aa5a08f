// Connections to vaults: a client subscribes under the commit lock, is replayed pages of
// the current table up to a fixed boundary while commits and purges go on, and is then
// fed from a bounded broadcast ring. One step is one critical section or one message.
module Hub {
  import opened Lists
  import opened Revisions
  import opened Store
  import opened Pages

  const EVENT_CAPACITY: nat := 32
  const REPLAY_PAGE_SIZE: nat := 16

  datatype Event = Notice(rev: Rev) | Invalidated

  // A broadcast channel: the newest events and the number ever sent.
  datatype Topic = Topic(ring: seq<Event>, tail: nat)

  datatype Msg = Row(uid: nat) | Ready(version: nat) | Change(uid: nat) | Ok(uid: nat)

  datatype Phase = Replaying | Streaming | Closed

  // `brought`, `ack` and `skipped` record the history of a connection: the mirror the
  // client came with, the last commit covered so far, and whether the "skipped
  // originating commit" error was ever reached.
  datatype Conn = Conn(
    vault: VaultId, initial: bool, start: nat, boundary: nat, cursor: nat, page: seq<Rev>, short: bool,
    phase: Phase, next: nat, waiting: Option<nat>, mirror: Mirror, out: seq<Msg>,
    brought: Mirror, ack: nat, skipped: bool)

  // `log` is every revision ever committed, `used` every vault id ever issued.
  datatype System = System(
    t: Tables, topics: map<VaultId, Topic>, conns: map<nat, Conn>, log: seq<Rev>, used: set<VaultId>)

  const Boot := System(Empty, map[], map[], [], {})

  // ----- the ring -----

  function Newest(events: seq<Event>): seq<Event> {
    if |events| <= EVENT_CAPACITY then events else events[|events| - EVENT_CAPACITY..]
  }

  function Send(q: Topic, e: Event): Topic { Topic(Newest(q.ring + [e]), q.tail + 1) }

  // The slot at `next` has been overwritten.
  predicate Lagged(q: Topic, next: nat) { next + |q.ring| < q.tail }

  // What a receiver at `next` has still to receive.
  function Queue(q: Topic, next: nat): seq<Event>
    requires next <= q.tail && !Lagged(q, next)
  {
    q.ring[|q.ring| - (q.tail - next)..]
  }

  ghost predicate RingOk(q: Topic) {
    |q.ring| == if q.tail <= EVENT_CAPACITY then q.tail else EVENT_CAPACITY
  }

  // ----- topics -----

  predicate Open(c: Conn) { c.phase != Closed }

  predicate HasReceiver(conns: map<nat, Conn>, v: VaultId) {
    exists k | k in conns :: conns[k].vault == v && Open(conns[k])
  }

  // `topics.retain(|_, sender| sender.receiver_count() > 0)`
  function Prune(topics: map<VaultId, Topic>, conns: map<nat, Conn>): map<VaultId, Topic> {
    map v | v in topics && HasReceiver(conns, v) :: topics[v]
  }

  function Publish(topics: map<VaultId, Topic>, conns: map<nat, Conn>, v: VaultId, e: Event): map<VaultId, Topic> {
    var kept := Prune(topics, conns);
    if v in kept then kept[v := Send(kept[v], e)] else kept
  }

  function Subscribed(topics: map<VaultId, Topic>, conns: map<nat, Conn>, v: VaultId): map<VaultId, Topic> {
    var kept := Prune(topics, conns);
    if v in kept then kept else kept[v := Topic([], 0)]
  }

  // ----- replay pages -----

  // The uid up to which the replay has already read the table.
  function Covered(c: Conn): nat {
    if c.short then c.boundary else if c.page != [] then c.page[|c.page| - 1].uid else c.cursor
  }

  // The rows a replay would still send if the table did not change any more.
  function Unsent(c: Conn, rows: seq<Rev>): seq<Rev> {
    if c.phase != Replaying then []
    else if c.short then c.page
    else c.page + ReplayList(c.initial, rows, Covered(c), c.boundary)
  }

  // ----- commands that commit a revision -----

  datatype Command =
    | PushEmpty(r: NewRev, allowed: bool, lim: Limits, ts: int)
    | PushFile(r: NewRev, staged: Blob, allowed: bool, lim: Limits, ts: int)
    | RestoreUid(v: VaultId, uid: int, device: string, user: nat, allowed: bool, lim: Limits, fits: bool, ts: int)

  function Target(c: Command): VaultId { if c.RestoreUid? then c.v else c.r.vault }

  function Execute(t: Tables, c: Command): (Tables, Option<Rev>) {
    match c
    case PushEmpty(r, allowed, lim, ts) =>
      var (n, o) := AddEmpty(t, r, allowed, lim, ts);
      (n, if o.Done? then Some(o.value) else None)
    case PushFile(r, staged, allowed, lim, ts) =>
      var (n, o) := AddFile(t, r, staged, allowed, lim, ts);
      (n, if o.Done? then Some(o.value) else None)
    case RestoreUid(v, uid, device, user, allowed, lim, fits, ts) =>
      var (n, o) := Restore(t, v, uid, device, user, allowed, lim, fits, ts);
      (n, if o.Done? then o.value else None)
  }

  // ----- steps -----

  datatype Step =
    | CreateVault(id: VaultId, owner: nat, profile: string, allowed: bool)
    | DeleteVault(v: VaultId)
    | MigrateVault(v: VaultId, id: VaultId, profile: string)
    | PurgeVault(v: VaultId, allowed: bool)
    | PurgeDeletedVault(v: VaultId)
    | Connect(k: nat, v: VaultId, initial: bool, version: nat, mirror: Mirror)
    | Mutate(k: nat, command: Command)
    | Fetch(k: nat)
    | SendRow(k: nat)
    | Finish(k: nat)
    | Receive(k: nat)
    | Drop(k: nat)

  predicate Enabled(s: System, step: Step) {
    match step
    case CreateVault(id, _, _, _) => id !in s.used
    case DeleteVault(v) => v in s.t.vaults
    case MigrateVault(v, id, _) => v in s.t.vaults && id !in s.used && id !in s.t.vaults
    case PurgeVault(_, _) => true
    // an offline command, when no connection is open; nothing below depends on that
    case PurgeDeletedVault(_) => true
    case Connect(k, v, initial, _, m) => k !in s.conns && v in s.t.vaults && (initial ==> m == map[])
    case Mutate(k, command) =>
      k in s.conns && s.conns[k].phase == Streaming && s.conns[k].waiting == None && Target(command) == s.conns[k].vault
    case Fetch(k) => k in s.conns && s.conns[k].phase == Replaying && s.conns[k].page == [] && !s.conns[k].short
    case SendRow(k) => k in s.conns && s.conns[k].phase == Replaying && s.conns[k].page != []
    case Finish(k) => k in s.conns && s.conns[k].phase == Replaying && s.conns[k].page == [] && s.conns[k].short
    case Receive(k) =>
      && k in s.conns && s.conns[k].phase == Streaming
      && s.conns[k].vault in s.topics && s.conns[k].next < s.topics[s.conns[k].vault].tail
    case Drop(k) => k in s.conns
  }

  function Accepted(v: VaultId, initial: bool, version: nat, boundary: nat, next: nat, m: Mirror): Conn {
    var start := if initial then 0 else version;
    var phase := if !initial && version > boundary then Closed else Replaying;
    Conn(v, initial, start, boundary, start, [], false, phase, next, None, m, [], m, boundary, false)
  }

  function Fetched(c: Conn, rows: seq<Rev>): Conn {
    var page := ReplayPage(c.initial, rows, c.cursor, c.boundary, REPLAY_PAGE_SIZE);
    c.(page := page, short := |page| < REPLAY_PAGE_SIZE)
  }

  function Sent(c: Conn): Conn
    requires c.page != []
  {
    var r := c.page[0];
    c.(page := c.page[1..], cursor := r.uid, mirror := Apply(c.mirror, r), out := c.out + [Row(r.uid)])
  }

  function Finished(c: Conn): Conn { c.(phase := Streaming, out := c.out + [Ready(c.boundary)]) }

  // One `recv`: the event branch of the socket loop, or one turn of the loop that
  // acknowledges the connection's own commit.
  function Received(c: Conn, q: Topic): Conn
    requires c.next < q.tail
  {
    if Lagged(q, c.next) then c.(phase := Closed)
    else
      match Queue(q, c.next)[0]
      case Invalidated => c.(phase := Closed)
      case Notice(r) =>
        var d := c.(next := c.next + 1, ack := r.uid, mirror := Apply(c.mirror, r), out := c.out + [Change(r.uid)]);
        if c.waiting.None? || r.uid < c.waiting.value then d
        else if r.uid == c.waiting.value then d.(waiting := None, out := d.out + [Ok(r.uid)])
        else d.(phase := Closed, skipped := true)
  }

  // The critical section of a commit: tables and event in one, and the committing
  // connection left waiting for its own notice.
  function Announced(s: System, k: nat, t: Tables, row: Rev): System
    requires k in s.conns
  {
    s.(t := t, log := s.log + [row], topics := Publish(s.topics, s.conns, row.vault, Notice(row)),
       conns := s.conns[k := s.conns[k].(waiting := Some(row.uid))])
  }

  function Next(s: System, step: Step): System
    requires Enabled(s, step)
  {
    match step
    case CreateVault(id, owner, profile, allowed) =>
      s.(t := Create(s.t, id, owner, profile, allowed).0, used := s.used + {id})
    case DeleteVault(v) =>
      s.(t := DropVault(s.t, v), topics := Publish(s.topics, s.conns, v, Invalidated))
    case MigrateVault(v, id, profile) =>
      s.(t := ReplaceVault(s.t, v, id, profile), topics := Publish(s.topics, s.conns, v, Invalidated),
         used := s.used + {id})
    case PurgeVault(v, allowed) => s.(t := Purge(s.t, v, allowed).0)
    case PurgeDeletedVault(v) => s.(t := PurgeDeleted(s.t, v).0)
    case Connect(k, v, initial, version, m) =>
      var topics := Subscribed(s.topics, s.conns, v);
      s.(topics := topics,
         conns := s.conns[k := Accepted(v, initial, version, s.t.vaults[v].version, topics[v].tail, m)])
    case Mutate(k, command) =>
      var (t, row) := Execute(s.t, command);
      if row.None? then s else Announced(s, k, t, row.value)
    case Fetch(k) => s.(conns := s.conns[k := Fetched(s.conns[k], Rows(s.t, s.conns[k].vault))])
    case SendRow(k) => s.(conns := s.conns[k := Sent(s.conns[k])])
    case Finish(k) => s.(conns := s.conns[k := Finished(s.conns[k])])
    case Receive(k) => s.(conns := s.conns[k := Received(s.conns[k], s.topics[s.conns[k].vault])])
    case Drop(k) => s.(conns := s.conns[k := s.conns[k].(phase := Closed)])
  }

  // A run: every step enabled where it is taken.
  ghost predicate Runs(s: System, steps: seq<Step>)
    decreases |steps|
  {
    steps == [] || (Enabled(s, steps[0]) && Runs(Next(s, steps[0]), steps[1..]))
  }

  ghost function End(s: System, steps: seq<Step>): System
    requires Runs(s, steps)
    decreases |steps|
  {
    if steps == [] then s else End(Next(s, steps[0]), steps[1..])
  }
}
