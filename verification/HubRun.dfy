// Every run of the hub: the invariants hold at every step, and what they give a client.
module HubRun {
  import opened Lists
  import opened Revisions
  import opened Compaction
  import opened Store
  import opened Pages
  import opened Hub
  import opened HubInv

  function LogOf(s: System, v: VaultId): seq<Rev> { VaultRows(s.log, v) }

  ghost predicate FaithfulAt(s: System, v: VaultId) { Faithful(Rows(s.t, v), LogOf(s, v)) }

  ghost predicate TablesOk(s: System) {
    && Inv(s.t) && Sorted(s.log) && s.t.vaults.Keys <= s.used
    && (forall r | r in s.log :: 0 < r.uid <= s.t.sequence && r.vault in s.used)
    && (forall v {:trigger FaithfulAt(s, v)} | v in s.t.vaults :: FaithfulAt(s, v))
    && (forall v | v in s.topics :: RingOk(s.topics[v]))
  }

  ghost predicate ConnOk(s: System, k: nat)
    requires k in s.conns
  {
    var c := s.conns[k];
    && !c.skipped && c.boundary <= c.ack <= s.t.sequence && c.vault in s.used && OutOk(c, LogOf(s, c.vault))
    && (Open(c) ==>
          && c.vault in s.topics
          && ConnInv(c, s.topics[c.vault], LogOf(s, c.vault), c.vault in s.t.vaults, s.t.sequence))
  }

  ghost predicate SysInv(s: System) {
    TablesOk(s) && forall k {:trigger ConnOk(s, k)} | k in s.conns :: ConnOk(s, k)
  }

  // ----- tables against the log -----

  lemma FaithfulSnoc(rows: seq<Rev>, log: seq<Rev>, row: Rev)
    requires Faithful(rows, log) && forall r | r in log :: r.uid < row.uid
    ensures Faithful(rows + [row], log + [row])
  {
    forall p ensures Last(rows + [row], p) == Last(log + [row], p) {
      LastSnoc(rows, row, p);
      LastSnoc(log, row, p);
    }
  }

  lemma FaithfulPurged(rows: seq<Rev>, log: seq<Rev>)
    requires Sorted(rows) && Faithful(rows, log)
    ensures Faithful(Purged(rows), log)
  {
    PurgesKeepHeads(rows);
    forall p ensures Last(Purged(rows), p) == Last(log, p) { CompactLast(rows, HeadOf(rows), p); }
    forall r, q | r in Purged(rows) && q in log && q.path == r.path && r.uid <= q.uid ensures q in Purged(rows) {
      assert r in rows && q in rows && q.uid <= r.uid;
      SortedIndex(rows, r, q);
    }
  }

  // The history of deleted files goes whole: what is left of such a path is its newest row.
  lemma FaithfulSpared(rows: seq<Rev>, log: seq<Rev>)
    requires Sorted(rows) && Faithful(rows, log)
    ensures Faithful(PurgedDeleted(rows), log)
  {
    var kept := PurgedDeleted(rows);
    PurgesKeepHeads(rows);
    forall p ensures Last(kept, p) == Last(log, p) { CompactLast(rows, SparedIn(rows), p); }
    forall r, q | r in kept && q in log && q.path == r.path && r.uid <= q.uid ensures q in kept {
      SparedSuffix(rows, r, q);
    }
  }

  lemma SparedSuffix(rows: seq<Rev>, r: Rev, q: Rev)
    requires Sorted(rows) && r in rows && q in rows && q.path == r.path && r.uid <= q.uid && Spared(rows, r)
    ensures Spared(rows, q)
  {
    forall d | d in rows && IsHead(rows, d) && d.deleted && d.path == q.path ensures d.uid == q.uid {
      assert d.uid == r.uid;
    }
  }

  lemma ExecuteCommits(t: Tables, c: Command)
    requires Inv(t)
    ensures var (n, o) := Execute(t, c);
      && (o.None? ==> n == t)
      && (o.Some? ==> o.value.vault == Target(c) && Commits(t, n, o.value))
  {
    match c
    case PushEmpty(r, allowed, lim, ts) => AddEmptyInv(t, r, allowed, lim, ts);
    case PushFile(r, staged, allowed, lim, ts) => AddFileInv(t, r, staged, allowed, lim, ts);
    case RestoreUid(v, uid, device, user, allowed, lim, fits, ts) =>
      RestoreInv(t, v, uid, device, user, allowed, lim, fits, ts);
  }

  // ----- topics -----

  // No topic with a live receiver is ever pruned.
  lemma ReceiverKeepsTopic(s: System, k: nat)
    requires k in s.conns && Open(s.conns[k]) && s.conns[k].vault in s.topics
    ensures var v := s.conns[k].vault; v in Prune(s.topics, s.conns) && Prune(s.topics, s.conns)[v] == s.topics[v]
  {
    assert HasReceiver(s.conns, s.conns[k].vault);
  }

  lemma PublishTopics(s: System, v: VaultId, e: Event)
    requires forall w | w in s.topics :: RingOk(s.topics[w])
    ensures forall w | w in Publish(s.topics, s.conns, v, e) :: RingOk(Publish(s.topics, s.conns, v, e)[w])
    ensures forall k | k in s.conns && Open(s.conns[k]) && s.conns[k].vault in s.topics ::
      var w := s.conns[k].vault;
      && w in Publish(s.topics, s.conns, v, e)
      && Publish(s.topics, s.conns, v, e)[w] == if w == v then Send(s.topics[w], e) else s.topics[w]
  {
    forall k | k in s.conns && Open(s.conns[k]) && s.conns[k].vault in s.topics
      ensures s.conns[k].vault in Prune(s.topics, s.conns)
    {
      ReceiverKeepsTopic(s, k);
    }
    forall w | w in Prune(s.topics, s.conns) ensures RingOk(Send(Prune(s.topics, s.conns)[w], e)) {
      SendQueue(s.topics[w], s.topics[w].tail, e);
    }
  }

  lemma TopLater(c: Conn, q: Topic, log: seq<Rev>, alive: bool, top: nat, later: nat)
    requires ConnInv(c, q, log, alive, top) && top <= later
    ensures ConnInv(c, q, log, alive, later)
  {
  }

  // ----- steps on the tables -----

  lemma CreateStep(s: System, id: VaultId, owner: nat, profile: string, allowed: bool)
    requires SysInv(s) && id !in s.used
    ensures SysInv(Next(s, CreateVault(id, owner, profile, allowed)))
  {
    var n := Next(s, CreateVault(id, owner, profile, allowed));
    CreateInv(s.t, id, owner, profile, allowed);
    forall v | v in n.t.vaults ensures FaithfulAt(n, v) {
      if v in s.t.vaults { assert FaithfulAt(s, v); } else { NoRowsOutside(s.t, v); NewVaultFaithful(s, n, v); }
    }
    forall k | k in n.conns ensures ConnOk(n, k) { assert ConnOk(s, k); }
  }

  lemma NewVaultFaithful(s: System, n: System, v: VaultId)
    requires TablesOk(s) && v !in s.used && n.log == s.log && Rows(n.t, v) == []
    ensures FaithfulAt(n, v)
  {
    FilterNone(s.log, InVault(v));
  }

  lemma PurgeStep(s: System, v: VaultId, allowed: bool)
    requires SysInv(s)
    ensures SysInv(Next(s, PurgeVault(v, allowed)))
  {
    var n := Next(s, PurgeVault(v, allowed));
    PurgeInv(s.t, v, allowed);
    forall w | w in n.t.vaults ensures FaithfulAt(n, w) { PurgeFaithful(s, n, v, allowed, w); }
    CompactStep(s, n);
  }

  // Fewer rows that are still faithful to the log change nothing for anyone.
  lemma CompactStep(s: System, n: System)
    requires SysInv(s) && n == s.(t := n.t) && Inv(n.t)
    requires n.t.vaults == s.t.vaults && n.t.sequence == s.t.sequence
    requires forall w {:trigger FaithfulAt(n, w)} | w in n.t.vaults :: FaithfulAt(n, w)
    ensures SysInv(n)
  {
    forall k | k in n.conns ensures ConnOk(n, k) { assert ConnOk(s, k); }
  }

  lemma PurgeFaithful(s: System, n: System, v: VaultId, allowed: bool, w: VaultId)
    requires TablesOk(s) && n.t == Purge(s.t, v, allowed).0 && n.log == s.log && w in s.t.vaults
    ensures FaithfulAt(n, w)
  {
    assert FaithfulAt(s, w);
    if allowed && v in s.t.vaults {
      PurgeRows(s.t, v, w);
      FilterSorted(s.t.revisions, InVault(v));
      if w == v { FaithfulPurged(Rows(s.t, v), LogOf(s, v)); }
    }
  }

  lemma PurgeRows(t: Tables, v: VaultId, w: VaultId)
    requires v in t.vaults
    ensures Rows(Purge(t, v, true).0, w) == if w == v then Purged(Rows(t, v)) else Rows(t, w)
  {
    DropFromVault(t.revisions, v, HeadOf(Rows(t, v)));
    if w != v { DropFromOther(t.revisions, v, HeadOf(Rows(t, v)), w); }
  }

  lemma PurgeDeletedStep(s: System, v: VaultId)
    requires SysInv(s)
    ensures SysInv(Next(s, PurgeDeletedVault(v)))
  {
    var n := Next(s, PurgeDeletedVault(v));
    PurgeDeletedInv(s.t, v);
    forall w | w in n.t.vaults ensures FaithfulAt(n, w) { PurgeDeletedFaithful(s, n, v, w); }
    CompactStep(s, n);
  }

  lemma PurgeDeletedFaithful(s: System, n: System, v: VaultId, w: VaultId)
    requires TablesOk(s) && n.t == PurgeDeleted(s.t, v).0 && n.log == s.log && w in s.t.vaults
    ensures FaithfulAt(n, w)
  {
    assert FaithfulAt(s, w);
    if v in s.t.vaults {
      DropFromVault(s.t.revisions, v, SparedIn(Rows(s.t, v)));
      FilterSorted(s.t.revisions, InVault(v));
      if w == v {
        FaithfulSpared(Rows(s.t, v), LogOf(s, v));
      } else {
        DropFromOther(s.t.revisions, v, SparedIn(Rows(s.t, v)), w);
      }
    }
  }

  // Deleting and migrating both take a vault away and announce it.
  lemma GoneStep(s: System, v: VaultId, n: System)
    requires SysInv(s) && v in s.t.vaults
    requires n == s.(t := n.t, topics := Publish(s.topics, s.conns, v, Invalidated), used := n.used)
    requires s.used <= n.used && n.t.vaults.Keys <= n.used && Inv(n.t) && n.t.sequence == s.t.sequence
    requires forall w | w in s.used :: w in n.t.vaults <==> w in s.t.vaults && w != v
    requires forall w | w in s.t.vaults && w != v :: Rows(n.t, w) == Rows(s.t, w)
    requires forall w | w in n.t.vaults && w !in s.used :: Rows(n.t, w) == []
    ensures SysInv(n)
  {
    PublishTopics(s, v, Invalidated);
    forall w | w in n.t.vaults ensures FaithfulAt(n, w) {
      if w in s.used { assert FaithfulAt(s, w); } else { NewVaultFaithful(s, n, w); }
    }
    forall k | k in n.conns ensures ConnOk(n, k) {
      assert ConnOk(s, k);
      var c := s.conns[k];
      if Open(c) && c.vault == v { InvalidatedOk(c, s.topics[v], LogOf(s, v), s.t.sequence); }
    }
  }

  lemma DeleteStep(s: System, v: VaultId)
    requires SysInv(s) && v in s.t.vaults
    ensures SysInv(Next(s, DeleteVault(v)))
  {
    var n := Next(s, DeleteVault(v));
    DropVaultInv(s.t, v);
    forall w | w in s.t.vaults && w != v ensures Rows(n.t, w) == Rows(s.t, w) { DropVaultRows(s.t, v, w); }
    GoneStep(s, v, n);
  }

  lemma MigrateStep(s: System, v: VaultId, id: VaultId, profile: string)
    requires SysInv(s) && v in s.t.vaults && id !in s.used && id !in s.t.vaults
    ensures SysInv(Next(s, MigrateVault(v, id, profile)))
  {
    var n := Next(s, MigrateVault(v, id, profile));
    ReplaceVaultInv(s.t, v, id, profile);
    forall w | w in s.t.vaults && w != v ensures Rows(n.t, w) == Rows(s.t, w) {
      ReplaceIsCreate(s.t, v, id, profile);
      DropVaultRows(s.t, v, w);
    }
    GoneStep(s, v, n);
  }

  // ----- steps of connections -----

  lemma ConnectStep(s: System, k: nat, v: VaultId, initial: bool, version: nat, m: Mirror)
    requires SysInv(s) && Enabled(s, Connect(k, v, initial, version, m))
    ensures SysInv(Next(s, Connect(k, v, initial, version, m)))
  {
    var n := Next(s, Connect(k, v, initial, version, m));
    SubscribedTopics(s, v);
    SameTables(s, n);
    NewConn(s, v, initial, version, n.topics[v], m);
    forall j | j in n.conns ensures ConnOk(n, j) {
      if j != k { SameConn(s, n, j); }
    }
  }

  // A connection whose table, log and topic did not change is still right.
  lemma SameConn(s: System, n: System, j: nat)
    requires j in s.conns && ConnOk(s, j) && j in n.conns && n.conns[j] == s.conns[j]
    requires n.t == s.t && n.log == s.log && n.used == s.used
    requires var v := s.conns[j].vault;
      Open(s.conns[j]) ==> v in n.topics && (v in s.topics ==> n.topics[v] == s.topics[v])
    ensures ConnOk(n, j)
  {
  }

  lemma SubscribedTopics(s: System, v: VaultId)
    requires forall w | w in s.topics :: RingOk(s.topics[w])
    ensures v in Subscribed(s.topics, s.conns, v)
    ensures forall w | w in Subscribed(s.topics, s.conns, v) :: RingOk(Subscribed(s.topics, s.conns, v)[w])
    ensures forall k | k in s.conns && Open(s.conns[k]) && s.conns[k].vault in s.topics ::
      var w := s.conns[k].vault;
      w in Subscribed(s.topics, s.conns, v) && Subscribed(s.topics, s.conns, v)[w] == s.topics[w]
  {
    forall k | k in s.conns && Open(s.conns[k]) && s.conns[k].vault in s.topics
      ensures s.conns[k].vault in Prune(s.topics, s.conns)
    {
      ReceiverKeepsTopic(s, k);
    }
  }

  lemma NewConn(s: System, v: VaultId, initial: bool, version: nat, q: Topic, m: Mirror)
    requires TablesOk(s) && v in s.t.vaults && (initial ==> m == map[])
    ensures var c := Accepted(v, initial, version, s.t.vaults[v].version, q.tail, m);
      && c.ack <= s.t.sequence && OutOk(c, LogOf(s, v))
      && (Open(c) ==> ConnInv(c, q, LogOf(s, v), true, s.t.sequence))
  {
    var top := s.t.vaults[v].version;
    VersionBound(s.t, v);
    assert FaithfulAt(s, v);
    FilterSorted(s.log, InVault(v));
    FilterNone(LogOf(s, v), Between(top, top));
    if initial || version <= top { AcceptedOk(v, initial, version, q, m, Rows(s.t, v), LogOf(s, v), s.t.sequence); }
  }

  // A step that only moves one connection.
  lemma MoveStep(s: System, k: nat, d: Conn)
    requires SysInv(s) && k in s.conns && !d.skipped && d.vault == s.conns[k].vault
    requires d.boundary <= d.ack <= s.t.sequence && OutOk(d, LogOf(s, d.vault))
    requires Open(d) ==> Open(s.conns[k]) && d.vault in s.topics
    requires Open(d) ==> ConnInv(d, s.topics[d.vault], LogOf(s, d.vault), d.vault in s.t.vaults, s.t.sequence)
    ensures SysInv(s.(conns := s.conns[k := d]))
  {
    var n := s.(conns := s.conns[k := d]);
    SameTables(s, n);
    forall j | j in n.conns ensures ConnOk(n, j) {
      if j == k { MovedConn(s, n, k); } else { SameConn(s, n, j); }
    }
  }

  lemma SameTables(s: System, n: System)
    requires TablesOk(s) && n.t == s.t && n.log == s.log && n.used == s.used
    requires forall v | v in n.topics :: RingOk(n.topics[v])
    ensures TablesOk(n)
  {
    forall w | w in n.t.vaults ensures FaithfulAt(n, w) { assert FaithfulAt(s, w); }
  }

  lemma MovedConn(s: System, n: System, k: nat)
    requires k in s.conns && ConnOk(s, k) && k in n.conns && n.conns[k].vault == s.conns[k].vault
    requires n.t == s.t && n.log == s.log && n.used == s.used && n.topics == s.topics
    requires var d := n.conns[k];
      !d.skipped && d.boundary <= d.ack <= s.t.sequence && OutOk(d, LogOf(s, d.vault))
    requires Open(n.conns[k]) ==> n.conns[k].vault in s.topics
    requires var d := n.conns[k];
      Open(d) ==> ConnInv(d, s.topics[d.vault], LogOf(s, d.vault), d.vault in s.t.vaults, s.t.sequence)
    ensures ConnOk(n, k)
  {
  }

  lemma FetchStep(s: System, k: nat)
    requires SysInv(s) && Enabled(s, Fetch(k))
    ensures SysInv(Next(s, Fetch(k)))
  {
    var c := s.conns[k];
    var rows, log := Rows(s.t, c.vault), LogOf(s, c.vault);
    assert ConnOk(s, k);
    FilterSorted(s.t.revisions, InVault(c.vault));
    FilterSorted(s.log, InVault(c.vault));
    if c.vault in s.t.vaults {
      assert FaithfulAt(s, c.vault);
      FetchedOk(c, s.topics[c.vault], rows, log, s.t.sequence);
    } else {
      NoRowsOutside(s.t, c.vault);
      assert ReplayList(c.initial, [], c.cursor, c.boundary) == [];
    }
    MoveStep(s, k, Fetched(c, rows));
  }

  lemma SendStep(s: System, k: nat)
    requires SysInv(s) && Enabled(s, SendRow(k))
    ensures SysInv(Next(s, SendRow(k)))
  {
    var c := s.conns[k];
    assert ConnOk(s, k);
    FilterSorted(s.log, InVault(c.vault));
    SentOk(c, s.topics[c.vault], LogOf(s, c.vault), c.vault in s.t.vaults, s.t.sequence);
    MoveStep(s, k, Sent(c));
  }

  lemma FinishStep(s: System, k: nat)
    requires SysInv(s) && Enabled(s, Finish(k))
    ensures SysInv(Next(s, Finish(k)))
  {
    var c := s.conns[k];
    assert ConnOk(s, k);
    FilterSorted(s.log, InVault(c.vault));
    FinishedOk(c, s.topics[c.vault], LogOf(s, c.vault), c.vault in s.t.vaults, s.t.sequence);
    MoveStep(s, k, Finished(c));
  }

  lemma ReceivedSame(c: Conn, q: Topic)
    requires c.next < q.tail
    ensures Received(c, q).vault == c.vault && Received(c, q).boundary == c.boundary
  {
  }

  lemma ReceiveStep(s: System, k: nat)
    requires SysInv(s) && Enabled(s, Receive(k))
    ensures SysInv(Next(s, Receive(k)))
  {
    var c := s.conns[k];
    assert ConnOk(s, k);
    FilterSorted(s.log, InVault(c.vault));
    ReceivedOk(c, s.topics[c.vault], LogOf(s, c.vault), c.vault in s.t.vaults, s.t.sequence);
    ReceivedSame(c, s.topics[c.vault]);
    MoveStep(s, k, Received(c, s.topics[c.vault]));
  }

  lemma MutateStep(s: System, k: nat, command: Command)
    requires SysInv(s) && Enabled(s, Mutate(k, command))
    ensures SysInv(Next(s, Mutate(k, command)))
  {
    ExecuteCommits(s.t, command);
    var (t, row) := Execute(s.t, command);
    if row.Some? { CommitStep(s, k, t, row.value); }
  }

  lemma CommitStep(s: System, k: nat, t: Tables, row: Rev)
    requires SysInv(s) && k in s.conns && s.conns[k].phase == Streaming && s.conns[k].vault == row.vault
    requires Commits(s.t, t, row)
    ensures SysInv(Announced(s, k, t, row))
  {
    var n := Announced(s, k, t, row);
    SortedSnoc(s.log, row);
    PublishTopics(s, row.vault, Notice(row));
    forall v | v in n.t.vaults ensures FaithfulAt(n, v) {
      assert FaithfulAt(s, v);
      RowsSnoc(s.t.revisions, row, v);
      RowsSnoc(s.log, row, v);
      if v == row.vault { FaithfulSnoc(Rows(s.t, v), LogOf(s, v), row); }
    }
    forall j | j in n.conns ensures ConnOk(n, j) { CommitConn(s, k, t, row, j); }
  }

  lemma CommitConn(s: System, k: nat, t: Tables, row: Rev, j: nat)
    requires SysInv(s) && k in s.conns && s.conns[k].phase == Streaming && s.conns[k].vault == row.vault
    requires Commits(s.t, t, row) && j in s.conns
    ensures ConnOk(Announced(s, k, t, row), j)
  {
    var c, n := s.conns[j], Announced(s, k, t, row);
    assert ConnOk(s, j);
    assert n.conns[j] == if j == k then c.(waiting := Some(row.uid)) else c;
    CommitOut(s, n, row, j);
    if Open(c) { CommitOpen(s, row, j); }
  }

  lemma CommitOut(s: System, n: System, row: Rev, j: nat)
    requires SysInv(s) && j in s.conns && j in n.conns && n.log == s.log + [row] && row.uid == s.t.sequence + 1
    requires n.conns[j] == s.conns[j] || n.conns[j] == s.conns[j].(waiting := Some(row.uid))
    ensures OutOk(n.conns[j], LogOf(n, n.conns[j].vault))
  {
    var c := s.conns[j];
    assert ConnOk(s, j);
    RowsSnoc(s.log, row, c.vault);
    if c.vault == row.vault { CommittedOut(c, LogOf(s, c.vault), row); }
  }

  lemma CommitOpen(s: System, row: Rev, j: nat)
    requires SysInv(s) && j in s.conns && Open(s.conns[j]) && row.uid == s.t.sequence + 1 && row.vault in s.t.vaults
    ensures var c := s.conns[j]; var topics := Publish(s.topics, s.conns, row.vault, Notice(row));
      var d := c.(waiting := Some(row.uid)); var log := VaultRows(s.log + [row], c.vault);
      && c.vault in topics
      && ConnInv(c, topics[c.vault], log, c.vault in s.t.vaults, row.uid)
      && (c.phase == Streaming && c.vault == row.vault ==> ConnInv(d, topics[c.vault], log, true, row.uid))
  {
    var c := s.conns[j];
    assert ConnOk(s, j);
    PublishTopics(s, row.vault, Notice(row));
    RowsSnoc(s.log, row, c.vault);
    if c.vault == row.vault {
      CommittedOk(c, s.topics[c.vault], LogOf(s, c.vault), row, s.t.sequence);
    } else {
      TopLater(c, s.topics[c.vault], LogOf(s, c.vault), c.vault in s.t.vaults, s.t.sequence, row.uid);
    }
  }

  lemma StepInv(s: System, step: Step)
    requires SysInv(s) && Enabled(s, step)
    ensures SysInv(Next(s, step))
  {
    match step
    case CreateVault(id, owner, profile, allowed) => CreateStep(s, id, owner, profile, allowed);
    case DeleteVault(v) => DeleteStep(s, v);
    case MigrateVault(v, id, profile) => MigrateStep(s, v, id, profile);
    case PurgeVault(v, allowed) => PurgeStep(s, v, allowed);
    case PurgeDeletedVault(v) => PurgeDeletedStep(s, v);
    case Connect(k, v, initial, version, m) => ConnectStep(s, k, v, initial, version, m);
    case Mutate(k, command) => MutateStep(s, k, command);
    case Fetch(k) => FetchStep(s, k);
    case SendRow(k) => SendStep(s, k);
    case Finish(k) => FinishStep(s, k);
    case Receive(k) => ReceiveStep(s, k);
    case Drop(k) => assert ConnOk(s, k); MoveStep(s, k, s.conns[k].(phase := Closed));
  }

  lemma {:induction false} RunInv(s: System, steps: seq<Step>)
    requires SysInv(s) && Runs(s, steps)
    ensures SysInv(End(s, steps))
    decreases |steps|
  {
    if steps != [] {
      StepInv(s, steps[0]);
      RunInv(Next(s, steps[0]), steps[1..]);
    }
  }

  lemma BootRun(steps: seq<Step>)
    requires Runs(Boot, steps)
    ensures SysInv(End(Boot, steps))
  {
    RunInv(Boot, steps);
  }
}
