// A device that is cut off at any point and comes back with what it has.
module Resume {
  import opened Revisions
  import opened Store
  import opened Hub
  import opened HubInv
  import opened HubRun
  import opened Convergence
  import opened Delivery

  // The last uid a device knows itself to be up to date with: that of the last row while
  // it is replayed to, that of the last commit once it is streamed to.
  function Position(c: Conn): nat { if c.phase == Streaming then c.ack else c.cursor }

  // The client came with a mirror that was right up to the version it announced.
  ghost predicate CameSound(s: System, c: Conn) { Sound(c.brought, c.start, LogOf(s, c.vault)) }

  // At any moment, mid-replay included, what a device has is right up to its position.
  lemma MirrorSound(s: System, k: nat)
    requires SysInv(s) && k in s.conns && Open(s.conns[k]) && s.conns[k].vault in s.t.vaults && CameSound(s, s.conns[k])
    ensures var c := s.conns[k]; Sound(c.mirror, Position(c), LogOf(s, c.vault)) && Position(c) <= s.t.sequence
  {
    var c := s.conns[k];
    var log := LogOf(s, c.vault);
    assert ConnOk(s, k);
    forall p | Last(log, p).None? || Last(log, p).value.uid <= Position(c)
      ensures At(c.mirror, p) == Shown(Last(log, p))
    {
      assert PathOk(c, log, p);
    }
  }

  // Later commits do not touch the paths a mirror is trusted for.
  lemma SoundSnoc(m: Mirror, u: nat, log: seq<Rev>, row: Rev)
    requires Sound(m, u, log) && u < row.uid
    ensures Sound(m, u, log + [row])
  {
    forall p | Last(log + [row], p).None? || Last(log + [row], p).value.uid <= u
      ensures At(m, p) == Shown(Last(log + [row], p))
    {
      LastSnoc(log, row, p);
    }
  }

  lemma SoundStep(s: System, step: Step, v: VaultId, m: Mirror, u: nat)
    requires SysInv(s) && Enabled(s, step) && Sound(m, u, LogOf(s, v)) && u <= s.t.sequence
    ensures Sound(m, u, LogOf(Next(s, step), v))
  {
    var n := Next(s, step);
    StepLog(s, step);
    if n.log != s.log {
      var row := n.log[|s.log|];
      assert n.log == s.log + [row];
      RowsSnoc(s.log, row, v);
      if row.vault == v { SoundSnoc(m, u, LogOf(s, v), row); }
    }
  }

  lemma SequenceRises(s: System, step: Step)
    requires SysInv(s) && Enabled(s, step)
    ensures s.t.sequence <= Next(s, step).t.sequence
  {
    match step
    case CreateVault(id, owner, profile, allowed) => CreateInv(s.t, id, owner, profile, allowed);
    case DeleteVault(v) => DropVaultInv(s.t, v);
    case MigrateVault(v, id, profile) => ReplaceVaultInv(s.t, v, id, profile);
    case PurgeVault(v, allowed) => PurgeInv(s.t, v, allowed);
    case PurgeDeletedVault(v) => PurgeDeletedInv(s.t, v);
    case Mutate(_, command) => ExecuteCommits(s.t, command);
    case _ => {}
  }

  lemma {:induction false} SoundRun(s: System, steps: seq<Step>, v: VaultId, m: Mirror, u: nat)
    requires SysInv(s) && Runs(s, steps) && Sound(m, u, LogOf(s, v)) && u <= s.t.sequence
    ensures Sound(m, u, LogOf(End(s, steps), v))
    decreases |steps|
  {
    if steps != [] {
      SoundStep(s, steps[0], v, m, u);
      SequenceRises(s, steps[0]);
      StepInv(s, steps[0]);
      SoundRun(Next(s, steps[0]), steps[1..], v, m, u);
    }
  }

  // A device is cut off at any moment of any run and comes back any time later with its
  // mirror and its position: it came sound again, and what is on its way completes its
  // mirror to the live state. So the same holds after any number of cuts.
  lemma Resumes(before: seq<Step>, after: seq<Step>, k: nat, j: nat)
    requires Runs(Boot, before) && Runs(End(Boot, before), after)
    requires var s := End(Boot, before);
      k in s.conns && Open(s.conns[k]) && s.conns[k].vault in s.t.vaults && CameSound(s, s.conns[k])
    requires var c, n := End(Boot, before).conns[k], End(End(Boot, before), after);
      && InStep(n, j) && n.conns[j].vault == c.vault && !n.conns[j].initial
      && n.conns[j].brought == c.mirror && n.conns[j].start == Position(c)
    ensures var n := End(End(Boot, before), after); var d := n.conns[j];
      && CameSound(n, d) && d.vault in n.topics && d.next <= n.topics[d.vault].tail
      && Arrived(n, d) == Live(Rows(n.t, d.vault))
  {
    BootRun(before);
    var s := End(Boot, before);
    var c := s.conns[k];
    MirrorSound(s, k);
    SoundRun(s, after, c.vault, c.mirror, Position(c));
    RunInv(s, after);
    ConvergesAt(End(s, after), j);
  }

  // ----- any number of cuts -----

  lemma {:induction false} RunJoin(s: System, a: seq<Step>, b: seq<Step>)
    requires Runs(s, a) && Runs(End(s, a), b)
    ensures Runs(s, a + b) && End(s, a + b) == End(End(s, a), b)
    decreases |a|
  {
    if a == [] {
      assert a + b == b;
    } else {
      RunJoin(Next(s, a[0]), a[1..], b);
      assert (a + b)[0] == a[0] && (a + b)[1..] == a[1..] + b;
    }
  }

  // A device and one of its connections: connection `key` of the system at some moment.
  datatype Visit = Visit(system: System, key: nat)

  // The connection is sound to start with.
  ghost predicate Came(x: Visit) {
    SysInv(x.system) && x.key in x.system.conns && CameSound(x.system, x.system.conns[x.key])
  }

  // Visit `y` is of the device of `x`, cut off there and back within the run `steps` with
  // its mirror and its position.
  ghost predicate Returns(x: Visit, steps: seq<Step>, y: Visit) {
    var s, n, k, j := x.system, y.system, x.key, y.key;
    && Runs(s, steps) && n == End(s, steps)
    && k in s.conns && Open(s.conns[k]) && s.conns[k].vault in s.t.vaults
    && j in n.conns && n.conns[j].vault == s.conns[k].vault && !n.conns[j].initial
    && n.conns[j].brought == s.conns[k].mirror && n.conns[j].start == Position(s.conns[k])
  }

  // One run after another, with the device cut off at the end of each.
  ghost predicate Chained(visits: seq<Visit>, runs: seq<seq<Step>>) {
    && |visits| == |runs| + 1
    && forall i {:trigger runs[i]} | 0 <= i < |runs| :: Returns(visits[i], runs[i], visits[i + 1])
  }

  ghost function Concat(runs: seq<seq<Step>>): seq<Step> {
    if runs == [] then [] else Concat(runs[..|runs| - 1]) + runs[|runs| - 1]
  }

  lemma ReturnsSound(x: Visit, steps: seq<Step>, y: Visit)
    requires Came(x) && Returns(x, steps, y)
    ensures Came(y)
  {
    var s, k := x.system, x.key;
    MirrorSound(s, k);
    SoundRun(s, steps, s.conns[k].vault, s.conns[k].mirror, Position(s.conns[k]));
    RunInv(s, steps);
  }

  lemma {:induction false} ChainSound(visits: seq<Visit>, runs: seq<seq<Step>>, i: nat)
    requires Chained(visits, runs) && Came(visits[0]) && i <= |runs|
    ensures Came(visits[i])
  {
    if i > 0 {
      ChainSound(visits, runs, i - 1);
      ReturnsSound(visits[i - 1], runs[i - 1], visits[i]);
    }
  }

  lemma {:induction false} ChainRuns(visits: seq<Visit>, runs: seq<seq<Step>>, i: nat)
    requires Chained(visits, runs) && i <= |runs|
    ensures Runs(visits[0].system, Concat(runs[..i]))
    ensures End(visits[0].system, Concat(runs[..i])) == visits[i].system
  {
    if i > 0 {
      ChainRuns(visits, runs, i - 1);
      RunJoin(visits[0].system, Concat(runs[..i - 1]), runs[i - 1]);
      assert runs[..i][..i - 1] == runs[..i - 1];
    }
  }

  // However often a device was cut off, at whatever moments, what is on its way to its
  // last connection completes its mirror to the live state.
  lemma ManyCuts(before: seq<Step>, visits: seq<Visit>, runs: seq<seq<Step>>)
    requires Runs(Boot, before) && Chained(visits, runs) && visits[0].system == End(Boot, before)
    requires var s, k := visits[0].system, visits[0].key; k in s.conns && CameSound(s, s.conns[k])
    ensures Runs(Boot, before + Concat(runs)) && End(Boot, before + Concat(runs)) == visits[|runs|].system
    ensures var n, j := visits[|runs|].system, visits[|runs|].key;
      InStep(n, j) ==>
        && n.conns[j].vault in n.topics && n.conns[j].next <= n.topics[n.conns[j].vault].tail
        && Arrived(n, n.conns[j]) == Live(Rows(n.t, n.conns[j].vault))
  {
    BootRun(before);
    ChainRuns(visits, runs, |runs|);
    assert runs[..|runs|] == runs;
    RunJoin(Boot, before, Concat(runs));
    LastSound(visits, runs);
  }

  lemma LastSound(visits: seq<Visit>, runs: seq<seq<Step>>)
    requires Chained(visits, runs) && Came(visits[0])
    ensures var n, j := visits[|runs|].system, visits[|runs|].key;
      InStep(n, j) ==>
        && n.conns[j].vault in n.topics && n.conns[j].next <= n.topics[n.conns[j].vault].tail
        && Arrived(n, n.conns[j]) == Live(Rows(n.t, n.conns[j].vault))
  {
    ChainSound(visits, runs, |runs|);
    var n, j := visits[|runs|].system, visits[|runs|].key;
    if InStep(n, j) { ConvergesAt(n, j); }
  }
}
