// The rate limits on share invitations: one hour of admitted attempts in a queue.
module InviteLimits {
  import opened Lists

  const WINDOW: int := 3600
  const MAX_USER_ENTRIES: nat := 256

  datatype Attempt = Attempt(source: string, user: nat, target: string, at: int)

  datatype Config = Config(global: nat, perSource: nat, perUser: nat, targetsPerUser: nat)

  function From(source: string): Attempt -> bool { (a: Attempt) => a.source == source }
  function By(user: nat): Attempt -> bool { (a: Attempt) => a.user == user }
  function Younger(now: int): Attempt -> bool { (a: Attempt) => now - a.at < WINDOW }
  function Within(end: int): Attempt -> bool { (a: Attempt) => end - WINDOW < a.at <= end }

  function Users(s: seq<Attempt>): set<nat> { set a | a in s :: a.user }
  function Targets(s: seq<Attempt>, user: nat): set<string> { set a | a in s && a.user == user :: a.target }

  ghost predicate SourceFits(c: Config, s: seq<Attempt>, source: string) { |Filter(s, From(source))| <= c.perSource }
  ghost predicate UserFits(c: Config, s: seq<Attempt>, user: nat) {
    |Filter(s, By(user))| <= c.perUser && |Targets(s, user)| <= c.targetsPerUser
  }

  // What one hour of attempts may contain.
  ghost predicate Fits(c: Config, s: seq<Attempt>) {
    && |s| <= c.global && |Users(s)| <= MAX_USER_ENTRIES
    && (forall x {:trigger SourceFits(c, s, x)} :: SourceFits(c, s, x))
    && (forall u {:trigger UserFits(c, s, u)} :: UserFits(c, s, u))
  }

  ghost predicate Rising(s: seq<Attempt>) { forall i, j | 0 <= i < j < |s| :: s[i].at <= s[j].at }

  // Every attempt was admitted within the limits of the hour that ended with it.
  ghost predicate Admissible(c: Config, log: seq<Attempt>) {
    log == [] ||
    var before, a := log[..|log| - 1], log[|log| - 1];
    Admissible(c, before) && Fits(c, Filter(before, Younger(a.at)) + [a])
  }

  // The checks of `admit`, in its terms: `known` users do not count again.
  predicate Admits(c: Config, s: seq<Attempt>, a: Attempt) {
    && |s| < c.global && |Filter(s, From(a.source))| < c.perSource && |Filter(s, By(a.user))| < c.perUser
    && (a.target in Targets(s, a.user) || |Targets(s, a.user)| < c.targetsPerUser)
    && (a.user in Users(s) || |Users(s)| < MAX_USER_ENTRIES)
  }

  // The queue is exactly the admitted attempts younger than an hour.
  ghost predicate QueueOk(c: Config, attempts: seq<Attempt>, log: seq<Attempt>, clock: int) {
    && Rising(log) && (log != [] ==> log[|log| - 1].at <= clock)
    && attempts == Filter(log, Younger(clock)) && Fits(c, attempts) && Admissible(c, log)
  }

  class Limits {
    const config: Config
    var attempts: seq<Attempt>
    ghost var log: seq<Attempt>
    ghost var clock: int

    ghost predicate Valid()
      reads this
    {
      QueueOk(config, attempts, log, clock)
    }

    constructor (config: Config, now: int)
      ensures Valid() && log == [] && clock == now && this.config == config
    {
      this.config, attempts, log, clock := config, [], [], now;
      new;
      EmptyFits(config);
    }

    // Drops the attempts that have left the window.
    method Expire(now: int)
      requires Rising(attempts)
      modifies this`attempts
      ensures attempts == Filter(old(attempts), Younger(now))
    {
      while attempts != [] && now - attempts[0].at >= WINDOW
        invariant Rising(attempts) && Filter(attempts, Younger(now)) == Filter(old(attempts), Younger(now))
        decreases |attempts|
      {
        DropFront(attempts, now);
        attempts := attempts[1..];
      }
      FilterAll(attempts, Younger(now));
    }

    method Admit(source: string, user: nat, target: string, now: int) returns (ok: bool)
      requires Valid() && clock <= now
      modifies this
      ensures Valid() && clock == now
      ensures ok <==> Fits(config, Filter(old(log), Younger(now)) + [Attempt(source, user, target, now)])
      ensures log == if ok then old(log) + [Attempt(source, user, target, now)] else old(log)
    {
      Aged(config, attempts, log, clock, now);
      Expire(now);
      clock := now;
      var a := Attempt(source, user, target, now);
      ok := Admits(config, attempts, a);
      Queued(config, attempts, log, a);
      if ok {
        attempts := attempts + [a];
        log := log + [a];
      }
    }
  }

  lemma Aged(c: Config, attempts: seq<Attempt>, log: seq<Attempt>, clock: int, now: int)
    requires QueueOk(c, attempts, log, clock) && clock <= now
    ensures Rising(attempts) && QueueOk(c, Filter(attempts, Younger(now)), log, now)
  {
    RisingFilter(log, Younger(clock));
    Aging(log, clock, now);
    FilterFits(c, attempts, Younger(now));
  }

  lemma Queued(c: Config, attempts: seq<Attempt>, log: seq<Attempt>, a: Attempt)
    requires QueueOk(c, attempts, log, a.at)
    ensures Admits(c, attempts, a) <==> Fits(c, Filter(log, Younger(a.at)) + [a])
    ensures Admits(c, attempts, a) ==> QueueOk(c, attempts + [a], log + [a], a.at)
  {
    AdmitExact(c, attempts, a);
    if Admits(c, attempts, a) { Logged(c, log, a, a.at); }
  }

  lemma EmptyFits(c: Config)
    ensures Fits(c, [])
  {
    forall x ensures SourceFits(c, [], x) {}
    forall u ensures UserFits(c, [], u) { assert Targets([], u) == {}; }
    assert Users([]) == {};
  }

  lemma DropFront(s: seq<Attempt>, now: int)
    requires s != [] && now - s[0].at >= WINDOW
    ensures Filter(s[1..], Younger(now)) == Filter(s, Younger(now))
  {
    assert s == [s[0]] + s[1..];
    FilterConcat([s[0]], s[1..], Younger(now));
    FilterNone([s[0]], Younger(now));
  }

  lemma {:induction false} RisingFilter(s: seq<Attempt>, keep: Attempt -> bool)
    requires Rising(s)
    ensures Rising(Filter(s, keep))
  {
    if s != [] {
      var init, x := s[..|s| - 1], s[|s| - 1];
      RisingFilter(init, keep);
      var f := Filter(init, keep);
      forall i | 0 <= i < |f| ensures f[i].at <= x.at { assert f[i] in f && f[i] in init; }
    }
  }

  lemma Aging(log: seq<Attempt>, was: int, now: int)
    requires was <= now
    ensures Filter(Filter(log, Younger(was)), Younger(now)) == Filter(log, Younger(now))
  {
    FilterFilter(log, Younger(was), Younger(now), Younger(now));
  }

  // Fewer attempts fit too.
  lemma FilterFits(c: Config, s: seq<Attempt>, keep: Attempt -> bool)
    requires Fits(c, s)
    ensures Fits(c, Filter(s, keep))
  {
    var f := Filter(s, keep);
    forall x ensures SourceFits(c, f, x) {
      assert SourceFits(c, s, x);
      FilterCount(s, keep, From(x));
    }
    forall u ensures UserFits(c, f, u) {
      assert UserFits(c, s, u);
      FilterCount(s, keep, By(u));
      SubsetSize(Targets(f, u), Targets(s, u));
    }
    SubsetSize(Users(f), Users(s));
  }

  lemma FilterCount(s: seq<Attempt>, keep: Attempt -> bool, f: Attempt -> bool)
    ensures |Filter(Filter(s, keep), f)| <= |Filter(s, f)|
  {
    var both := (a: Attempt) => keep(a) && f(a);
    FilterFilter(s, keep, f, both);
    FilterShorter(s, both, f);
  }

  lemma SnocUsers(s: seq<Attempt>, a: Attempt)
    ensures Users(s + [a]) == Users(s) + {a.user}
    ensures Targets(s + [a], a.user) == Targets(s, a.user) + {a.target}
  {
    assert a in s + [a];
    forall x | x in s ensures x in s + [a] {}
  }

  lemma SnocTargets(s: seq<Attempt>, a: Attempt, u: nat)
    requires u != a.user
    ensures Targets(s + [a], u) == Targets(s, u)
  {
    forall x | x in s ensures x in s + [a] {}
  }

  // One more attempt fits if and only if the checks pass.
  lemma AdmitExact(c: Config, s: seq<Attempt>, a: Attempt)
    requires Fits(c, s)
    ensures Admits(c, s, a) <==> Fits(c, s + [a])
  {
    var n := s + [a];
    SnocUsers(s, a);
    FilterSnoc(s, a, From(a.source));
    FilterSnoc(s, a, By(a.user));
    if Admits(c, s, a) {
      forall x ensures SourceFits(c, n, x) {
        assert SourceFits(c, s, x);
        FilterSnoc(s, a, From(x));
      }
      forall u ensures UserFits(c, n, u) {
        assert UserFits(c, s, u);
        FilterSnoc(s, a, By(u));
        if u != a.user { SnocTargets(s, a, u); }
      }
    }
    assert Fits(c, n) ==> SourceFits(c, n, a.source) && UserFits(c, n, a.user);
  }

  lemma Logged(c: Config, log: seq<Attempt>, a: Attempt, now: int)
    requires Rising(log) && (log != [] ==> log[|log| - 1].at <= now) && a.at == now && Admissible(c, log)
    requires Fits(c, Filter(log, Younger(now)) + [a])
    ensures Rising(log + [a]) && Admissible(c, log + [a])
    ensures Filter(log + [a], Younger(now)) == Filter(log, Younger(now)) + [a]
  {
    assert (log + [a])[..|log|] == log;
    FilterSnoc(log, a, Younger(now));
  }

  // No hour, wherever it starts, ever holds more than the limits allow.
  lemma {:induction false} EveryHourFits(c: Config, log: seq<Attempt>, end: int)
    requires Rising(log) && Admissible(c, log)
    ensures Fits(c, Filter(log, Within(end)))
  {
    if log == [] {
      EmptyFits(c);
    } else {
      var before, a := log[..|log| - 1], log[|log| - 1];
      assert log == before + [a];
      EveryHourFits(c, before, end);
      FilterSnoc(before, a, Within(end));
      if Within(end)(a) {
        var hour := Filter(before, Younger(a.at));
        FilterFits(c, hour + [a], Within(end));
        FilterSnoc(hour, a, Within(end));
        forall x | x in before ensures Within(end)(x) == (Younger(a.at)(x) && Within(end)(x)) {}
        FilterFilter(before, Younger(a.at), Within(end), Within(end));
      }
    }
  }
}
