// Retired vault identities: markers kept per owner and overall within hard bounds, for
// any clock values.
module Markers {
  import opened Lists
  import opened Revisions
  import opened Pruning
  import opened Text

  const MAX_RETIRED: nat := 8192
  const MAX_RETIRED_PER_OWNER: nat := 512

  datatype Marker = Marker(id: VaultId, owner: nat, at: int)

  function Of(owner: nat): Marker -> bool { (m: Marker) => m.owner == owner }
  function OtherThan(id: VaultId): Marker -> bool { (m: Marker) => m.id != id }

  // ORDER BY retired_at, id
  function ByAge(): (Marker, Marker) -> bool {
    (a: Marker, b: Marker) => a.at < b.at || (a.at == b.at && Leq(a.id, b.id))
  }

  function Count(rows: seq<Marker>, owner: nat): nat { |Filter(rows, Of(owner))| }

  // DELETE all of an owner's markers behind the newest k:
  // ORDER BY retired_at DESC, id DESC LIMIT -1 OFFSET k
  function KeepNewest(rows: seq<Marker>, owner: nat, k: nat): seq<Marker> {
    Drop(rows, Of(owner), ByAge(), if Count(rows, owner) <= k then 0 else Count(rows, owner) - k)
  }

  // INSERT OR REPLACE
  function Put(rows: seq<Marker>, m: Marker): seq<Marker> { Filter(rows, OtherThan(m.id)) + [m] }

  // `retire_vault_identity`; None is the refusal.
  function Retire(rows: seq<Marker>, id: VaultId, owner: nat, at: int): Option<seq<Marker>> {
    var kept := KeepNewest(rows, owner, MAX_RETIRED_PER_OWNER - 1);
    if |kept| >= MAX_RETIRED then None else Some(Put(kept, Marker(id, owner, at)))
  }

  ghost predicate UniqueIds(rows: seq<Marker>) {
    forall i, j | 0 <= i < j < |rows| :: rows[i].id != rows[j].id
  }

  function Ids(rows: seq<Marker>): set<VaultId> { set m | m in rows :: m.id }

  ghost predicate Inv(rows: seq<Marker>) {
    && UniqueIds(rows) && |rows| <= MAX_RETIRED
    && (forall o {:trigger Count(rows, o)} :: Count(rows, o) <= MAX_RETIRED_PER_OWNER)
  }

  // ----- pruning -----

  lemma AgeOrders(owner: nat)
    ensures Ordering(Of(owner), ByAge())
  {
    forall a: Marker, b: Marker ensures ByAge()(a, b) || ByAge()(b, a) { LeqTotal(a.id, b.id); }
    forall a: Marker, b: Marker, c: Marker | ByAge()(a, b) && ByAge()(b, c) ensures ByAge()(a, c) {
      if a.at == b.at == c.at { LeqTransitive(a.id, b.id, c.id); }
    }
  }

  lemma {:induction false} FilterIds(rows: seq<Marker>, keep: Marker -> bool)
    requires UniqueIds(rows)
    ensures UniqueIds(Filter(rows, keep))
  {
    if rows != [] {
      var rest, x := rows[..|rows| - 1], rows[|rows| - 1];
      FilterIds(rest, keep);
      var f := Filter(rest, keep);
      forall i | 0 <= i < |f| ensures f[i].id != x.id {
        assert f[i] in f && f[i] in rest;
        var j :| 0 <= j < |rest| && rest[j] == f[i];
        assert rows[j].id != rows[|rows| - 1].id;
      }
    }
  }

  lemma {:induction false} DropIds(rows: seq<Marker>, owner: nat, n: nat)
    requires UniqueIds(rows)
    ensures UniqueIds(Drop(rows, Of(owner), ByAge(), n))
    decreases n
  {
    var o := First(rows, Of(owner), ByAge());
    if n > 0 && o.Some? {
      FilterIds(rows, Except(o.value));
      DropIds(Filter(rows, Except(o.value)), owner, n - 1);
    }
  }

  lemma {:induction false} UniqueDistinct(rows: seq<Marker>)
    requires UniqueIds(rows)
    ensures Distinct(rows)
  {
    if rows != [] { UniqueDistinct(rows[..|rows| - 1]); }
  }

  lemma KeptCounts(rows: seq<Marker>, owner: nat, k: nat, o: nat)
    requires UniqueIds(rows)
    ensures var kept := KeepNewest(rows, owner, k);
      && UniqueIds(kept) && |kept| <= |rows|
      && Count(kept, o) == if o == owner && k < Count(rows, o) then k else Count(rows, o)
  {
    var n := if Count(rows, owner) <= k then 0 else Count(rows, owner) - k;
    UniqueDistinct(rows);
    DropIds(rows, owner, n);
    DropCounts(rows, Of(owner), ByAge(), n);
    DropLength(rows, Of(owner), ByAge(), n);
    if o != owner { DropSpares(rows, Of(owner), ByAge(), n, Of(o)); }
  }

  // A marker fits when there is room in all or it takes the place of the owner's oldest.
  lemma RetireRoom(rows: seq<Marker>, id: VaultId, owner: nat, at: int)
    requires Inv(rows)
    ensures Retire(rows, id, owner, at).Some? <==>
      |rows| < MAX_RETIRED || Count(rows, owner) >= MAX_RETIRED_PER_OWNER
  {
    var k: nat := MAX_RETIRED_PER_OWNER - 1;
    var n := if Count(rows, owner) <= k then 0 else Count(rows, owner) - k;
    UniqueDistinct(rows);
    DropLength(rows, Of(owner), ByAge(), n);
  }

  // What is kept is a part of what was there, other owners' markers stay, and every
  // marker kept of the owner is at least as new as every one dropped.
  lemma KeptNewest(rows: seq<Marker>, owner: nat, k: nat, a: Marker, b: Marker)
    ensures var kept := KeepNewest(rows, owner, k);
      && (a in kept ==> a in rows)
      && (a in rows && a !in kept ==> a.owner == owner)
      && (a in rows && a !in kept && b in kept && b.owner == owner ==> ByAge()(a, b))
  {
    AgeOrders(owner);
    DropOrder(rows, Of(owner), ByAge(), if Count(rows, owner) <= k then 0 else Count(rows, owner) - k, a, b);
  }

  lemma PutCounts(rows: seq<Marker>, m: Marker, o: nat)
    requires UniqueIds(rows)
    ensures UniqueIds(Put(rows, m)) && |Put(rows, m)| <= |rows| + 1
    ensures Count(Put(rows, m), o) <= Count(rows, o) + (if o == m.owner then 1 else 0)
    ensures Ids(Put(rows, m)) == Ids(rows) + {m.id}
  {
    var rest := Filter(rows, OtherThan(m.id));
    FilterIds(rows, OtherThan(m.id));
    FilterSnoc(rest, m, Of(o));
    var both := (x: Marker) => x.id != m.id && x.owner == o;
    FilterFilter(rows, OtherThan(m.id), Of(o), both);
    FilterShorter(rows, both, Of(o));
    forall i | 0 <= i < |rest| ensures rest[i].id != m.id { assert rest[i] in rest; }
    PutIds(rows, m);
  }

  lemma PutIds(rows: seq<Marker>, m: Marker)
    ensures Ids(Put(rows, m)) == Ids(rows) + {m.id}
  {
    forall id ensures id in Ids(Put(rows, m)) <==> id in Ids(rows) + {m.id} {
      if id in Ids(Put(rows, m)) {
        var x :| x in Put(rows, m) && x.id == id;
        if x != m { assert x in Filter(rows, OtherThan(m.id)); }
      }
      if id in Ids(rows) && id != m.id {
        var x :| x in rows && x.id == id;
        assert x in Filter(rows, OtherThan(m.id));
      }
      assert m in Put(rows, m);
    }
  }

  // Retiring keeps both bounds whatever the clock says.
  lemma RetireInv(rows: seq<Marker>, id: VaultId, owner: nat, at: int)
    requires Inv(rows)
    ensures var n := Retire(rows, id, owner, at);
      n.Some? ==>
        Inv(n.value) && id in Ids(n.value) && Ids(n.value) <= Ids(rows) + {id} && Marks(rows, n.value, id, owner, at)
  {
    var kept, m := KeepNewest(rows, owner, MAX_RETIRED_PER_OWNER - 1), Marker(id, owner, at);
    if |kept| < MAX_RETIRED {
      forall o ensures Count(Put(kept, m), o) <= MAX_RETIRED_PER_OWNER {
        KeptCounts(rows, owner, MAX_RETIRED_PER_OWNER - 1, o);
        PutCounts(kept, m, o);
        assert Count(rows, o) <= MAX_RETIRED_PER_OWNER;
      }
      KeptCounts(rows, owner, MAX_RETIRED_PER_OWNER - 1, owner);
      PutCounts(kept, m, owner);
      KeptIds(rows, owner, MAX_RETIRED_PER_OWNER - 1);
      RetireMarks(rows, id, owner, at);
    }
  }

  // The id is marked with its owner and the time, nothing else is added, and no marker of
  // another id and owner goes.
  ghost predicate Marks(rows: seq<Marker>, n: seq<Marker>, id: VaultId, owner: nat, at: int) {
    && Marker(id, owner, at) in n && (forall m | m in n :: m == Marker(id, owner, at) || m in rows)
    && (forall m | m in rows && m.owner != owner && m.id != id :: m in n)
  }

  lemma RetireMarks(rows: seq<Marker>, id: VaultId, owner: nat, at: int)
    ensures Retire(rows, id, owner, at).Some? ==> Marks(rows, Retire(rows, id, owner, at).value, id, owner, at)
  {
    var k: nat := MAX_RETIRED_PER_OWNER - 1;
    var kept := KeepNewest(rows, owner, k);
    forall m ensures (m in kept ==> m in rows) && (m in rows && m !in kept ==> m.owner == owner) {
      KeptNewest(rows, owner, k, m, m);
    }
  }

  lemma KeptIds(rows: seq<Marker>, owner: nat, k: nat)
    ensures Ids(KeepNewest(rows, owner, k)) <= Ids(rows)
  {
    forall m | m in KeepNewest(rows, owner, k) ensures m in rows { KeptNewest(rows, owner, k, m, m); }
  }

  // ----- retiring every active vault at once, in a recovery -----

  // One prune per owner, in whatever order the owners come.
  function PruneEach(rows: seq<Marker>, retiring: seq<Marker>, owners: seq<nat>): seq<Marker> {
    if owners == [] then rows
    else
      var o := owners[|owners| - 1];
      KeepNewest(PruneEach(rows, retiring, owners[..|owners| - 1]), o, Room(retiring, o))
  }

  // How many markers an owner may keep beside those to come.
  function Room(retiring: seq<Marker>, o: nat): nat {
    if Count(retiring, o) <= MAX_RETIRED_PER_OWNER then MAX_RETIRED_PER_OWNER - Count(retiring, o) else 0
  }

  function PutAll(rows: seq<Marker>, ms: seq<Marker>): seq<Marker> {
    if ms == [] then rows else Put(PutAll(rows, ms[..|ms| - 1]), ms[|ms| - 1])
  }

  predicate Overfull(retiring: seq<Marker>, owners: seq<nat>) {
    exists o | o in owners :: Count(retiring, o) > MAX_RETIRED_PER_OWNER
  }

  // The marker part of `rotate_recovery_epoch`; None is the refusal.
  function RetireAll(rows: seq<Marker>, retiring: seq<Marker>, owners: seq<nat>): Option<seq<Marker>> {
    if Overfull(retiring, owners) then None
    else
      var pruned := PruneEach(rows, retiring, owners);
      if |pruned| + |retiring| > MAX_RETIRED then None else Some(PutAll(pruned, retiring))
  }

  // One more owner pruned.
  lemma PruneNext(rows: seq<Marker>, retiring: seq<Marker>, owners: seq<nat>, i: nat)
    requires i < |owners| && !Overfull(retiring, owners[..i])
    ensures Count(retiring, owners[i]) > MAX_RETIRED_PER_OWNER ==> Overfull(retiring, owners)
    ensures Count(retiring, owners[i]) <= MAX_RETIRED_PER_OWNER ==> !Overfull(retiring, owners[..i + 1])
    ensures PruneEach(rows, retiring, owners[..i + 1])
         == KeepNewest(PruneEach(rows, retiring, owners[..i]), owners[i], Room(retiring, owners[i]))
  {
    assert owners[..i + 1] == owners[..i] + [owners[i]] && owners[..i + 1][..i] == owners[..i];
    assert owners[i] in owners;
  }

  // `owners` lists every owner of a vault being retired.
  ghost predicate Covers(owners: seq<nat>, retiring: seq<Marker>) {
    forall m | m in retiring :: m.owner in owners
  }

  lemma {:induction false} PrunedEach(rows: seq<Marker>, retiring: seq<Marker>, owners: seq<nat>)
    requires UniqueIds(rows)
    ensures var n := PruneEach(rows, retiring, owners); UniqueIds(n) && |n| <= |rows| && Ids(n) <= Ids(rows)
    decreases |owners|
  {
    if owners != [] {
      var before, p := owners[..|owners| - 1], owners[|owners| - 1];
      PrunedEach(rows, retiring, before);
      var mid, k := PruneEach(rows, retiring, before), Room(retiring, p);
      KeptCounts(mid, p, k, p);
      KeptIds(mid, p, k);
    }
  }

  lemma {:induction false} PrunedCounts(rows: seq<Marker>, retiring: seq<Marker>, owners: seq<nat>, o: nat)
    requires UniqueIds(rows) && forall p | p in owners :: Count(retiring, p) <= MAX_RETIRED_PER_OWNER
    ensures Roomy(rows, PruneEach(rows, retiring, owners), retiring, owners, o)
    decreases |owners|
  {
    if owners != [] {
      var before, p := owners[..|owners| - 1], owners[|owners| - 1];
      assert owners == before + [p];
      PrunedCounts(rows, retiring, before, o);
      PrunedEach(rows, retiring, before);
      PruneOne(rows, PruneEach(rows, retiring, before), retiring, before, p, o);
    }
  }

  // Pruned rows leave an owner room for the markers to come.
  ghost predicate Roomy(rows: seq<Marker>, n: seq<Marker>, retiring: seq<Marker>, owners: seq<nat>, o: nat) {
    Count(n, o) <= Count(rows, o) && (o in owners ==> Count(n, o) + Count(retiring, o) <= MAX_RETIRED_PER_OWNER)
  }

  lemma PruneOne(rows: seq<Marker>, mid: seq<Marker>, retiring: seq<Marker>, before: seq<nat>, p: nat, o: nat)
    requires UniqueIds(mid) && Count(retiring, p) <= MAX_RETIRED_PER_OWNER && Roomy(rows, mid, retiring, before, o)
    ensures Roomy(rows, KeepNewest(mid, p, Room(retiring, p)), retiring, before + [p], o)
  {
    KeptCounts(mid, p, Room(retiring, p), o);
  }

  // How many markers the owners have too many beside those to come.
  function Surplus(rows: seq<Marker>, retiring: seq<Marker>, owners: seq<nat>): int {
    if owners == [] then 0
    else
      var before, o := owners[..|owners| - 1], owners[|owners| - 1];
      Surplus(rows, retiring, before) + if o in before then 0 else Excess(rows, retiring, o)
  }

  function Excess(rows: seq<Marker>, retiring: seq<Marker>, o: nat): nat {
    var n := Count(rows, o) + Count(retiring, o);
    if n <= MAX_RETIRED_PER_OWNER then 0 else n - MAX_RETIRED_PER_OWNER
  }

  lemma {:induction false} OtherCounts(rows: seq<Marker>, retiring: seq<Marker>, owners: seq<nat>, o: nat)
    requires UniqueIds(rows) && o !in owners
    ensures Count(PruneEach(rows, retiring, owners), o) == Count(rows, o)
    decreases |owners|
  {
    if owners != [] {
      var before, p := owners[..|owners| - 1], owners[|owners| - 1];
      assert owners == before + [p];
      OtherCounts(rows, retiring, before, o);
      PrunedEach(rows, retiring, before);
      KeptCounts(PruneEach(rows, retiring, before), p, Room(retiring, p), o);
    }
  }

  lemma KeptLength(rows: seq<Marker>, owner: nat, k: nat)
    requires UniqueIds(rows)
    ensures |KeepNewest(rows, owner, k)| == |rows| - if Count(rows, owner) <= k then 0 else Count(rows, owner) - k
  {
    UniqueDistinct(rows);
    DropLength(rows, Of(owner), ByAge(), if Count(rows, owner) <= k then 0 else Count(rows, owner) - k);
  }

  // The prunes take exactly the surplus.
  lemma {:induction false} PrunedLength(rows: seq<Marker>, retiring: seq<Marker>, owners: seq<nat>)
    requires UniqueIds(rows) && forall p | p in owners :: Count(retiring, p) <= MAX_RETIRED_PER_OWNER
    ensures |PruneEach(rows, retiring, owners)| == |rows| - Surplus(rows, retiring, owners)
    decreases |owners|
  {
    if owners != [] {
      var before, o := owners[..|owners| - 1], owners[|owners| - 1];
      assert owners == before + [o];
      PrunedLength(rows, retiring, before);
      PrunedEach(rows, retiring, before);
      KeptLength(PruneEach(rows, retiring, before), o, Room(retiring, o));
      if o in before { PrunedCounts(rows, retiring, before, o); } else { OtherCounts(rows, retiring, before, o); }
    }
  }

  lemma IdsSnoc(ms: seq<Marker>, m: Marker)
    ensures Ids(ms + [m]) == Ids(ms) + {m.id}
  {
    assert m in ms + [m];
    forall y | y in ms ensures y in ms + [m] {}
  }

  lemma {:induction false} PutAllIds(rows: seq<Marker>, ms: seq<Marker>)
    requires UniqueIds(rows)
    ensures var n := PutAll(rows, ms); UniqueIds(n) && |n| <= |rows| + |ms| && Ids(n) == Ids(rows) + Ids(ms)
    decreases |ms|
  {
    if ms != [] {
      var before, m := ms[..|ms| - 1], ms[|ms| - 1];
      assert ms == before + [m];
      PutAllIds(rows, before);
      PutCounts(PutAll(rows, before), m, m.owner);
      IdsSnoc(before, m);
    }
  }

  lemma {:induction false} PutAllCounts(rows: seq<Marker>, ms: seq<Marker>, o: nat)
    requires UniqueIds(rows)
    ensures Count(PutAll(rows, ms), o) <= Count(rows, o) + Count(ms, o)
    decreases |ms|
  {
    if ms != [] {
      var before, m := ms[..|ms| - 1], ms[|ms| - 1];
      assert ms == before + [m];
      PutAllCounts(rows, before, o);
      PutAllIds(rows, before);
      PutCounts(PutAll(rows, before), m, o);
      FilterSnoc(before, m, Of(o));
    }
  }

  lemma NoneOf(ms: seq<Marker>, o: nat)
    requires forall m | m in ms :: m.owner != o
    ensures Count(ms, o) == 0
  {
    FilterNone(ms, Of(o));
  }

  // Both bounds survive the rotation, every old id is marked, and nothing else is.
  lemma RetireAllInv(rows: seq<Marker>, retiring: seq<Marker>, owners: seq<nat>)
    requires Inv(rows) && Covers(owners, retiring)
    ensures var n := RetireAll(rows, retiring, owners);
      n.Some? ==> Inv(n.value) && Ids(retiring) <= Ids(n.value) <= Ids(rows) + Ids(retiring)
  {
    var n := RetireAll(rows, retiring, owners);
    if n.Some? {
      var pruned := PruneEach(rows, retiring, owners);
      PrunedEach(rows, retiring, owners);
      forall o ensures Count(n.value, o) <= MAX_RETIRED_PER_OWNER {
        PrunedCounts(rows, retiring, owners, o);
        PutAllCounts(pruned, retiring, o);
        assert Count(rows, o) <= MAX_RETIRED_PER_OWNER;
        if o !in owners { NoneOf(retiring, o); }
      }
      PutAllIds(pruned, retiring);
    }
  }
}
