// Storage quotas: bytes reserved for uploads in flight and bytes committed stay together
// within the global and the per-owner limit.
module Quota {
  import opened Lists
  import opened Words
  import opened Revisions
  import opened Store

  // One upload in flight, for a vault and its owner.
  datatype Hold = Hold(owner: nat, vault: VaultId, bytes: nat)

  datatype Ledger = Ledger(global: int, owners: map<nat, int>)

  function ReservedBy(l: Ledger, owner: nat): int { if owner in l.owners then l.owners[owner] else 0 }

  // `try_reserve`; None is the refusal.
  function TryReserve(l: Ledger, committed: int, committedOwner: int, owner: nat, bytes: int, lim: Limits)
    : Option<Ledger>
  {
    var held := ReservedBy(l, owner);
    if committed < 0 || committedOwner < 0 || bytes <= 0 || lim.global <= 0 || lim.owner <= 0 then None
    else if committed > lim.global || l.global > lim.global - committed || bytes > lim.global - committed - l.global
         || committedOwner > lim.owner || held > lim.owner - committedOwner || bytes > lim.owner - committedOwner - held
      then None
    else Some(Ledger(l.global + bytes, l.owners[owner := held + bytes]))
  }

  // Dropping a reservation.
  function Release(l: Ledger, owner: nat, bytes: int): Ledger {
    var owners :=
      if owner !in l.owners then l.owners
      else
        var left := Saturate(l.owners[owner] - bytes);
        if left == 0 then l.owners - {owner} else l.owners[owner := left];
    Ledger(Saturate(l.global - bytes), owners)
  }

  // ----- what the ledger means -----

  function Total(live: seq<Hold>): nat {
    if live == [] then 0 else Total(live[..|live| - 1]) + live[|live| - 1].bytes
  }

  function Held(live: seq<Hold>, owner: nat): nat {
    if live == [] then 0
    else Held(live[..|live| - 1], owner) + if live[|live| - 1].owner == owner then live[|live| - 1].bytes else 0
  }

  function Without(live: seq<Hold>, i: nat): seq<Hold>
    requires i < |live|
  {
    live[..i] + live[i + 1..]
  }

  // The ledger is exactly the sum of the live reservations, without empty entries.
  ghost predicate Balanced(l: Ledger, live: seq<Hold>) {
    && l.global == Total(live) <= MAX_I64
    && (forall o {:trigger ReservedBy(l, o)} :: ReservedBy(l, o) == Held(live, o))
    && (forall o | o in l.owners :: l.owners[o] > 0)
  }

  lemma HoldSnoc(live: seq<Hold>, h: Hold, o: nat)
    ensures Total(live + [h]) == Total(live) + h.bytes
    ensures Held(live + [h], o) == Held(live, o) + if h.owner == o then h.bytes else 0
  {
    assert (live + [h])[..|live|] == live;
  }

  lemma {:induction false} WithoutSums(live: seq<Hold>, i: nat, o: nat)
    requires i < |live|
    ensures Total(Without(live, i)) == Total(live) - live[i].bytes
    ensures Held(Without(live, i), o) == Held(live, o) - if live[i].owner == o then live[i].bytes else 0
    decreases |live|
  {
    var init, last := live[..|live| - 1], live[|live| - 1];
    if i == |live| - 1 {
      assert Without(live, i) == init;
    } else {
      WithoutSums(init, i, o);
      assert Without(live, i) == Without(init, i) + [last];
      HoldSnoc(Without(init, i), last, o);
    }
  }

  lemma {:induction false} HoldWithin(live: seq<Hold>, i: nat)
    requires i < |live|
    ensures live[i].bytes <= Held(live, live[i].owner) <= Total(live)
    decreases |live|
  {
    HeldWithin(live, live[i].owner);
    if i < |live| - 1 { HoldWithin(live[..|live| - 1], i); }
  }

  lemma {:induction false} HeldWithin(live: seq<Hold>, o: nat)
    ensures Held(live, o) <= Total(live)
  {
    if live != [] { HeldWithin(live[..|live| - 1], o); }
  }

  lemma ReserveBalanced(l: Ledger, live: seq<Hold>, committed: int, committedOwner: int, h: Hold, lim: Limits)
    requires Balanced(l, live) && lim.global <= MAX_I64
    ensures var n := TryReserve(l, committed, committedOwner, h.owner, h.bytes, lim);
      n.Some? ==> Balanced(n.value, live + [h])
  {
    var n := TryReserve(l, committed, committedOwner, h.owner, h.bytes, lim);
    if n.Some? {
      forall o ensures ReservedBy(n.value, o) == Held(live + [h], o) {
        HoldSnoc(live, h, o);
        assert ReservedBy(l, o) == Held(live, o);
      }
      HoldSnoc(live, h, 0);
    }
  }

  // The saturating subtraction never saturates, and releasing undoes reserving.
  lemma ReleaseBalanced(l: Ledger, live: seq<Hold>, i: nat)
    requires Balanced(l, live) && i < |live| && live[i].bytes > 0
    ensures Balanced(Release(l, live[i].owner, live[i].bytes), Without(live, i))
    ensures Release(l, live[i].owner, live[i].bytes).global == l.global - live[i].bytes
  {
    var h := live[i];
    var n := Release(l, h.owner, h.bytes);
    HoldWithin(live, i);
    assert ReservedBy(l, h.owner) == Held(live, h.owner);
    WithoutSums(live, i, h.owner);
    forall o ensures ReservedBy(n, o) == Held(Without(live, i), o) {
      WithoutSums(live, i, o);
      assert ReservedBy(l, o) == Held(live, o);
    }
  }

  lemma ReserveRelease(l: Ledger, committed: int, committedOwner: int, owner: nat, bytes: int, lim: Limits)
    requires 0 <= l.global && lim.global <= MAX_I64 && lim.owner <= MAX_I64
    requires forall o | o in l.owners :: l.owners[o] > 0
    ensures var n := TryReserve(l, committed, committedOwner, owner, bytes, lim);
      n.Some? ==> Release(n.value, owner, bytes) == l
  {
    var n := TryReserve(l, committed, committedOwner, owner, bytes, lim);
    if n.Some? { assert Release(n.value, owner, bytes).owners == l.owners; }
  }

  // ----- the size a client is told -----

  function Min(a: int, b: int): int { if a < b then a else b }
  function Floor0(a: int): int { if a > 0 then a else 0 }

  // `effective_storage_limit`
  function EffectiveLimit(ownerUsed: int, globalUsed: int, ownerReserved: int, globalReserved: int, lim: Limits): int {
    var free := Floor0(Saturate(Saturate(lim.global - globalUsed) - globalReserved));
    Min(Floor0(Saturate(lim.owner - ownerReserved)), Saturate(ownerUsed + free))
  }

  predicate Word(x: int) { 0 <= x <= MAX_I64 }

  // The headroom shown is exactly what a reservation can get at that moment.
  lemma EffectiveLimitExact(l: Ledger, committed: int, committedOwner: int, owner: nat, bytes: int, lim: Limits)
    requires Word(committed) && Word(committedOwner) && Word(l.global) && Word(ReservedBy(l, owner))
    requires Word(bytes) && bytes > 0 && Word(lim.global) && Word(lim.owner)
    ensures TryReserve(l, committed, committedOwner, owner, bytes, lim).Some?
      <==> committedOwner + bytes <= EffectiveLimit(committedOwner, committed, ReservedBy(l, owner), l.global, lim)
  {
  }

  // ----- the shared state behind its mutex -----

  ghost predicate Positive(live: seq<Hold>) { forall h | h in live :: h.bytes > 0 }

  // A reservation is granted exactly when it fits both limits beside everything committed
  // and everything live.
  lemma GrantedExactly(l: Ledger, live: seq<Hold>, committed: int, committedOwner: int, h: Hold, lim: Limits)
    requires Balanced(l, live)
    ensures TryReserve(l, committed, committedOwner, h.owner, h.bytes, lim).Some?
       <==> Fits(live, committed, committedOwner, h, lim)
  {
    assert ReservedBy(l, h.owner) == Held(live, h.owner);
  }

  predicate Fits(live: seq<Hold>, committed: int, committedOwner: int, h: Hold, lim: Limits) {
    && 0 <= committed && 0 <= committedOwner && 0 < h.bytes
    && committed + Total(live) + h.bytes <= lim.global
    && committedOwner + Held(live, h.owner) + h.bytes <= lim.owner
  }

  lemma WithoutPositive(live: seq<Hold>, i: nat)
    requires i < |live| && Positive(live)
    ensures Positive(Without(live, i)) && live[i].bytes > 0
  {
    assert live[i] in live;
    forall h | h in Without(live, i) ensures h in live {}
  }

  class Reservations {
    var globalBytes: int
    var ownerBytes: map<nat, int>
    ghost var live: seq<Hold>

    function Contents(): Ledger
      reads this
    {
      Ledger(globalBytes, ownerBytes)
    }

    // The counters are exactly the sums of the live reservations.
    ghost predicate Valid()
      reads this
    {
      Balanced(Contents(), live) && Positive(live)
    }

    constructor ()
      ensures Valid() && live == [] && Contents() == Ledger(0, map[])
    {
      globalBytes, ownerBytes, live := 0, map[], [];
    }

    method Add(committed: int, committedOwner: int, owner: nat, bytes: int, lim: Limits) returns (ok: bool)
      modifies this`globalBytes, this`ownerBytes
      ensures var n := TryReserve(old(Contents()), committed, committedOwner, owner, bytes, lim);
        ok == n.Some? && Contents() == if ok then n.value else old(Contents())
    {
      if committed < 0 || committedOwner < 0 || bytes <= 0 || lim.global <= 0 || lim.owner <= 0 { return false; }
      var held := if owner in ownerBytes then ownerBytes[owner] else 0;
      if committed > lim.global || globalBytes > lim.global - committed
         || bytes > lim.global - committed - globalBytes || committedOwner > lim.owner
         || held > lim.owner - committedOwner || bytes > lim.owner - committedOwner - held
      {
        return false;
      }
      globalBytes := globalBytes + bytes;
      ownerBytes := ownerBytes[owner := held + bytes];
      return true;
    }

    method Subtract(owner: nat, bytes: int)
      modifies this`globalBytes, this`ownerBytes
      ensures Contents() == Release(old(Contents()), owner, bytes)
    {
      globalBytes := Saturate(globalBytes - bytes);
      if owner in ownerBytes {
        var left := Saturate(ownerBytes[owner] - bytes);
        ownerBytes := ownerBytes[owner := left];
        if left == 0 { ownerBytes := ownerBytes - {owner}; }
      }
    }

    // Granted exactly when it fits both limits beside everything committed and live.
    method Reserve(committed: int, committedOwner: int, h: Hold, lim: Limits) returns (ok: bool)
      requires Valid() && lim.global <= MAX_I64
      modifies this
      ensures Valid() && (ok <==> Fits(old(live), committed, committedOwner, h, lim))
      ensures live == if ok then old(live) + [h] else old(live)
      ensures var n := TryReserve(old(Contents()), committed, committedOwner, h.owner, h.bytes, lim);
        Contents() == if ok then n.value else old(Contents())
    {
      GrantedExactly(Contents(), live, committed, committedOwner, h, lim);
      ReserveBalanced(Contents(), live, committed, committedOwner, h, lim);
      ok := Add(committed, committedOwner, h.owner, h.bytes, lim);
      if ok { live := live + [h]; }
    }

    // Dropping the i-th live reservation, which is `h`, gives back exactly its bytes.
    method Drop(ghost i: nat, h: Hold)
      requires Valid() && i < |live| && live[i] == h
      modifies this
      ensures Valid() && live == Without(old(live), i)
      ensures globalBytes == old(globalBytes) - h.bytes >= 0
      ensures ReservedBy(Contents(), h.owner) == ReservedBy(old(Contents()), h.owner) - h.bytes >= 0
      ensures Contents() == Release(old(Contents()), h.owner, h.bytes)
    {
      WithoutPositive(live, i);
      Released(Contents(), live, i);
      Subtract(h.owner, h.bytes);
      live := Without(live, i);
    }
  }

  lemma Released(l: Ledger, live: seq<Hold>, i: nat)
    requires Balanced(l, live) && i < |live| && live[i].bytes > 0
    ensures var h := live[i]; var n := Release(l, h.owner, h.bytes);
      && Balanced(n, Without(live, i)) && n.global == l.global - h.bytes >= 0
      && ReservedBy(n, h.owner) == ReservedBy(l, h.owner) - h.bytes >= 0
  {
    var h := live[i];
    ReleaseBalanced(l, live, i);
    WithoutSums(live, i, h.owner);
    assert ReservedBy(l, h.owner) == Held(live, h.owner);
    assert ReservedBy(Release(l, h.owner, h.bytes), h.owner) == Held(Without(live, i), h.owner);
  }
}
