// Deleting the first rows of a selection in a given order, as a capped table does:
// DELETE ... WHERE id IN (SELECT id ... ORDER BY ... LIMIT n).
module Pruning {
  import opened Lists

  ghost predicate Distinct<T>(s: seq<T>) {
    s == [] || (s[|s| - 1] !in s[..|s| - 1] && Distinct(s[..|s| - 1]))
  }

  function Except<T(==)>(x: T): T -> bool { (y: T) => y != x }

  // The first selected row in the order, if there is one.
  function First<T(!new)>(s: seq<T>, sel: T -> bool, leq: (T, T) -> bool): (o: Option<T>)
    ensures o.Some? ==> o.value in s && sel(o.value)
  {
    if s == [] then None
    else
      var x, best := s[|s| - 1], First(s[..|s| - 1], sel, leq);
      assert s == s[..|s| - 1] + [x];
      if !sel(x) then best else if best.None? || !leq(best.value, x) then Some(x) else best
  }

  // Drop the first n selected rows.
  function Drop<T(==, !new)>(s: seq<T>, sel: T -> bool, leq: (T, T) -> bool, n: nat): seq<T>
    decreases n
  {
    if n == 0 then s
    else match First(s, sel, leq)
      case None => s
      case Some(o) => Drop(Filter(s, Except(o)), sel, leq, n - 1)
  }

  // A total order on the selected rows.
  ghost predicate Ordering<T(!new)>(sel: T -> bool, leq: (T, T) -> bool) {
    && (forall a, b | sel(a) && sel(b) :: leq(a, b) || leq(b, a))
    && (forall a, b, c | sel(a) && sel(b) && sel(c) :: leq(a, b) && leq(b, c) ==> leq(a, c))
  }

  lemma {:induction false} FirstLeads<T(!new)>(s: seq<T>, sel: T -> bool, leq: (T, T) -> bool, m: T)
    requires m in s && sel(m)
    ensures First(s, sel, leq).Some?
    ensures Ordering(sel, leq) ==> leq(First(s, sel, leq).value, m)
  {
    var rest, x := s[..|s| - 1], s[|s| - 1];
    assert s == rest + [x];
    if m in rest { FirstLeads(rest, sel, leq, m); }
  }

  lemma {:induction false} FilterDistinct<T(!new)>(s: seq<T>, keep: T -> bool)
    requires Distinct(s)
    ensures Distinct(Filter(s, keep))
  {
    if s != [] {
      var rest, x := s[..|s| - 1], s[|s| - 1];
      FilterDistinct(rest, keep);
      assert (Filter(rest, keep) + [x])[..|Filter(rest, keep)|] == Filter(rest, keep);
    }
  }

  lemma {:induction false} CountOne<T(!new)>(s: seq<T>, x: T, h: T -> bool)
    requires Distinct(s) && x in s && (forall m | m in s :: h(m) ==> m == x)
    ensures |Filter(s, h)| == if h(x) then 1 else 0
  {
    var rest, last := s[..|s| - 1], s[|s| - 1];
    assert s == rest + [last];
    if last == x {
      FilterNone(rest, h);
    } else {
      CountOne(rest, x, h);
    }
  }

  // Dropping one row takes one from the selections that held it.
  lemma DropOneCount<T(!new)>(s: seq<T>, x: T, f: T -> bool)
    requires Distinct(s) && x in s
    ensures |Filter(Filter(s, Except(x)), f)| == |Filter(s, f)| - (if f(x) then 1 else 0)
  {
    var g := (m: T) => m != x && f(m);
    var h := (m: T) => m == x && f(m);
    FilterFilter(s, Except(x), f, g);
    FilterSplit(s, f, g, h);
    CountOne(s, x, h);
  }

  lemma SomeFirst<T(!new)>(s: seq<T>, sel: T -> bool, leq: (T, T) -> bool) returns (o: T)
    requires Filter(s, sel) != []
    ensures First(s, sel, leq) == Some(o)
  {
    var m := Filter(s, sel)[0];
    assert m in Filter(s, sel);
    FirstLeads(s, sel, leq, m);
    o := First(s, sel, leq).value;
  }

  // Dropping n selected rows takes n from the selection itself.
  lemma {:induction false} DropCounts<T(!new)>(s: seq<T>, sel: T -> bool, leq: (T, T) -> bool, n: nat)
    requires Distinct(s) && n <= |Filter(s, sel)|
    ensures Distinct(Drop(s, sel, leq, n))
    ensures |Filter(Drop(s, sel, leq, n), sel)| == |Filter(s, sel)| - n
    decreases n
  {
    if n > 0 {
      var rest := DropNext(s, sel, leq, n);
      DropCounts(rest, sel, leq, n - 1);
    }
  }

  lemma DropNext<T(!new)>(s: seq<T>, sel: T -> bool, leq: (T, T) -> bool, n: nat) returns (rest: seq<T>)
    requires Distinct(s) && 0 < n <= |Filter(s, sel)|
    ensures Drop(s, sel, leq, n) == Drop(rest, sel, leq, n - 1) && Distinct(rest)
    ensures |Filter(rest, sel)| == |Filter(s, sel)| - 1
  {
    var o := SomeFirst(s, sel, leq);
    rest := Filter(s, Except(o));
    FilterDistinct(s, Except(o));
    DropOneCount(s, o, sel);
  }

  // A selection disjoint from the dropped one stays as it is.
  lemma {:induction false} DropSpares<T(!new)>(s: seq<T>, sel: T -> bool, leq: (T, T) -> bool, n: nat, f: T -> bool)
    requires forall m | m in s :: sel(m) ==> !f(m)
    ensures Filter(Drop(s, sel, leq, n), f) == Filter(s, f)
    decreases n
  {
    var o := First(s, sel, leq);
    if n > 0 && o.Some? {
      FilterFilter(s, Except(o.value), f, f);
      DropSpares(Filter(s, Except(o.value)), sel, leq, n - 1, f);
    }
  }

  lemma {:induction false} DropLength<T(!new)>(s: seq<T>, sel: T -> bool, leq: (T, T) -> bool, n: nat)
    requires Distinct(s) && n <= |Filter(s, sel)|
    ensures |Drop(s, sel, leq, n)| == |s| - n
  {
    var kept, unsel := Drop(s, sel, leq, n), (m: T) => !sel(m);
    var all := (m: T) => true;
    DropCounts(s, sel, leq, n);
    DropSpares(s, sel, leq, n, unsel);
    FilterSplit(s, all, sel, unsel);
    FilterSplit(kept, all, sel, unsel);
    FilterAll(s, all);
    FilterAll(kept, all);
  }

  // Only selected rows go, and only ones that come before every selected row kept.
  lemma {:induction false} DropOrder<T(!new)>(s: seq<T>, sel: T -> bool, leq: (T, T) -> bool, n: nat, a: T, b: T)
    requires Ordering(sel, leq)
    ensures a in Drop(s, sel, leq, n) ==> a in s
    ensures a in s && a !in Drop(s, sel, leq, n) ==> sel(a)
    ensures a in s && a !in Drop(s, sel, leq, n) && b in Drop(s, sel, leq, n) && sel(b) ==> leq(a, b)
    decreases n
  {
    var o := First(s, sel, leq);
    if n > 0 && o.Some? {
      var rest := Filter(s, Except(o.value));
      DropOrder(rest, sel, leq, n - 1, a, b);
      DropOrder(rest, sel, leq, n - 1, b, b);
      if b in s && sel(b) { FirstLeads(s, sel, leq, b); }
    }
  }
}
