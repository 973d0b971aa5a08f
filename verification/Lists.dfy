// Filtering of sequences: the relational selections and deletions of the server
// are filters over tables kept in primary-key order.
module Lists {

  datatype Option<+T> = None | Some(value: T)

  function Filter<T(!new)>(s: seq<T>, keep: T -> bool): (r: seq<T>)
    ensures forall x {:trigger x in r} :: x in r <==> x in s && keep(x)
    ensures |r| <= |s|
  {
    if s == [] then []
    else
      var rest := Filter(s[..|s| - 1], keep);
      assert s == s[..|s| - 1] + [s[|s| - 1]];
      if keep(s[|s| - 1]) then rest + [s[|s| - 1]] else rest
  }

  lemma FilterSnoc<T(!new)>(s: seq<T>, x: T, keep: T -> bool)
    ensures Filter(s + [x], keep) == if keep(x) then Filter(s, keep) + [x] else Filter(s, keep)
  {
    assert (s + [x])[..|s|] == s;
  }

  lemma ConcatAssoc<T>(a: seq<T>, b: seq<T>, c: seq<T>)
    ensures a + (b + c) == (a + b) + c
  {
  }

  lemma FilterConcatSnoc<T(!new)>(a: seq<T>, b: seq<T>, x: T, keep: T -> bool)
    requires Filter(a + b, keep) == Filter(a, keep) + Filter(b, keep)
    ensures Filter(a + (b + [x]), keep) == Filter(a, keep) + Filter(b + [x], keep)
  {
    FilterSnoc(a + b, x, keep);
    FilterSnoc(b, x, keep);
    ConcatAssoc(a, b, [x]);
    ConcatAssoc(Filter(a, keep), Filter(b, keep), [x]);
  }

  lemma {:induction false} FilterConcat<T(!new)>(a: seq<T>, b: seq<T>, keep: T -> bool)
    ensures Filter(a + b, keep) == Filter(a, keep) + Filter(b, keep)
  {
    if b == [] {
      assert a + b == a;
    } else {
      FilterConcat(a, b[..|b| - 1], keep);
      FilterConcatSnoc(a, b[..|b| - 1], b[|b| - 1], keep);
      assert b == b[..|b| - 1] + [b[|b| - 1]];
    }
  }

  lemma {:induction false} FilterAgree<T(!new)>(s: seq<T>, f: T -> bool, g: T -> bool)
    requires forall x | x in s :: f(x) == g(x)
    ensures Filter(s, f) == Filter(s, g)
  {
    if s != [] {
      FilterAgree(s[..|s| - 1], f, g);
    }
  }

  lemma {:induction false} FilterAll<T(!new)>(s: seq<T>, f: T -> bool)
    requires forall x | x in s :: f(x)
    ensures Filter(s, f) == s
  {
    if s != [] {
      FilterAll(s[..|s| - 1], f);
    }
  }

  lemma {:induction false} FilterNone<T(!new)>(s: seq<T>, f: T -> bool)
    requires forall x | x in s :: !f(x)
    ensures Filter(s, f) == []
  {
    if s != [] {
      FilterNone(s[..|s| - 1], f);
    }
  }

  lemma {:induction false} FilterFilter<T(!new)>(s: seq<T>, f: T -> bool, g: T -> bool, h: T -> bool)
    requires forall x | x in s :: h(x) == (f(x) && g(x))
    ensures Filter(Filter(s, f), g) == Filter(s, h)
  {
    if s != [] {
      var rest, x := s[..|s| - 1], s[|s| - 1];
      FilterFilter(rest, f, g, h);
      FilterSnoc(Filter(rest, f), x, g);
    }
  }

  // Splitting a filter by a second condition splits its length.
  lemma {:induction false} FilterSplit<T(!new)>(s: seq<T>, f: T -> bool, g: T -> bool, h: T -> bool)
    requires forall x | x in s :: f(x) == (g(x) || h(x))
    requires forall x | x in s :: !(g(x) && h(x))
    ensures |Filter(s, f)| == |Filter(s, g)| + |Filter(s, h)|
  {
    if s != [] {
      FilterSplit(s[..|s| - 1], f, g, h);
    }
  }

  lemma {:induction false} FilterShorter<T(!new)>(s: seq<T>, f: T -> bool, g: T -> bool)
    requires forall x | x in s :: f(x) ==> g(x)
    ensures |Filter(s, f)| <= |Filter(s, g)|
  {
    if s != [] {
      FilterShorter(s[..|s| - 1], f, g);
    }
  }

  function Map<T, U>(s: seq<T>, f: T -> U): (r: seq<U>)
    ensures |r| == |s|
    ensures forall i | 0 <= i < |s| :: r[i] == f(s[i])
  {
    seq(|s|, i requires 0 <= i < |s| => f(s[i]))
  }

  lemma {:induction false} FilterMap<T(!new), U(!new)>(s: seq<T>, g: T -> U, f: U -> bool, h: T -> bool)
    requires forall x | x in s :: h(x) == f(g(x))
    ensures Filter(Map(s, g), f) == Map(Filter(s, h), g)
  {
    if s != [] {
      var rest, x := s[..|s| - 1], s[|s| - 1];
      FilterMap(rest, g, f, h);
      assert Map(s, g) == Map(rest, g) + [g(x)];
      FilterSnoc(Map(rest, g), g(x), f);
    }
  }

  function Take<T>(s: seq<T>, n: nat): (r: seq<T>)
    ensures r <= s
  {
    if |s| <= n then s else s[..n]
  }

  lemma SubsetSize<T>(a: set<T>, b: set<T>)
    requires a <= b
    ensures |a| <= |b|
  {
    assert b == a + (b - a);
  }

  lemma OneKeyMore<K, V>(m: map<K, V>, k: K, v: V)
    requires k !in m
    ensures |m[k := v]| == |m| + 1
  {
    assert m[k := v].Keys == m.Keys + {k};
    assert |m| == |m.Keys| && |m[k := v]| == |m[k := v].Keys|;
  }

  lemma {:induction false} FilterLengths<T(!new)>(s: seq<T>, keep: T -> bool, drop: T -> bool)
    requires forall x | x in s :: keep(x) == !drop(x)
    ensures |Filter(s, keep)| + |Filter(s, drop)| == |s|
  {
    if s != [] {
      assert s == s[..|s| - 1] + [s[|s| - 1]];
      FilterLengths(s[..|s| - 1], keep, drop);
    }
  }
}
