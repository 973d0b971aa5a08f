// The paged queries and the loops that walk them, against the one-shot lists.
module Pages {
  import opened Lists
  import opened Revisions

  const MAX_PAGE: int := 1024
  const DELETED_PAGE_SIZE: int := 64
  const MAX_LARGE_RESPONSE_BYTES: nat := 8_388_608

  // `limit.clamp(1, 1024)`
  function Clamp(limit: int): nat { if limit < 1 then 1 else if limit > MAX_PAGE then MAX_PAGE else limit }

  // `initial_snapshot_page` and `list_changes_page` without their LIMIT.
  function ReplayList(initial: bool, rows: seq<Rev>, after: nat, through: nat): seq<Rev> {
    if initial then Filter(Snapshot(Filter(rows, Upto(through))), Above(after))
    else Filter(rows, Between(after, through))
  }

  function ReplayPage(initial: bool, rows: seq<Rev>, after: nat, through: nat, limit: int): seq<Rev> {
    Take(ReplayList(initial, rows, after, through), Clamp(limit))
  }

  // `list_deleted_page`
  function DeletedPage(rows: seq<Rev>, suppress: bool, after: int, limit: int): seq<Rev> {
    Take(Filter(Deleted(rows, suppress), Above(if after < 0 then 0 else after)), Clamp(limit))
  }

  // ----- the lists -----

  // The paged queries select what the one-shot lists select up to the boundary, whatever
  // was committed after it.
  lemma ReplayListIsOneShot(rows: seq<Rev>, after: nat, through: nat)
    requires forall r | r in rows :: 0 < r.uid
    ensures ReplayList(false, rows, after, through) == Filter(Changes(rows, after), Upto(through))
    ensures ReplayList(true, rows, 0, through) == Snapshot(Filter(rows, Upto(through)))
  {
    FilterFilter(rows, Above(after), Upto(through), Between(after, through));
    FilterAll(Snapshot(Filter(rows, Upto(through))), Above(0));
  }

  lemma ReplayListSorted(initial: bool, rows: seq<Rev>, after: nat, through: nat)
    requires Sorted(rows)
    ensures Sorted(ReplayList(initial, rows, after, through))
  {
    var below := Filter(rows, Upto(through));
    FilterSorted(rows, Upto(through));
    FilterSorted(below, LiveHead(below));
    FilterSorted(Snapshot(below), Above(after));
    FilterSorted(rows, Between(after, through));
  }

  lemma ReplayListAfter(initial: bool, rows: seq<Rev>, after: nat, later: nat, through: nat)
    requires after <= later
    ensures ReplayList(initial, rows, later, through) == Filter(ReplayList(initial, rows, after, through), Above(later))
  {
    if initial {
      FilterFilter(Snapshot(Filter(rows, Upto(through))), Above(after), Above(later), Above(later));
    } else {
      FilterFilter(rows, Between(after, through), Above(later), Between(later, through));
    }
  }

  lemma TailIn(list: seq<Rev>, n: nat, r: Rev)
    requires Sorted(list) && 0 < n <= |list|
    ensures r in list[n..] <==> r in list && list[n - 1].uid < r.uid
  {
    if r in list {
      var i :| 0 <= i < |list| && list[i] == r;
      if n <= i { assert list[n..][i - n] == r; }
    }
    if r in list[n..] {
      var i :| 0 <= i < |list[n..]| && list[n..][i] == r;
      assert list[n + i] == r;
    }
  }

  // What follows a page is what lies above its last row.
  lemma AfterPage(list: seq<Rev>, n: nat)
    requires Sorted(list) && 0 < n <= |list|
    ensures Filter(list, Above(list[n - 1].uid)) == list[n..]
  {
    FilterSorted(list, Above(list[n - 1].uid));
    forall r ensures r in Filter(list, Above(list[n - 1].uid)) <==> r in list[n..] { TailIn(list, n, r); }
    SortedUnique(Filter(list, Above(list[n - 1].uid)), list[n..]);
  }

  lemma NextPage(list: seq<Rev>, done: nat, n: nat)
    requires Sorted(list) && done < |list| && n > 0
    ensures var page := Take(list[done..], n);
      && page != [] && done + |page| <= |list| && list[..done] + page == list[..done + |page|]
      && page[|page| - 1] in list
      && (|page| < n ==> done + |page| == |list|)
      && Filter(list, Above(page[|page| - 1].uid)) == list[done + |page|..]
  {
    var page := Take(list[done..], n);
    assert page[|page| - 1] == list[done + |page| - 1];
    AfterPage(list, done + |page|);
  }

  // ----- the replay loop -----

  // Sending one page row by row moves the cursor to its last row.
  method SendPage(page: seq<Rev>, before: seq<Rev>, from: nat) returns (sent: seq<Rev>, cursor: nat)
    ensures sent == before + page && cursor == if page == [] then from else page[|page| - 1].uid
  {
    sent, cursor := before, from;
    for i := 0 to |page|
      invariant sent == before + page[..i] && cursor == if i == 0 then from else page[i - 1].uid
    {
      cursor := page[i].uid;
      sent := sent + [page[i]];
    }
  }

  // What pages of a given size reach: everything, unless the size asks for more than the
  // 1024 rows a query returns.
  function Reached(list: seq<Rev>, pageSize: int): seq<Rev> {
    if pageSize <= MAX_PAGE then list else Take(list, MAX_PAGE)
  }

  // The loop of `init` over a table that does not change: for any page size it sends the
  // whole list, unless the size asks for more than the 1024 rows a query returns.
  method ReplayAll(initial: bool, rows: seq<Rev>, start: nat, through: nat, pageSize: int) returns (sent: seq<Rev>)
    requires Sorted(rows)
    ensures sent == Reached(ReplayList(initial, rows, start, through), pageSize)
  {
    var cursor := start;
    sent := [];
    ghost var list := ReplayList(initial, rows, start, through);
    while true
      invariant Replayed(initial, rows, start, through, cursor, sent, list)
      invariant sent != [] ==> pageSize <= MAX_PAGE
      decreases |list| - |sent|
    {
      var page := ReplayPage(initial, rows, cursor, through, pageSize);
      ReplayTurn(initial, rows, start, through, cursor, sent, list, Clamp(pageSize));
      if page == [] { break; }
      sent, cursor := SendPage(page, sent, cursor);
      if |page| < pageSize { break; }
    }
  }

  // A front part of the list has been sent and the cursor stands behind it.
  ghost predicate Replayed(
    initial: bool, rows: seq<Rev>, start: nat, through: nat, cursor: nat, sent: seq<Rev>, list: seq<Rev>)
  {
    && list == ReplayList(initial, rows, start, through) && sent <= list
    && ReplayList(initial, rows, cursor, through) == list[|sent|..]
  }

  lemma LastAfter(initial: bool, rows: seq<Rev>, start: nat, through: nat, r: Rev)
    requires r in ReplayList(initial, rows, start, through)
    ensures ReplayList(initial, rows, r.uid, through) == Filter(ReplayList(initial, rows, start, through), Above(r.uid))
  {
    ReplayListAfter(initial, rows, start, r.uid, through);
  }

  // What a page adds: nothing is left behind it, or the loop goes on behind it.
  ghost predicate Advances(
    initial: bool, rows: seq<Rev>, start: nat, through: nat, sent: seq<Rev>, list: seq<Rev>, page: seq<Rev>, n: nat)
  {
    && (page == [] ==> sent == list)
    && (|page| < n ==> sent + page == list)
    && (page != [] ==> Replayed(initial, rows, start, through, page[|page| - 1].uid, sent + page, list))
  }

  lemma ReplayTurn(
    initial: bool, rows: seq<Rev>, start: nat, through: nat, cursor: nat, sent: seq<Rev>, list: seq<Rev>, n: nat)
    requires Sorted(rows) && Replayed(initial, rows, start, through, cursor, sent, list) && n > 0
    ensures Advances(initial, rows, start, through, sent, list, Take(ReplayList(initial, rows, cursor, through), n), n)
  {
    var page := Take(list[|sent|..], n);
    var m := |sent| + |page|;
    TakePrefix(list, sent, page, n);
    if page != [] {
      ReplayListSorted(initial, rows, start, through);
      AfterPage(list, m);
      LastAfter(initial, rows, start, through, list[m - 1]);
    }
  }

  lemma TakePrefix(list: seq<Rev>, sent: seq<Rev>, page: seq<Rev>, n: nat)
    requires sent <= list && n > 0 && page == Take(list[|sent|..], n)
    ensures |sent + page| == |sent| + |page| <= |list| && sent + page <= list
    ensures |page| < n ==> sent + page == list
    ensures page != [] ==> page[|page| - 1] == list[|sent| + |page| - 1]
  {
    assert list == list[..|sent|] + list[|sent|..];
  }

  // ----- the deleted-files response -----

  function Join(items: seq<string>): string {
    if items == [] then ""
    else if |items| == 1 then items[0]
    else Join(items[..|items| - 1]) + "," + items[|items| - 1]
  }

  const OPENING := "{\"items\":["
  const CLOSING := "]}"

  function Encoded(rows: seq<Rev>, encode: Rev -> string): seq<string> { Map(rows, encode) }

  function Response(rows: seq<Rev>, encode: Rev -> string): string {
    OPENING + Join(Encoded(rows, encode)) + CLOSING
  }

  lemma JoinSnoc(items: seq<string>, x: string)
    ensures Join(items + [x]) == Join(items) + (if items == [] then "" else ",") + x
  {
    assert (items + [x])[..|items|] == items;
  }

  lemma {:induction false} JoinGrows(a: seq<string>, b: seq<string>)
    ensures |Join(a)| <= |Join(a + b)|
  {
    if b == [] {
      assert a + b == a;
    } else {
      var rest, x := b[..|b| - 1], b[|b| - 1];
      JoinGrows(a, rest);
      assert a + b == (a + rest) + [x];
      JoinSnoc(a + rest, x);
    }
  }

  lemma EncodedConcat(a: seq<Rev>, b: seq<Rev>, encode: Rev -> string)
    ensures Encoded(a + b, encode) == Encoded(a, encode) + Encoded(b, encode)
  {
  }

  // The first `done` items of the list have been written, and there is room to close.
  ghost predicate Written(list: seq<Rev>, encode: Rev -> string, done: nat, response: string, first: bool) {
    && done <= |list| && (first <==> done == 0)
    && response == OPENING + Join(Encoded(list[..done], encode))
    && |response| + |CLOSING| <= MAX_LARGE_RESPONSE_BYTES
  }

  // One page appended item by item, or the refusal at the first item that does not fit.
  method AppendPage(
    page: seq<Rev>, encode: Rev -> string, from: string, empty: bool, ghost list: seq<Rev>, ghost done: nat)
    returns (fits: bool, response: string, first: bool)
    requires Written(list, encode, done, from, empty) && done + |page| <= |list| && page == list[done..done + |page|]
    ensures fits ==> Written(list, encode, done + |page|, response, first)
    ensures !fits ==> |Response(list, encode)| > MAX_LARGE_RESPONSE_BYTES
  {
    response, first := from, empty;
    for i := 0 to |page|
      invariant Written(list, encode, done + i, response, first)
    {
      var encoded := encode(page[i]);
      NextItem(list, encode, done + i, response, first);
      if |response| + (if first then 0 else 1) + |encoded| + 2 > MAX_LARGE_RESPONSE_BYTES {
        fits := false;
        return;
      }
      if !first { response := response + ","; }
      response, first := response + encoded, false;
    }
    fits := true;
  }

  // One page read behind the cursor.
  method ReadDeleted(rows: seq<Rev>, suppress: bool, after: int, pageSize: int, ghost list: seq<Rev>, ghost done: nat)
    returns (page: seq<Rev>)
    requires Sorted(rows) && list == Deleted(rows, suppress) && Behind(list, after, done)
    ensures Turns(list, page, done, Clamp(pageSize))
  {
    page := DeletedPage(rows, suppress, after, pageSize);
    DeletedTurn(rows, suppress, after, done, Clamp(pageSize));
  }

  // The pages until a short one, one after another.
  method DeletedAll(rows: seq<Rev>, suppress: bool, pageSize: int) returns (all: seq<Rev>)
    requires Sorted(rows) && (forall r | r in rows :: 0 < r.uid) && 0 < pageSize
    ensures all == Reached(Deleted(rows, suppress), pageSize)
  {
    var after := 0;
    all := [];
    ghost var list := Deleted(rows, suppress);
    DeletedBehind(list);
    while true
      invariant Behind(list, after, |all|) && all == list[..|all|]
      invariant all == [] || pageSize <= MAX_PAGE
      decreases |list| - |all|
    {
      var page := ReadDeleted(rows, suppress, after, pageSize, list, |all|);
      WalkTurn(list, page, |all|, pageSize);
      all := all + page;
      if |page| < pageSize { break; }
      after := page[|page| - 1].uid;
    }
  }

  lemma DeletedBehind(list: seq<Rev>)
    requires forall r | r in list :: 0 < r.uid
    ensures Behind(list, 0, 0)
  {
    FilterAll(list, Above(0));
  }

  // A page that is short for the loop ends the walk where it should.
  lemma WalkTurn(list: seq<Rev>, page: seq<Rev>, done: nat, pageSize: int)
    requires done <= |list| && 0 < pageSize && Turns(list, page, done, Clamp(pageSize))
    requires done == 0 || pageSize <= MAX_PAGE
    ensures list[..done] + page == list[..done + |page|]
    ensures |page| < pageSize ==> list[..done + |page|] == Reached(list, pageSize)
    ensures pageSize <= |page| ==> pageSize <= MAX_PAGE && page != []
  {
    if done + |page| == |list| { assert list[..|list|] == list; }
  }

  // One page read and written; `more` when it was full.
  method ExtendDeleted(
    rows: seq<Rev>, suppress: bool, encode: Rev -> string, pageSize: int, from: string, empty: bool, behind: int,
    ghost list: seq<Rev>, ghost done: nat)
    returns (fits: bool, response: string, first: bool, after: int, more: bool, ghost reached: nat)
    requires Sorted(rows) && list == Deleted(rows, suppress) && 0 < pageSize <= MAX_PAGE
    requires Written(list, encode, done, from, empty) && Behind(list, behind, done)
    ensures !fits ==> |Response(list, encode)| > MAX_LARGE_RESPONSE_BYTES
    ensures fits ==> Written(list, encode, reached, response, first)
    ensures fits && more ==> done < reached && Behind(list, after, reached)
    ensures fits && !more ==> reached == |list|
  {
    var page := ReadDeleted(rows, suppress, behind, pageSize, list, done);
    fits, response, first := AppendPage(page, encode, from, empty, list, done);
    reached, more := done + |page|, |page| == pageSize;
    after := if more then page[|page| - 1].uid else behind;
  }

  // The response built page by page, for any page size.
  method DeletedPages(rows: seq<Rev>, suppress: bool, encode: Rev -> string, pageSize: int)
    returns (answer: Option<string>)
    requires Sorted(rows) && (forall r | r in rows :: 0 < r.uid) && 0 < pageSize <= MAX_PAGE
    ensures var full := Response(Deleted(rows, suppress), encode);
      answer == if |full| <= MAX_LARGE_RESPONSE_BYTES then Some(full) else None
  {
    var response, after, first, more := OPENING, 0, true, true;
    ghost var list := Deleted(rows, suppress);
    ghost var done: nat := 0;
    DeletedStart(list, encode);
    while more
      invariant Written(list, encode, done, response, first)
      invariant if more then Behind(list, after, done) else done == |list|
      decreases more, |list| - done
    {
      var fits;
      fits, response, first, after, more, done :=
        ExtendDeleted(rows, suppress, encode, pageSize, response, first, after, list, done);
      if !fits { return None; }
    }
    WrittenAll(list, encode, response, first);
    return Some(response + CLOSING);
  }

  // The whole list or a refusal: the response is complete exactly when it fits.
  method DeletedResponse(rows: seq<Rev>, suppress: bool, encode: Rev -> string) returns (answer: Option<string>)
    requires Sorted(rows) && forall r | r in rows :: 0 < r.uid
    ensures var full := Response(Deleted(rows, suppress), encode);
      answer == if |full| <= MAX_LARGE_RESPONSE_BYTES then Some(full) else None
  {
    answer := DeletedPages(rows, suppress, encode, DELETED_PAGE_SIZE);
  }

  // The cursor stands behind the first `done` items.
  ghost predicate Behind(list: seq<Rev>, after: int, done: nat) {
    0 <= after && done <= |list| && Filter(list, Above(after)) == list[done..]
  }

  lemma WrittenAll(list: seq<Rev>, encode: Rev -> string, response: string, first: bool)
    requires Written(list, encode, |list|, response, first)
    ensures response + CLOSING == Response(list, encode) && |Response(list, encode)| <= MAX_LARGE_RESPONSE_BYTES
  {
    assert list[..|list|] == list;
  }

  lemma DeletedStart(list: seq<Rev>, encode: Rev -> string)
    requires forall r | r in list :: 0 < r.uid
    ensures Written(list, encode, 0, OPENING, true) && Behind(list, 0, 0)
  {
    DeletedBehind(list);
  }

  // `page` is the next part of the list, the last one if it is short.
  ghost predicate Turns(list: seq<Rev>, page: seq<Rev>, done: nat, n: nat) {
    && done + |page| <= |list| && page == list[done..done + |page|] && |page| <= n
    && (|page| < n ==> done + |page| == |list|)
    && (page != [] ==> Behind(list, page[|page| - 1].uid, done + |page|))
  }

  lemma DeletedTurn(rows: seq<Rev>, suppress: bool, after: int, done: nat, n: nat)
    requires Sorted(rows) && Behind(Deleted(rows, suppress), after, done) && n > 0
    ensures Turns(Deleted(rows, suppress), Take(Filter(Deleted(rows, suppress), Above(after)), n), done, n)
  {
    FilterSorted(rows, ListedIn(rows, suppress));
    ListTurn(Deleted(rows, suppress), after, done, n);
  }

  lemma ListTurn(list: seq<Rev>, after: int, done: nat, n: nat)
    requires Sorted(list) && Behind(list, after, done) && n > 0
    ensures Turns(list, Take(Filter(list, Above(after)), n), done, n)
  {
    var page := Take(list[done..], n);
    if done < |list| {
      NextPage(list, done, n);
      assert page == list[done..done + |page|];
    }
  }

  // The next item fits or the whole response does not.
  lemma NextItem(list: seq<Rev>, encode: Rev -> string, n: nat, response: string, first: bool)
    requires Written(list, encode, n, response, first) && n < |list|
    ensures var next := (if first then response else response + ",") + encode(list[n]);
      if |next| + |CLOSING| > MAX_LARGE_RESPONSE_BYTES then |Response(list, encode)| > MAX_LARGE_RESPONSE_BYTES
      else Written(list, encode, n + 1, next, false)
  {
    ExtendedResponse(list, n, encode);
  }

  lemma ExtendedResponse(list: seq<Rev>, n: nat, encode: Rev -> string)
    requires n < |list|
    ensures Join(Encoded(list[..n + 1], encode))
         == Join(Encoded(list[..n], encode)) + (if n == 0 then "" else ",") + encode(list[n])
    ensures |Response(list, encode)| >= |OPENING| + |Join(Encoded(list[..n + 1], encode))| + |CLOSING|
  {
    assert list[..n + 1] == list[..n] + [list[n]];
    EncodedConcat(list[..n], [list[n]], encode);
    assert Encoded([list[n]], encode) == [encode(list[n])];
    JoinSnoc(Encoded(list[..n], encode), encode(list[n]));
    assert list == list[..n + 1] + list[n + 1..];
    EncodedConcat(list[..n + 1], list[n + 1..], encode);
    JoinGrows(Encoded(list[..n + 1], encode), Encoded(list[n + 1..], encode));
  }
}
