/** Cursor paging: by the id of the last row, and by offset for ranked lists. */
module Pagination {
  import opened Prelude

  datatype Item<+T> = Item(id: string, body: T)

  /** A page size: at least one row. */
  type Limit = n: nat | 1 <= n witness 1

  /** What is asked of the database; without a cursor the list starts at its first row. */
  datatype Args = Args(take: nat, cursor: Option<string>, skip: nat)

  datatype Page<+T> = Page(data: seq<Item<T>>, next: Option<string>)

  function CursorArgs(limit: Limit, cursor: Option<string>): Args {
    if cursor.Some? then Args(limit + 1, cursor, 1) else Args(limit + 1, None, 0)
  }

  function Find<T>(all: seq<Item<T>>, id: string): Option<nat> {
    if all == [] then None
    else if all[0].id == id then Some(0)
    else var r := Find(all[1..], id); if r.None? then None else Some(r.value + 1)
  }

  /** The rows the database returns: from the cursor's row on, some skipped, some taken; none for an unknown cursor. */
  function Fetch<T>(all: seq<Item<T>>, args: Args): seq<Item<T>> {
    var at := if args.cursor.None? then Some(0) else Find(all, args.cursor.value);
    if at.None? then []
    else
      var from := Min(at.value + args.skip, |all|);
      all[from..Min(from + args.take, |all|)]
  }

  function SliceAndNext<T>(rows: seq<Item<T>>, limit: Limit): Page<T>
  {
    if |rows| > limit then Page(rows[..limit], Some(rows[limit - 1].id)) else Page(rows, None)
  }

  function GetPage<T>(all: seq<Item<T>>, limit: Limit, cursor: Option<string>): Page<T>
  {
    SliceAndNext(Fetch(all, CursorArgs(limit, cursor)), limit)
  }

  /** A list's pages, by limit and cursor. */
  function Pager<T>(all: seq<Item<T>>): (Limit, Option<string>) -> Page<T> {
    (limit: Limit, cursor: Option<string>) => GetPage(all, limit, cursor)
  }

  /** Asking `get` for page after page, each with its own limit, until there is no next one or no more requests. */
  function Follow<T>(get: (Limit, Option<string>) -> Page<T>, limits: seq<Limit>, cursor: Option<string>): Page<T>
    decreases |limits|
  {
    if limits == [] then Page([], cursor)
    else
      var page := get(limits[0], cursor);
      if page.next.None? then page
      else
        var rest := Follow(get, limits[1..], page.next);
        Page(page.data + rest.data, rest.next)
  }

  ghost predicate UniqueIds<T>(all: seq<Item<T>>) { forall i, j :: 0 <= i < j < |all| ==> all[i].id != all[j].id }

  lemma {:induction false} FindAt<T>(all: seq<Item<T>>, k: nat)
    requires UniqueIds(all) && k < |all|
    ensures Find(all, all[k].id) == Some(k)
  {
    if k > 0 {
      assert all[0].id != all[k].id;
      assert all[k] == all[1..][k - 1];
      forall i, j | 0 <= i < j < |all[1..]| ensures all[1..][i].id != all[1..][j].id { assert all[i + 1].id != all[j + 1].id; }
      FindAt(all[1..], k - 1);
    }
  }

  ghost predicate FoundAt<T>(all: seq<Item<T>>, k: nat)
    requires k < |all|
  {
    Find(all, all[k].id) == Some(k)
  }

  /** Every row is found by its id. */
  ghost predicate Findable<T>(all: seq<Item<T>>) { forall k :: 0 <= k < |all| ==> FoundAt(all, k) }

  lemma UniqueIsFindable<T>(all: seq<Item<T>>)
    requires UniqueIds(all)
    ensures Findable(all)
  {
    forall k | 0 <= k < |all| ensures FoundAt(all, k) { FindAt(all, k); }
  }

  /** The cursor that stands before row `from`: none at the start, else the id of the row before. */
  function CursorAt<T>(all: seq<Item<T>>, from: nat): Option<string>
    requires from <= |all|
  {
    if from == 0 then None else Some(all[from - 1].id)
  }

  /** The rows in [from, to), and the cursor after them exactly when more remain. */
  function Stretch<T>(all: seq<Item<T>>, from: nat, to: nat): Page<T>
    requires from <= to <= |all|
  {
    Page(all[from..to], if to < |all| then CursorAt(all, to) else None)
  }

  lemma FetchAt<T>(all: seq<Item<T>>, limit: Limit, from: nat)
    requires Findable(all) && from <= |all|
    ensures Fetch(all, CursorArgs(limit, CursorAt(all, from))) == all[from..Min(from + limit + 1, |all|)]
  {
    if from > 0 { assert FoundAt(all, from - 1); }
  }

  /** One page from `from`. */
  lemma PageAt<T>(all: seq<Item<T>>, limit: Limit, from: nat)
    requires Findable(all) && from <= |all|
    ensures GetPage(all, limit, CursorAt(all, from)) == Stretch(all, from, Min(from + limit, |all|))
  {
    FetchAt(all, limit, from);
    SliceOf(all, limit, from);
  }

  lemma SliceOf<T>(all: seq<Item<T>>, limit: Limit, from: nat)
    requires from <= |all|
    ensures SliceAndNext(all[from..Min(from + limit + 1, |all|)], limit) == Stretch(all, from, Min(from + limit, |all|))
  {
    var rows := all[from..Min(from + limit + 1, |all|)];
    if from + limit < |all| {
      FirstOfSlice(all, from, from + limit + 1, limit);
      assert rows[limit - 1] == all[from + limit - 1];
    }
  }

  lemma FirstOfSlice<T>(all: seq<Item<T>>, from: nat, to: nat, n: nat)
    requires from + n <= to <= |all|
    ensures all[from..to][..n] == all[from..from + n]
  {
  }

  function Sum(limits: seq<Limit>): nat { if limits == [] then 0 else limits[0] + Sum(limits[1..]) }

  lemma StretchJoins<T>(all: seq<Item<T>>, from: nat, mid: nat, to: nat)
    requires from <= mid <= to <= |all|
    ensures Page(Stretch(all, from, mid).data + Stretch(all, mid, to).data, Stretch(all, mid, to).next) == Stretch(all, from, to)
  {
  }

  ghost predicate ServesAt<T>(get: (Limit, Option<string>) -> Page<T>, all: seq<Item<T>>, limit: Limit, from: nat)
    requires from <= |all|
  {
    get(limit, CursorAt(all, from)) == Stretch(all, from, Min(from + limit, |all|))
  }

  /** `get` answers every cursor of the list with the next rows. */
  ghost predicate Serves<T>(get: (Limit, Option<string>) -> Page<T>, all: seq<Item<T>>) {
    forall limit, from :: 0 <= from <= |all| ==> ServesAt(get, all, limit, from)
  }

  lemma {:induction false} FollowFrom<T>(get: (Limit, Option<string>) -> Page<T>, all: seq<Item<T>>, limits: seq<Limit>, from: nat)
    requires Serves(get, all) && from <= |all| && (limits != [] || 0 < from < |all|)
    ensures Follow(get, limits, CursorAt(all, from)) == Stretch(all, from, Min(from + Sum(limits), |all|))
    decreases |limits|
  {
    if limits == [] {
      assert all[from..from] == [];
    } else {
      var mid, rest := Min(from + limits[0], |all|), Sum(limits[1..]);
      assert ServesAt(get, all, limits[0], from);
      if mid < |all| {
        FollowFrom(get, all, limits[1..], mid);
        StretchJoins(all, from, mid, Min(mid + rest, |all|));
      }
    }
  }

  lemma PagerServes<T>(all: seq<Item<T>>)
    requires UniqueIds(all)
    ensures Serves(Pager(all), all)
  {
    UniqueIsFindable(all);
    forall limit, from | 0 <= from <= |all| ensures ServesAt(Pager(all), all, limit, from) { PageAt(all, limit, from); }
  }

  /**
   MAIN. Over a fixed list with unique ids, following cursors yields the list's rows
   in order, each exactly once, whatever the page sizes; the cursor runs out exactly
   when the whole list has been yielded.
   */
  lemma FollowingYieldsAll<T>(all: seq<Item<T>>, limits: seq<Limit>)
    requires UniqueIds(all) && limits != []
    ensures var r := Follow(Pager(all), limits, None);
            && r.data == all[..Min(Sum(limits), |all|)]
            && (r.next.None? <==> r.data == all)
            && (|limits| >= |all| ==> r.data == all)
  {
    PagerServes(all);
    FollowFrom(Pager(all), all, limits, 0);
    SumAtLeast(limits);
    StretchFromStart(all, Min(Sum(limits), |all|));
  }

  lemma StretchFromStart<T>(all: seq<Item<T>>, to: nat)
    requires to <= |all| && (to == 0 ==> all == [])
    ensures var r := Stretch(all, 0, to); r.data == all[..to] && (r.next.None? <==> to == |all|) && (r.data == all <==> to == |all|)
  {
    assert all[0..to] == all[..to];
    if to == |all| { assert all[..to] == all; }
    assert |all[..to]| == to;
  }

  lemma {:induction false} SumAtLeast(limits: seq<Limit>)
    ensures Sum(limits) >= |limits|
  {
    if limits != [] { SumAtLeast(limits[1..]); }
  }

  // ---------------------------------------------------------------- offset cursors

  /** A page of a ranked list, and the next offset while rows remain. */
  function OffsetPage<T>(ranked: seq<T>, offset: nat, limit: Limit): (seq<T>, Option<nat>) {
    var from, to := Min(offset, |ranked|), Min(offset + limit, |ranked|);
    (ranked[from..to], if offset + limit < |ranked| then Some(offset + limit) else None)
  }

  function FollowOffsets<T>(ranked: seq<T>, offset: nat, limit: Limit): seq<T>
    decreases |ranked| - offset
  {
    var (data, next) := OffsetPage(ranked, offset, limit);
    if next.None? then data else data + FollowOffsets(ranked, next.value, limit)
  }

  /** Each offset page is full while rows remain, and there is a next one exactly then. */
  lemma OffsetPageIsFull<T>(ranked: seq<T>, offset: nat, limit: Limit)
    requires offset <= |ranked|
    ensures var (data, next) := OffsetPage(ranked, offset, limit);
            && |data| == (if |ranked| - offset < limit then |ranked| - offset else limit)
            && (forall k :: 0 <= k < |data| ==> data[k] == ranked[offset + k])
            && (next == if offset + |data| < |ranked| then Some(offset + |data|) else None)
  {
  }

  /** MAIN. Following offset cursors from any row yields the rest of the ranked list, once and in order. */
  lemma {:induction false} OffsetsYieldAll<T>(ranked: seq<T>, offset: nat, limit: Limit)
    requires offset <= |ranked|
    ensures FollowOffsets(ranked, offset, limit) == ranked[offset..]
    decreases |ranked| - offset
  {
    if offset + limit < |ranked| {
      OffsetsYieldAll(ranked, offset + limit, limit);
      assert ranked[offset..offset + limit] + ranked[offset + limit..] == ranked[offset..];
    }
  }
}
