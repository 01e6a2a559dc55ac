/** Ordering listings by closeness to a target time. */
module Ranking {
  import opened Prelude

  const TARGET_WINDOW_MS := 2 * 60 * 60_000

  /** A row with its place in the input, its time and its distance to the target. */
  datatype Entry<T> = Entry(row: T, i: nat, at: int, delta: nat)

  datatype Ranked<T> = Ranked(row: T, near: bool)

  function Entries<T>(rows: seq<T>, timeOf: T -> int, target: int): (r: seq<Entry<T>>)
    ensures |r| == |rows|
    ensures forall k :: 0 <= k < |r| ==> r[k] == Entry(rows[k], k, timeOf(rows[k]), Abs(timeOf(rows[k]) - target))
  {
    seq(|rows|, k requires 0 <= k < |rows| => Entry(rows[k], k, timeOf(rows[k]), Abs(timeOf(rows[k]) - target)))
  }

  /** Closer first, then earlier, then the input order. */
  predicate Before<T>(x: Entry<T>, y: Entry<T>) {
    x.delta < y.delta || (x.delta == y.delta && (x.at < y.at || (x.at == y.at && x.i < y.i)))
  }

  function Insert<T>(x: Entry<T>, s: seq<Entry<T>>): seq<Entry<T>> {
    if s == [] || Before(x, s[0]) then [x] + s else [s[0]] + Insert(x, s[1..])
  }

  function Sort<T>(s: seq<Entry<T>>): seq<Entry<T>> {
    if s == [] then [] else Insert(s[0], Sort(s[1..]))
  }

  function RankByTarget<T>(rows: seq<T>, timeOf: T -> int, target: int): (r: seq<Ranked<T>>) {
    var sorted := Sort(Entries(rows, timeOf, target));
    seq(|sorted|, k requires 0 <= k < |sorted| => Ranked(sorted[k].row, sorted[k].delta <= TARGET_WINDOW_MS))
  }

  // ---------------------------------------------------------------- sorting by a strict order

  ghost predicate InOrder<T>(s: seq<Entry<T>>) { forall k, l :: 0 <= k < l < |s| ==> Before(s[k], s[l]) }

  ghost predicate Distinct<T>(s: seq<Entry<T>>) { forall k, l :: 0 <= k < l < |s| ==> s[k].i != s[l].i }

  lemma {:induction false} InsertKeeps<T>(x: Entry<T>, s: seq<Entry<T>>)
    ensures multiset(Insert(x, s)) == multiset(s) + multiset{x} && |Insert(x, s)| == |s| + 1
  {
    if s == [] || Before(x, s[0]) {
    } else {
      InsertKeeps(x, s[1..]);
      assert s == [s[0]] + s[1..];
    }
  }

  lemma {:induction false} InsertOrders<T>(x: Entry<T>, s: seq<Entry<T>>)
    requires InOrder(s) && forall k :: 0 <= k < |s| ==> s[k].i != x.i
    ensures InOrder(Insert(x, s))
  {
    if s == [] || Before(x, s[0]) {
    } else {
      InsertOrders(x, s[1..]);
      InsertKeeps(x, s[1..]);
      var tail := Insert(x, s[1..]);
      forall l | 0 <= l < |tail| ensures Before(s[0], tail[l]) {
        assert tail[l] in multiset(tail);
        assert tail[l] == x || tail[l] in s[1..];
      }
    }
  }

  lemma {:induction false} SortKeeps<T>(s: seq<Entry<T>>)
    ensures multiset(Sort(s)) == multiset(s) && |Sort(s)| == |s|
  {
    if s != [] {
      SortKeeps(s[1..]);
      InsertKeeps(s[0], Sort(s[1..]));
      assert s == [s[0]] + s[1..];
    }
  }

  lemma {:induction false} SortOrders<T>(s: seq<Entry<T>>)
    requires Distinct(s)
    ensures InOrder(Sort(s))
  {
    if s != [] {
      SortOrders(s[1..]);
      SortKeeps(s[1..]);
      var tail := Sort(s[1..]);
      forall k | 0 <= k < |tail| ensures tail[k].i != s[0].i {
        assert tail[k] in multiset(tail);
        var j :| 0 <= j < |s[1..]| && s[1..][j] == tail[k];
        assert s[j + 1] == tail[k];
      }
      InsertOrders(s[0], tail);
    }
  }

  /** A strict order leaves one arrangement: whatever sort is used, the result is the same. */
  lemma {:induction false} OneArrangement<T>(s: seq<Entry<T>>, t: seq<Entry<T>>)
    requires InOrder(s) && InOrder(t) && multiset(s) == multiset(t)
    ensures s == t
  {
    if s == [] || t == [] {
      assert |multiset(s)| == |s| && |multiset(t)| == |t|;
    } else {
      SameFirst(s, t);
      RestOf(s);
      RestOf(t);
      OneArrangement(s[1..], t[1..]);
    }
  }

  lemma RestOf<T>(s: seq<Entry<T>>)
    requires s != []
    ensures s == [s[0]] + s[1..] && multiset(s[1..]) == multiset(s) - multiset{s[0]}
  {
    assert s == [s[0]] + s[1..];
  }

  lemma SameFirst<T>(s: seq<Entry<T>>, t: seq<Entry<T>>)
    requires s != [] && t != [] && InOrder(s) && InOrder(t) && multiset(s) == multiset(t)
    ensures s[0] == t[0]
  {
    assert s[0] in multiset(t) && t[0] in multiset(s);
    var j :| 0 <= j < |t| && t[j] == s[0];
    var k :| 0 <= k < |s| && s[k] == t[0];
  }

  // ---------------------------------------------------------------- the ranking

  /**
   MAIN. The ranking holds every input row exactly once - `order` says which row
   stands where - in the strict order of (distance, time, input place), and a row
   is near when it lies within two hours of the target.
   */
  lemma RankIsOrderedPermutation<T>(rows: seq<T>, timeOf: T -> int, target: int) returns (order: seq<Entry<T>>)
    ensures var r := RankByTarget(rows, timeOf, target);
            && |r| == |order| == |rows|
            && multiset(order) == multiset(Entries(rows, timeOf, target)) && InOrder(order)
            && forall k :: 0 <= k < |r| ==> r[k] == Ranked(order[k].row, order[k].delta <= TARGET_WINDOW_MS)
    ensures forall other :: InOrder(other) && multiset(other) == multiset(Entries(rows, timeOf, target)) ==> other == order
  {
    var entries := Entries(rows, timeOf, target);
    order := Sort(entries);
    SortKeeps(entries);
    SortOrders(entries);
    forall other | InOrder(other) && multiset(other) == multiset(entries) ensures other == order { OneArrangement(other, order); }
  }

  function Distance(a: int, b: int): int { if a < b then b - a else a - b }

  /**
   MAIN. Said over the rows: the ranking takes each input row once, the closer to the
   target first, at one distance the earlier first, at one time in input order, and
   marks those at most two hours away.
   */
  lemma RankedExactly<T>(rows: seq<T>, timeOf: T -> int, target: int) returns (place: seq<nat>)
    ensures var r := RankByTarget(rows, timeOf, target);
            && |r| == |place| == |rows|
            && (forall k :: 0 <= k < |r| ==>
                  && place[k] < |rows|
                  && r[k] == Ranked(rows[place[k]], Distance(timeOf(rows[place[k]]), target) <= 7_200_000))
            && (forall k, l :: 0 <= k < l < |r| ==>
                  var x, y := timeOf(rows[place[k]]), timeOf(rows[place[l]]);
                  || Distance(x, target) < Distance(y, target)
                  || (Distance(x, target) == Distance(y, target) && (x < y || (x == y && place[k] < place[l]))))
  {
    var entries := Entries(rows, timeOf, target);
    var order := RankIsOrderedPermutation(rows, timeOf, target);
    forall k | 0 <= k < |order| ensures order[k] in entries { assert order[k] in multiset(order); }
    place := seq(|order|, k requires 0 <= k < |order| => order[k].i);
    forall k, l | 0 <= k < l < |order| ensures Before(order[k], order[l]) {}
  }

  /** MAIN. The near rows come first. */
  lemma NearFirst<T>(rows: seq<T>, timeOf: T -> int, target: int, k: nat, l: nat)
    requires k <= l < |RankByTarget(rows, timeOf, target)| && RankByTarget(rows, timeOf, target)[l].near
    ensures RankByTarget(rows, timeOf, target)[k].near
  {
    var order := RankIsOrderedPermutation(rows, timeOf, target);
    if k < l { assert Before(order[k], order[l]); }
  }
}
