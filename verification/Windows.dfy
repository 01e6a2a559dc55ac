/** Counting the moments that fall into an interval. */
module Windows {

  /** How many of `t` lie in [lo, hi). */
  function CountIn(t: seq<int>, lo: int, hi: int): nat {
    if t == [] then 0 else CountIn(t[..|t| - 1], lo, hi) + (if lo <= t[|t| - 1] < hi then 1 else 0)
  }

  lemma {:induction false} CountSplits(t: seq<int>, k: nat, lo: int, hi: int)
    requires k <= |t|
    ensures CountIn(t, lo, hi) <= CountIn(t[..k], lo, hi) + |t| - k
    decreases |t|
  {
    if k < |t| {
      CountSplits(t[..|t| - 1], k, lo, hi);
      assert t[..|t| - 1][..k] == t[..k];
    } else {
      assert t[..k] == t;
    }
  }

  lemma {:induction false} NoneIn(t: seq<int>, lo: int, hi: int)
    requires forall i :: 0 <= i < |t| ==> t[i] < lo
    ensures CountIn(t, lo, hi) == 0
  {
    if t != [] { NoneIn(t[..|t| - 1], lo, hi); }
  }

  /** Late moments all count when the early ones all lie before the interval. */
  lemma {:induction false} RestIn(t: seq<int>, k: nat, lo: int, hi: int)
    requires k <= |t|
    requires forall i :: 0 <= i < k ==> t[i] < lo
    requires forall i :: k <= i < |t| ==> lo <= t[i] < hi
    ensures CountIn(t, lo, hi) == |t| - k
    decreases |t|
  {
    if k < |t| { RestIn(t[..|t| - 1], k, lo, hi); } else { NoneIn(t, lo, hi); }
  }

  /** An interval that catches no more moments has no larger count. */
  lemma {:induction false} CountMono(t: seq<int>, lo: int, hi: int, lo': int, hi': int)
    requires forall i :: 0 <= i < |t| && lo <= t[i] < hi ==> lo' <= t[i] < hi'
    ensures CountIn(t, lo, hi) <= CountIn(t, lo', hi')
  {
    if t != [] { CountMono(t[..|t| - 1], lo, hi, lo', hi'); }
  }

  lemma CountSnoc(t: seq<int>, x: int, lo: int, hi: int)
    ensures CountIn(t + [x], lo, hi) == CountIn(t, lo, hi) + (if lo <= x < hi then 1 else 0)
  {
    assert (t + [x])[..|t|] == t;
  }
}
