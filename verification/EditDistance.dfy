/** The city builder's «at most one edit apart» test, against the recursive edit distance. */
module EditDistance {
  import opened Prelude

  /** Levenshtein distance: the fewest insertions, deletions and replacements that turn `a` into `b`. */
  function Lev(a: string, b: string): nat
    decreases |a| + |b|
  {
    if a == [] then |b|
    else if b == [] then |a|
    else
      var drop, add := Lev(a[1..], b) + 1, Lev(a, b[1..]) + 1;
      var swap := Lev(a[1..], b[1..]) + (if a[0] == b[0] then 0 else 1);
      Min(Min(drop, add), swap)
  }

  // ---------------------------------------------------------------- the fast test

  /** Positions at which two words of one length differ. */
  function Mismatches(a: string, b: string): nat
    requires |a| == |b|
  {
    if a == [] then 0 else (if a[0] != b[0] then 1 else 0) + Mismatches(a[1..], b[1..])
  }

  function Without(b: string, i: nat): string
    requires i < |b|
  {
    b[..i] + b[i + 1..]
  }

  predicate OneDropped(a: string, b: string) { exists i :: 0 <= i < |b| && a == Without(b, i) }

  predicate Lev1(a: string, b: string) {
    if Abs(|a| - |b|) > 1 || Min(|a|, |b|) < 5 then false
    else if |a| == |b| then Mismatches(a, b) <= 1
    else if |a| > |b| then OneDropped(b, a)
    else OneDropped(a, b)
  }

  // ---------------------------------------------------------------- the distance

  lemma {:induction false} LevAtLeastLengths(a: string, b: string)
    ensures Lev(a, b) >= Abs(|a| - |b|)
    decreases |a| + |b|
  {
    if a != [] && b != [] {
      LevAtLeastLengths(a[1..], b);
      LevAtLeastLengths(a, b[1..]);
      LevAtLeastLengths(a[1..], b[1..]);
    }
  }

  lemma {:induction false} LevSelf(a: string)
    ensures Lev(a, a) == 0
  {
    if a != [] { LevSelf(a[1..]); }
  }

  lemma {:induction false} LevZero(a: string, b: string)
    requires Lev(a, b) == 0
    ensures a == b
    decreases |a| + |b|
  {
    if a != [] && b != [] {
      LevZero(a[1..], b[1..]);
      assert a == [a[0]] + a[1..] && b == [b[0]] + b[1..];
    }
  }

  lemma {:induction false} LevSymmetric(a: string, b: string)
    ensures Lev(a, b) == Lev(b, a)
    decreases |a| + |b|
  {
    if a != [] && b != [] {
      LevSymmetric(a[1..], b);
      LevSymmetric(a, b[1..]);
      LevSymmetric(a[1..], b[1..]);
    }
  }

  // ---------------------------------------------------------------- equal lengths

  lemma {:induction false} LevAtMostMismatches(a: string, b: string)
    requires |a| == |b|
    ensures Lev(a, b) <= Mismatches(a, b)
  {
    if a != [] { LevAtMostMismatches(a[1..], b[1..]); }
  }

  lemma {:induction false} NoMismatch(a: string)
    ensures Mismatches(a, a) == 0
  {
    if a != [] { NoMismatch(a[1..]); }
  }

  lemma {:induction false} OneEditSameLength(a: string, b: string)
    requires |a| == |b| && Lev(a, b) <= 1
    ensures Mismatches(a, b) <= 1
  {
    if a != [] {
      LevAtLeastLengths(a[1..], b);
      LevAtLeastLengths(a, b[1..]);
      if a[0] == b[0] {
        OneEditSameLength(a[1..], b[1..]);
      } else {
        LevZero(a[1..], b[1..]);
        NoMismatch(a[1..]);
      }
    }
  }

  // ---------------------------------------------------------------- lengths one apart

  lemma {:induction false} DroppingIsOneEdit(b: string, i: nat)
    requires i < |b|
    ensures Lev(Without(b, i), b) <= 1
  {
    var a := Without(b, i);
    if i == 0 {
      assert a == b[1..];
      LevSelf(a);
    } else {
      assert a[1..] == Without(b[1..], i - 1);
      DroppingIsOneEdit(b[1..], i - 1);
    }
  }

  lemma {:induction false} OneEditOneLonger(a: string, b: string)
    requires |b| == |a| + 1 && Lev(a, b) <= 1
    ensures OneDropped(a, b)
  {
    if a == [] {
      assert a == Without(b, 0);
    } else {
      LevAtLeastLengths(a[1..], b);
      LevAtLeastLengths(a[1..], b[1..]);
      if Lev(a, b[1..]) == 0 {
        LevZero(a, b[1..]);
        assert a == Without(b, 0);
      } else {
        OneEditOneLonger(a[1..], b[1..]);
        var i :| 0 <= i < |b[1..]| && a[1..] == Without(b[1..], i);
        assert a == [a[0]] + a[1..];
        assert a == Without(b, i + 1);
      }
    }
  }

  lemma OneLonger(a: string, b: string)
    requires |b| == |a| + 1
    ensures OneDropped(a, b) <==> Lev(a, b) <= 1
  {
    if OneDropped(a, b) {
      var i :| 0 <= i < |b| && a == Without(b, i);
      DroppingIsOneEdit(b, i);
    }
    if Lev(a, b) <= 1 { OneEditOneLonger(a, b); }
  }

  /** MAIN. The fast test holds exactly for words of five letters or more whose edit distance is at most one. */
  lemma Lev1IsDistanceAtMostOne(a: string, b: string)
    ensures Lev1(a, b) <==> |a| >= 5 && |b| >= 5 && Lev(a, b) <= 1
  {
    LevAtLeastLengths(a, b);
    if |a| == |b| {
      LevAtMostMismatches(a, b);
      if Lev(a, b) <= 1 { OneEditSameLength(a, b); }
    } else if |b| == |a| + 1 {
      OneLonger(a, b);
    } else if |a| == |b| + 1 {
      OneLonger(b, a);
      LevSymmetric(a, b);
    }
  }

  /** MAIN. The order of the two words does not matter. */
  lemma Lev1Symmetric(a: string, b: string)
    ensures Lev1(a, b) == Lev1(b, a)
  {
    Lev1IsDistanceAtMostOne(a, b);
    Lev1IsDistanceAtMostOne(b, a);
    LevSymmetric(a, b);
  }
}
