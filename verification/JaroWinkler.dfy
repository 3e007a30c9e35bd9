/**
 * Name similarity for the mapping draft (matching.ts): the Jaro-Winkler score with its greedy
 * character matching, and the name comparison built on it. Scores are exact reals.
 */
module JaroWinkler {
  import opened Common

  // --- The matching -------------------------------------------------------------------------

  /** How far apart two matching characters may stand. */
  function Reach(la: nat, lb: nat): nat {
    Max(0, Max(la, lb) / 2 - 1)
  }

  predicate Close(i: int, j: int, reach: nat) {
    i - reach <= j <= i + reach
  }

  /** For each character of `a`, the place in `b` it is matched with. */
  type Mates = seq<Option<nat>>

  /** The first place from `j` on that is in reach, not taken and holds `c`. */
  function FirstFree(c: char, b: string, i: nat, reach: nat, mates: Mates, j: nat): (r: Option<nat>)
    ensures r.Some? ==> j <= r.value < |b| && r.value <= i + reach && b[r.value] == c && r !in mates
    ensures forall k :: j <= k < |b| && k <= i + reach && b[k] == c && Some(k) !in mates ==> r.Some? && r.value <= k
    decreases |b| - j
  {
    if j >= |b| || j > i + reach then None
    else if Some(j) !in mates && b[j] == c then Some(j)
    else FirstFree(c, b, i, reach, mates, j + 1)
  }

  function GreedyMates(a: string, b: string, reach: nat, n: nat): (r: Mates)
    requires n <= |a|
    ensures |r| == n
  {
    if n == 0 then []
    else
      var mates := GreedyMates(a, b, reach, n - 1);
      mates + [FirstFree(a[n - 1], b, n - 1, reach, mates, Max(0, n - 1 - reach))]
  }

  function MatesOf(a: string, b: string): Mates {
    GreedyMates(a, b, Reach(|a|, |b|), |a|)
  }

  ghost predicate Matching(a: string, b: string, reach: nat, mates: Mates)
    requires |mates| <= |a|
  {
    && (forall i :: 0 <= i < |mates| && mates[i].Some? ==>
          mates[i].value < |b| && a[i] == b[mates[i].value] && Close(i, mates[i].value, reach))
    && (forall i, k :: 0 <= i < k < |mates| && mates[i].Some? ==> mates[i] != mates[k])
  }

  /** No two characters that could match would both rather have each other, the earlier being the better. */
  ghost predicate Unblocked(a: string, b: string, reach: nat, mates: Mates)
    requires |mates| <= |a|
  {
    forall i, j :: 0 <= i < |mates| && 0 <= j < |b| && a[i] == b[j] && Close(i, j, reach) ==>
      (mates[i].Some? && mates[i].value <= j) || Some(j) in mates[..i]
  }

  ghost predicate Stable(a: string, b: string, reach: nat, mates: Mates) {
    |mates| == |a| && Matching(a, b, reach, mates) && Unblocked(a, b, reach, mates)
  }

  lemma {:induction false} GreedyIsStable(a: string, b: string, reach: nat, n: nat)
    requires n <= |a|
    ensures Matching(a, b, reach, GreedyMates(a, b, reach, n))
    ensures Unblocked(a, b, reach, GreedyMates(a, b, reach, n))
  {
    hide *;
    GreedyStep(a, b, reach, n);
    if n > 0 {
      GreedyIsStable(a, b, reach, n - 1);
      OneMoreMate(a, b, reach, GreedyMates(a, b, reach, n - 1));
    }
  }

  lemma GreedyStep(a: string, b: string, reach: nat, n: nat)
    requires n <= |a|
    ensures n == 0 ==>
      var none := GreedyMates(a, b, reach, 0); none == [] && Matching(a, b, reach, none) && Unblocked(a, b, reach, none)
    ensures n > 0 ==>
      var mates := GreedyMates(a, b, reach, n - 1);
      GreedyMates(a, b, reach, n) == mates + [FirstFree(a[n - 1], b, n - 1, reach, mates, Max(0, n - 1 - reach))]
  {
  }

  lemma OneMoreMate(a: string, b: string, reach: nat, mates: Mates)
    requires |mates| < |a| && Matching(a, b, reach, mates) && Unblocked(a, b, reach, mates)
    ensures var n := |mates|;
      var all := mates + [FirstFree(a[n], b, n, reach, mates, Max(0, n - reach))];
      Matching(a, b, reach, all) && Unblocked(a, b, reach, all)
  {
    var n := |mates|;
    var r := FirstFree(a[n], b, n, reach, mates, Max(0, n - reach));
    hide FirstFree;
    StillMatching(a, b, reach, mates, r);
    StillUnblocked(a, b, reach, mates, r);
  }

  lemma StillMatching(a: string, b: string, reach: nat, mates: Mates, r: Option<nat>)
    requires |mates| < |a| && Matching(a, b, reach, mates)
    requires r.Some? ==> r.value < |b| && b[r.value] == a[|mates|] && Close(|mates|, r.value, reach) && r !in mates
    ensures Matching(a, b, reach, mates + [r])
  {
    var all := mates + [r];
    assert forall i :: 0 <= i < |mates| ==> all[i] in mates;
  }

  lemma StillUnblocked(a: string, b: string, reach: nat, mates: Mates, r: Option<nat>)
    requires |mates| < |a| && Unblocked(a, b, reach, mates)
    requires forall j :: 0 <= j < |b| && a[|mates|] == b[j] && Close(|mates|, j, reach) ==>
      (r.Some? && r.value <= j) || Some(j) in mates
    ensures Unblocked(a, b, reach, mates + [r])
  {
    var all := mates + [r];
    hide Close;
    assert forall i :: 0 <= i <= |mates| ==> all[..i] == mates[..i];
    assert mates[..|mates|] == mates;
  }

  /** There is only one stable matching. */
  lemma {:induction false} StableIsUnique(a: string, b: string, reach: nat, x: Mates, y: Mates, n: nat)
    requires Stable(a, b, reach, x) && Stable(a, b, reach, y) && n <= |a|
    ensures x[..n] == y[..n]
  {
    if n > 0 {
      StableIsUnique(a, b, reach, x, y, n - 1);
      NotBetter(a, b, reach, x, y, n - 1);
      NotBetter(a, b, reach, y, x, n - 1);
      PrefixSnoc(x, n - 1);
      PrefixSnoc(y, n - 1);
    }
  }

  /** The first character on which two stable matchings differ cannot be better off in one of them. */
  lemma NotBetter(a: string, b: string, reach: nat, x: Mates, y: Mates, i: nat)
    requires Stable(a, b, reach, x) && Stable(a, b, reach, y) && i < |a| && x[..i] == y[..i]
    ensures x[i].Some? ==> y[i].Some? && y[i].value <= x[i].value
  {
    if x[i].Some? {
      NotHeldBefore(a, b, reach, x, i);
    }
  }

  lemma NotHeldBefore(a: string, b: string, reach: nat, x: Mates, i: nat)
    requires |x| == |a| && Matching(a, b, reach, x) && i < |a| && x[i].Some?
    ensures x[i] !in x[..i]
  {
    forall k | 0 <= k < i ensures x[..i][k] != x[i] {
      assert x[..i][k] == x[k];
    }
  }

  // --- The other way round ------------------------------------------------------------------

  function Holder(mates: Mates, j: nat, n: nat): (r: Option<nat>)
    requires n <= |mates|
    ensures r.Some? ==> r.value < n && mates[r.value] == Some(j)
    ensures r.None? ==> Some(j) !in mates[..n]
  {
    if n == 0 then None
    else if mates[n - 1] == Some(j) then Some(n - 1)
    else
      assert mates[..n] == mates[..n - 1] + [mates[n - 1]];
      Holder(mates, j, n - 1)
  }

  function Flip(mates: Mates, lb: nat): (r: Mates)
    ensures |r| == lb
    ensures forall j :: 0 <= j < lb ==> r[j] == Holder(mates, j, |mates|)
  {
    seq(lb, j requires 0 <= j => Holder(mates, j, |mates|))
  }

  /** Each side's matches are the other side's, read backwards. */
  lemma FlipPairs(a: string, b: string, reach: nat, mates: Mates, i: nat, j: nat)
    requires Stable(a, b, reach, mates) && i < |a| && j < |b|
    ensures Flip(mates, |b|)[j] == Some(i) <==> mates[i] == Some(j)
  {
    assert mates[..|mates|] == mates;
  }

  lemma FlipIsStable(a: string, b: string, reach: nat, mates: Mates)
    requires Stable(a, b, reach, mates)
    ensures Stable(b, a, reach, Flip(mates, |b|))
  {
    var flip := Flip(mates, |b|);
    forall i: nat, j: nat | i < |a| && j < |b| ensures flip[j] == Some(i) <==> mates[i] == Some(j) {
      FlipPairs(a, b, reach, mates, i, j);
    }
    forall j: nat | j < |b| && flip[j].Some? ensures flip[j].value < |a| && mates[flip[j].value] == Some(j) {
    }
    hide Flip, Holder;
    TurnedMatching(a, b, reach, mates, flip);
    TurnedUnblocked(a, b, reach, mates, flip);
  }

  lemma TurnedMatching(a: string, b: string, reach: nat, mates: Mates, flip: Mates)
    requires |mates| == |a| && |flip| == |b| && Matching(a, b, reach, mates)
    requires forall j: nat :: j < |b| && flip[j].Some? ==> flip[j].value < |a| && mates[flip[j].value] == Some(j)
    ensures Matching(b, a, reach, flip)
  {
  }

  lemma TurnedUnblocked(a: string, b: string, reach: nat, mates: Mates, flip: Mates)
    requires |mates| == |a| && |flip| == |b| && Matching(a, b, reach, mates) && Unblocked(a, b, reach, mates)
    requires forall i: nat, j: nat :: i < |a| && j < |b| ==> (flip[j] == Some(i) <==> mates[i] == Some(j))
    ensures Unblocked(b, a, reach, flip)
  {
    forall j: nat, i: nat | j < |b| && i < |a| && b[j] == a[i] && Close(j, i, reach)
      ensures (flip[j].Some? && flip[j].value <= i) || Some(i) in flip[..j]
    {
      assert Close(i, j, reach);
      if mates[i].Some? && mates[i].value <= j {
        var q := mates[i].value;
        assert flip[q] == Some(i);
        assert q < j ==> flip[..j][q] == Some(i);
      } else {
        var k :| 0 <= k < i && mates[..i][k] == Some(j);
        assert flip[j] == Some(k);
      }
    }
  }

  /** Matching `b` against `a` finds the same pairs as matching `a` against `b`. */
  lemma MatesFlip(a: string, b: string)
    ensures MatesOf(b, a) == Flip(MatesOf(a, b), |b|)
  {
    var reach := Reach(|a|, |b|);
    assert Reach(|b|, |a|) == reach;
    GreedyIsStable(a, b, reach, |a|);
    GreedyIsStable(b, a, reach, |b|);
    FlipIsStable(a, b, reach, MatesOf(a, b));
    var x, y := MatesOf(b, a), Flip(MatesOf(a, b), |b|);
    StableIsUnique(b, a, reach, x, y, |b|);
    assert x[..|b|] == x && y[..|b|] == y;
  }

  // --- The score ----------------------------------------------------------------------------

  function MatchedInA(mates: Mates): (r: seq<bool>)
    ensures |r| == |mates| && forall i :: 0 <= i < |r| ==> r[i] == mates[i].Some?
  {
    seq(|mates|, i requires 0 <= i < |mates| => mates[i].Some?)
  }

  function MatchedInB(mates: Mates, lb: nat): (r: seq<bool>)
    ensures |r| == lb && forall j :: 0 <= j < lb ==> r[j] == (Some(j) in mates)
  {
    seq(lb, j requires 0 <= j => Some(j) in mates)
  }

  /** The characters among the first `n` that are flagged. */
  function Picked(s: string, flags: seq<bool>, n: nat): (r: string)
    requires n <= |s| == |flags|
    ensures |r| <= n
  {
    if n == 0 then "" else Picked(s, flags, n - 1) + if flags[n - 1] then [s[n - 1]] else []
  }

  /** Places where two strings of one length differ. */
  function Hamming(x: string, y: string): (t: nat)
    requires |x| == |y|
    ensures t <= |x|
    ensures t == 0 <==> x == y
  {
    if x == "" then 0
    else
      var n := |x| - 1;
      assert x == x[..n] + [x[n]] && y == y[..n] + [y[n]];
      Hamming(x[..n], y[..n]) + if x[n] == y[n] then 0 else 1
  }

  lemma HammingSnoc(x: string, y: string, c: char, d: char)
    requires |x| == |y|
    ensures Hamming(x + [c], y + [d]) == Hamming(x, y) + if c == d then 0 else 1
  {
    assert (x + [c])[..|x|] == x && (y + [d])[..|y|] == y;
  }

  function CommonPrefix(a: string, b: string, n: nat): (r: nat)
    requires n <= |a|
    ensures n <= r && (n <= 4 ==> r <= 4)
    decreases |a| - n
  {
    if n < 4 && n < |a| && n < |b| && a[n] == b[n] then CommonPrefix(a, b, n + 1) else n
  }

  function PickedA(a: string, b: string): string {
    Picked(a, MatchedInA(MatesOf(a, b)), |a|)
  }

  function PickedB(a: string, b: string): string {
    Picked(b, MatchedInB(MatesOf(a, b), |b|), |b|)
  }

  function Jaro(la: nat, lb: nat, m: nat, t: nat): real
    requires la > 0 && lb > 0 && m > 0
  {
    (m as real / la as real + m as real / lb as real + (m as real - t as real / 2.0) / m as real) / 3.0
  }

  function Boosted(jaro: real, prefix: nat): real {
    jaro + prefix as real * 0.1 * (1.0 - jaro)
  }

  function Score(a: string, b: string): real
    requires |PickedA(a, b)| == |PickedB(a, b)|
  {
    if a == b then 1.0
    else if a == "" || b == "" || PickedA(a, b) == "" then 0.0
    else
      Boosted(Jaro(|a|, |b|, |PickedA(a, b)|, Hamming(PickedA(a, b), PickedB(a, b))), CommonPrefix(a, b, 0))
  }

  function CountTrue(flags: seq<bool>): nat {
    if flags == [] then 0 else CountTrue(flags[..|flags| - 1]) + if flags[|flags| - 1] then 1 else 0
  }

  lemma {:induction false} PickedSize(s: string, flags: seq<bool>, n: nat)
    requires n <= |s| == |flags|
    ensures |Picked(s, flags, n)| == CountTrue(flags[..n])
  {
    if n > 0 {
      PickedSize(s, flags, n - 1);
      PrefixSnoc(flags, n - 1);
    }
  }

  lemma {:induction false} CountUpdate(flags: seq<bool>, j: nat)
    requires j < |flags| && !flags[j]
    ensures CountTrue(flags[j := true]) == CountTrue(flags) + 1
  {
    var n := |flags| - 1;
    if j < n {
      CountUpdate(flags[..n], j);
      assert flags[j := true][..n] == flags[..n][j := true];
    } else {
      assert flags[j := true][..n] == flags[..n];
    }
  }

  lemma {:induction false} CountFalse(flags: seq<bool>)
    requires forall i :: 0 <= i < |flags| ==> !flags[i]
    ensures CountTrue(flags) == 0
  {
    if flags != [] {
      CountFalse(flags[..|flags| - 1]);
    }
  }

  /** One more mate flags one more place on each side, or none on either. */
  lemma MateFlags(mates: Mates, r: Option<nat>, lb: nat)
    requires r.Some? ==> r.value < lb && r !in mates
    ensures MatchedInA(mates + [r]) == MatchedInA(mates) + [r.Some?]
    ensures MatchedInB(mates + [r], lb) == if r.Some? then MatchedInB(mates, lb)[r.value := true] else MatchedInB(mates, lb)
  {
    var all := mates + [r];
    forall j: nat ensures Some(j) in all <==> Some(j) in mates || Some(j) == r {
      if Some(j) == r {
        assert all[|mates|] == Some(j);
      } else if Some(j) in mates {
        var i :| 0 <= i < |mates| && mates[i] == Some(j);
        assert all[i] == Some(j);
      }
    }
  }

  /** Both sides have equally many matched characters. */
  lemma {:induction false} SameCounts(a: string, b: string, reach: nat, n: nat)
    requires n <= |a|
    ensures var mates := GreedyMates(a, b, reach, n);
      CountTrue(MatchedInA(mates)) == CountTrue(MatchedInB(mates, |b|))
  {
    if n == 0 {
      CountFalse(MatchedInB([], |b|));
    } else {
      SameCounts(a, b, reach, n - 1);
      var mates := GreedyMates(a, b, reach, n - 1);
      hide CountTrue, MatchedInA, MatchedInB;
      OneMoreCount(mates, FirstFree(a[n - 1], b, n - 1, reach, mates, Max(0, n - 1 - reach)), |b|);
    }
  }

  lemma OneMoreCount(mates: Mates, r: Option<nat>, lb: nat)
    requires r.Some? ==> r.value < lb && r !in mates
    requires CountTrue(MatchedInA(mates)) == CountTrue(MatchedInB(mates, lb))
    ensures CountTrue(MatchedInA(mates + [r])) == CountTrue(MatchedInB(mates + [r], lb))
  {
    MateFlags(mates, r, lb);
    CountSnoc(MatchedInA(mates), r.Some?);
    if r.Some? {
      CountUpdate(MatchedInB(mates, lb), r.value);
    }
    hide CountTrue;
  }

  lemma CountSnoc(flags: seq<bool>, f: bool)
    ensures CountTrue(flags + [f]) == CountTrue(flags) + if f then 1 else 0
  {
    assert (flags + [f])[..|flags|] == flags;
  }

  lemma SameSizes(a: string, b: string)
    ensures |PickedA(a, b)| == |PickedB(a, b)|
  {
    var mates := MatesOf(a, b);
    SameCounts(a, b, Reach(|a|, |b|), |a|);
    var fa, fb := MatchedInA(mates), MatchedInB(mates, |b|);
    PickedSize(a, fa, |a|);
    PickedSize(b, fb, |b|);
    assert fa[..|a|] == fa && fb[..|b|] == fb;
  }

  lemma CommonPrefixSym(a: string, b: string, n: nat)
    requires n <= |a| && n <= |b|
    ensures CommonPrefix(a, b, n) == CommonPrefix(b, a, n)
    decreases |a| - n
  {
    if n < 4 && n < |a| && n < |b| && a[n] == b[n] {
      CommonPrefixSym(a, b, n + 1);
    }
  }

  lemma {:induction false} HammingSym(x: string, y: string)
    requires |x| == |y|
    ensures Hamming(x, y) == Hamming(y, x)
  {
    if x != "" {
      HammingSym(x[..|x| - 1], y[..|x| - 1]);
    }
  }

  /** The matched characters of the two strings swap places with the strings. */
  lemma PickedSwap(a: string, b: string)
    ensures PickedA(b, a) == PickedB(a, b)
  {
    MatesFlip(a, b);
    GreedyIsStable(a, b, Reach(|a|, |b|), |a|);
    var mates := MatesOf(a, b);
    assert mates[..|mates|] == mates;
    assert MatchedInA(Flip(mates, |b|)) == MatchedInB(mates, |b|);
  }

  /** The score does not depend on which string comes first. */
  lemma ScoreIsSymmetric(a: string, b: string)
    ensures |PickedA(a, b)| == |PickedB(a, b)| && |PickedA(b, a)| == |PickedB(b, a)|
    ensures Score(a, b) == Score(b, a)
  {
    SameSizes(a, b);
    SameSizes(b, a);
    PickedSwap(a, b);
    PickedSwap(b, a);
    CommonPrefixSym(a, b, 0);
    HammingSym(PickedA(a, b), PickedB(a, b));
    JaroSym(|a|, |b|, |PickedA(a, b)|, Hamming(PickedA(a, b), PickedB(a, b)));
    hide PickedA, PickedB, Hamming, Jaro, CommonPrefix;
  }

  lemma JaroSym(la: nat, lb: nat, m: nat, t: nat)
    ensures la > 0 && lb > 0 && m > 0 ==> Jaro(la, lb, m, t) == Jaro(lb, la, m, t)
  {
  }

  // --- Bounds -------------------------------------------------------------------------------

  lemma Fraction(x: real, y: real)
    requires 0.0 < x <= y
    ensures 0.0 < x / y <= 1.0
    ensures x / y == 1.0 <==> x == y
  {
    assert x / y * y == x;
  }

  lemma JaroBounds(la: nat, lb: nat, m: nat, t: nat)
    requires 0 < m <= la && m <= lb && t <= m
    ensures 0.0 < Jaro(la, lb, m, t) <= 1.0
    ensures Jaro(la, lb, m, t) == 1.0 <==> m == la && m == lb && t == 0
  {
    Fraction(m as real, la as real);
    Fraction(m as real, lb as real);
    Fraction(m as real - t as real / 2.0, m as real);
  }

  lemma BoostedBounds(jaro: real, prefix: nat)
    requires 0.0 < jaro <= 1.0 && prefix <= 4
    ensures 0.0 < Boosted(jaro, prefix) <= 1.0
    ensures Boosted(jaro, prefix) == 1.0 <==> jaro == 1.0
  {
    var c := prefix as real * 0.1;
    assert Boosted(jaro, prefix) == 1.0 - (1.0 - c) * (1.0 - jaro);
    Product(c, 1.0 - jaro);
    Product(1.0 - c, 1.0 - jaro);
  }

  lemma Product(x: real, y: real)
    requires x >= 0.0 && y >= 0.0
    ensures x * y >= 0.0 && (x > 0.0 && y > 0.0 ==> x * y > 0.0)
  {
  }

  /** Where everything is flagged everything is picked. */
  lemma {:induction false} PickedAll(s: string, flags: seq<bool>, n: nat)
    requires n <= |s| == |flags| && |Picked(s, flags, n)| == n
    ensures Picked(s, flags, n) == s[..n]
  {
    if n > 0 {
      PickedAll(s, flags, n - 1);
      PrefixSnoc(s, n - 1);
    }
  }

  /** Strings whose characters are all matched in place are equal. */
  lemma PerfectMatch(a: string, b: string, fa: seq<bool>, fb: seq<bool>)
    requires |fa| == |a| && |fb| == |b|
    ensures |Picked(a, fa, |a|)| == |a| && |Picked(b, fb, |b|)| == |b| && Picked(a, fa, |a|) == Picked(b, fb, |b|) ==> a == b
  {
    if |Picked(a, fa, |a|)| == |a| && |Picked(b, fb, |b|)| == |b| {
      PickedAll(a, fa, |a|);
      PickedAll(b, fb, |b|);
      assert a[..|a|] == a && b[..|b|] == b;
    }
  }

  /** The score lies in [0, 1], and is 1 for equal strings only. */
  lemma ScoreBounds(a: string, b: string)
    ensures |PickedA(a, b)| == |PickedB(a, b)|
    ensures 0.0 <= Score(a, b) <= 1.0
    ensures Score(a, b) == 1.0 <==> a == b
    ensures Score(a, b) == 0.0 <==> a != b && PickedA(a, b) == ""
  {
    SameSizes(a, b);
    var m := |PickedA(a, b)|;
    if a != b && m > 0 {
      var mates := MatesOf(a, b);
      var t := Hamming(PickedA(a, b), PickedB(a, b));
      PerfectMatch(a, b, MatchedInA(mates), MatchedInB(mates, |b|));
      hide Picked, Hamming, MatesOf, CommonPrefix;
      JaroBounds(|a|, |b|, m, t);
      BoostedBounds(Jaro(|a|, |b|, m, t), CommonPrefix(a, b, 0));
      hide Jaro, Boosted;
    }
  }

  // --- The algorithm ------------------------------------------------------------------------

  lemma CountNone()
    ensures CountTrue([]) == 0
  {
  }

  /** Looks for a place for character `i` and flags both ends of the match. */
  method MatchOne(a: string, b: string, i: nat, reach: nat, am: array<bool>, bm: array<bool>, ghost mates: Mates)
    returns (found: bool)
    requires i < |a| == am.Length && bm.Length == |b| && am != bm && !am[i]
    requires bm[..] == MatchedInB(mates, |b|)
    modifies am, bm
    ensures var r := FirstFree(a[i], b, i, reach, mates, Max(0, i - reach));
      && found == r.Some?
      && am[..] == (if found then old(am[..])[i := true] else old(am[..]))
      && bm[..] == (if found then old(bm[..])[r.value := true] else old(bm[..]))
  {
    var lo, hi := Max(0, i - reach), Min(i + reach + 1, |b|);
    var j := lo;
    while j < hi
      invariant lo <= j && am[..] == old(am[..]) && bm[..] == old(bm[..])
      invariant FirstFree(a[i], b, i, reach, mates, lo) == FirstFree(a[i], b, i, reach, mates, j)
    {
      if !(bm[j] || a[i] != b[j]) {
        am[i] := true;
        bm[j] := true;
        return true;
      }
      j := j + 1;
    }
    return false;
  }

  /** The flags after the first `i` characters of `a` have been matched. */
  ghost predicate FlagsAt(a: string, b: string, reach: nat, fa: seq<bool>, fb: seq<bool>, i: nat, m: nat) {
    && i <= |a| == |fa|
    && fa[..i] == MatchedInA(GreedyMates(a, b, reach, i)) && (forall k :: i <= k < |a| ==> !fa[k])
    && fb == MatchedInB(GreedyMates(a, b, reach, i), |b|)
    && m == CountTrue(fa[..i])
  }

  lemma FlagsNext(a: string, b: string, reach: nat, fa: seq<bool>, fb: seq<bool>, i: nat, m: nat)
    requires FlagsAt(a, b, reach, fa, fb, i, m) && i < |a|
    ensures var r := FirstFree(a[i], b, i, reach, GreedyMates(a, b, reach, i), Max(0, i - reach));
      && |fb| == |b|
      && FlagsAt(a, b, reach, if r.Some? then fa[i := true] else fa, if r.Some? then fb[r.value := true] else fb,
                 i + 1, if r.Some? then m + 1 else m)
  {
    var mates := GreedyMates(a, b, reach, i);
    var r := FirstFree(a[i], b, i, reach, mates, Max(0, i - reach));
    GreedyStep(a, b, reach, i + 1);
    hide FirstFree, GreedyMates, CountTrue;
    MateFlags(mates, r, |b|);
    CountSnoc(fa[..i], r.Some?);
    var next := if r.Some? then fa[i := true] else fa;
    assert next[..i + 1] == fa[..i] + [r.Some?];
  }

  method MatchCharacters(a: string, b: string, reach: nat) returns (am: array<bool>, bm: array<bool>, matches: nat)
    requires reach == Reach(|a|, |b|)
    ensures am.Length == |a| && bm.Length == |b|
    ensures am[..] == MatchedInA(MatesOf(a, b)) && bm[..] == MatchedInB(MatesOf(a, b), |b|)
    ensures matches == CountTrue(am[..]) == CountTrue(bm[..])
  {
    am := new bool[|a|](i => false);
    bm := new bool[|b|](i => false);
    matches := 0;
    assert bm[..] == MatchedInB([], |b|);
    assert FlagsAt(a, b, reach, am[..], bm[..], 0, 0);
    hide CountTrue, FirstFree, GreedyMates;
    for i := 0 to |a|
      invariant FlagsAt(a, b, reach, am[..], bm[..], i, matches)
    {
      FlagsNext(a, b, reach, am[..], bm[..], i, matches);
      var found := MatchOne(a, b, i, reach, am, bm, GreedyMates(a, b, reach, i));
      if found {
        matches := matches + 1;
      }
    }
    assert am[..|a|] == am[..];
    SameCounts(a, b, reach, |a|);
  }

  /** Past the last flag nothing more is picked. */
  lemma {:induction false} NoneLeft(s: string, flags: seq<bool>, k: nat, n: nat)
    requires k <= n <= |s| == |flags| && CountTrue(flags[..k]) == CountTrue(flags[..n])
    ensures Picked(s, flags, n) == Picked(s, flags, k)
    decreases n
  {
    if k < n {
      PrefixSnoc(flags, n - 1);
      CountGrows(flags, k, n - 1);
      NoneLeft(s, flags, k, n - 1);
    }
  }

  lemma {:induction false} CountGrows(flags: seq<bool>, k: nat, n: nat)
    requires k <= n <= |flags|
    ensures CountTrue(flags[..k]) <= CountTrue(flags[..n])
    ensures (forall i :: k <= i < n ==> !flags[i]) ==> CountTrue(flags[..k]) == CountTrue(flags[..n])
    decreases n
  {
    if k < n {
      PrefixSnoc(flags, n - 1);
      CountGrows(flags, k, n - 1);
    }
  }

  lemma PickedStep(s: string, flags: seq<bool>, n: nat)
    requires n < |s| == |flags|
    ensures Picked(s, flags, n + 1) == Picked(s, flags, n) + if flags[n] then [s[n]] else []
    ensures CountTrue(flags[..n + 1]) == CountTrue(flags[..n]) + if flags[n] then 1 else 0
    ensures Picked(s, flags, 0) == ""
  {
    PrefixSnoc(flags, n);
  }

  /** Moves on to the next flagged place; one is left because more are flagged than were passed. */
  method NextFlag(flags: array<bool>, from: nat) returns (k: nat)
    requires from <= flags.Length && CountTrue(flags[..][..from]) < CountTrue(flags[..])
    ensures from <= k < flags.Length && flags[k] && forall i :: from <= i < k ==> !flags[i]
  {
    k := from;
    ghost var all := flags[..];
    assert all[..|all|] == all;
    CountGrows(all, from, |all|);
    FlagLeft(all, from);
    while !flags[k]
      invariant from <= k < flags.Length && forall i :: from <= i < k ==> !flags[i]
      decreases flags.Length - k
    {
      k := k + 1;
    }
  }

  lemma FlagLeft(flags: seq<bool>, from: nat)
    requires from <= |flags| && CountTrue(flags[..from]) < CountTrue(flags)
    ensures exists k :: from <= k < |flags| && flags[k]
  {
    assert flags[..|flags|] == flags;
    CountGrows(flags, from, |flags|);
  }

  /** The first `i` and `k` places hold equally many matched characters, `t` of them different. */
  ghost predicate Compared(a: string, b: string, fa: seq<bool>, fb: seq<bool>, i: nat, k: nat, t: nat)
    requires |fa| == |a| && |fb| == |b|
  {
    && i <= |a| && k <= |b|
    && CountTrue(fa[..i]) == CountTrue(fb[..k])
    && |Picked(a, fa, i)| == |Picked(b, fb, k)|
    && t == Hamming(Picked(a, fa, i), Picked(b, fb, k))
  }

  lemma ComparedSkip(a: string, b: string, fa: seq<bool>, fb: seq<bool>, i: nat, k: nat, t: nat)
    requires |fa| == |a| && |fb| == |b| && Compared(a, b, fa, fb, i, k, t) && i < |a| && !fa[i]
    ensures Compared(a, b, fa, fb, i + 1, k, t)
  {
    PickedStep(a, fa, i);
    hide Picked, CountTrue;
    assert Picked(a, fa, i) + [] == Picked(a, fa, i);
  }

  lemma ComparedNext(a: string, b: string, fa: seq<bool>, fb: seq<bool>, i: nat, from: nat, k: nat, t: nat)
    requires |fa| == |a| && |fb| == |b| && Compared(a, b, fa, fb, i, from, t) && i < |a| && fa[i]
    requires from <= k < |b| && fb[k] && forall m :: from <= m < k ==> !fb[m]
    ensures Compared(a, b, fa, fb, i + 1, k + 1, if a[i] != b[k] then t + 1 else t)
  {
    hide Picked, CountTrue, Hamming;
    PickedStep(a, fa, i);
    CountGrows(fb, from, k);
    NoneLeft(b, fb, from, k);
    PickedStep(b, fb, k);
    HammingSnoc(Picked(a, fa, i), Picked(b, fb, from), a[i], b[k]);
  }

  /** A flagged character has a partner left on the other side. */
  lemma PartnerLeft(a: string, b: string, fa: seq<bool>, fb: seq<bool>, i: nat, k: nat, t: nat)
    requires |fa| == |a| && |fb| == |b| && Compared(a, b, fa, fb, i, k, t) && CountTrue(fa) == CountTrue(fb)
    requires i < |a| && fa[i]
    ensures CountTrue(fb[..k]) < CountTrue(fb)
  {
    PickedStep(a, fa, i);
    CountGrows(fa, i + 1, |a|);
    assert fa[..|a|] == fa;
  }

  lemma ComparedAll(a: string, b: string, fa: seq<bool>, fb: seq<bool>, k: nat, t: nat)
    requires |fa| == |a| && |fb| == |b| && Compared(a, b, fa, fb, |a|, k, t) && CountTrue(fa) == CountTrue(fb)
    ensures Compared(a, b, fa, fb, |a|, |b|, t)
  {
    assert fa[..|a|] == fa && fb[..|b|] == fb;
    NoneLeft(b, fb, k, |b|);
  }

  method CountDifferences(a: string, b: string, am: array<bool>, bm: array<bool>) returns (t: nat)
    requires am.Length == |a| && bm.Length == |b| && CountTrue(am[..]) == CountTrue(bm[..])
    ensures |Picked(a, am[..], |a|)| == |Picked(b, bm[..], |b|)|
    ensures t == Hamming(Picked(a, am[..], |a|), Picked(b, bm[..], |b|))
  {
    t := 0;
    var k := 0;
    assert Compared(a, b, am[..], bm[..], 0, 0, 0);
    hide Compared, Picked, Hamming, CountTrue;
    for i := 0 to |a|
      invariant k <= |b| && Compared(a, b, am[..], bm[..], i, k, t)
    {
      if !am[i] {
        ComparedSkip(a, b, am[..], bm[..], i, k, t);
        continue;
      }
      ghost var start := k;
      PartnerLeft(a, b, am[..], bm[..], i, k, t);
      k := NextFlag(bm, k);
      ComparedNext(a, b, am[..], bm[..], i, start, k, t);
      if a[i] != b[k] {
        t := t + 1;
      }
      k := k + 1;
    }
    ComparedAll(a, b, am[..], bm[..], k, t);
    ComparedMeans(a, b, am[..], bm[..], t);
  }

  lemma ComparedMeans(a: string, b: string, fa: seq<bool>, fb: seq<bool>, t: nat)
    requires |fa| == |a| && |fb| == |b| && Compared(a, b, fa, fb, |a|, |b|, t)
    ensures |Picked(a, fa, |a|)| == |Picked(b, fb, |b|)| && t == Hamming(Picked(a, fa, |a|), Picked(b, fb, |b|))
  {
  }

  method Similarity(a: string, b: string) returns (r: real)
    ensures |PickedA(a, b)| == |PickedB(a, b)| && r == Score(a, b)
  {
    SameSizes(a, b);
    hide MatesOf, CountTrue, Picked, Hamming, Reach, MatchedInA, MatchedInB;
    if a == b {
      return 1.0;
    }
    if |a| == 0 || |b| == 0 {
      return 0.0;
    }
    var am, bm, matches := MatchCharacters(a, b, Reach(|a|, |b|));
    ghost var fa := am[..];
    PickedSize(a, fa, |a|);
    assert fa[..|a|] == fa;
    if matches == 0 {
      return 0.0;
    }
    var t := CountDifferences(a, b, am, bm);
    var m := matches as real;
    var jaro := (m / |a| as real + m / |b| as real + (m - t as real / 2.0) / m) / 3.0;
    var prefix := 0;
    while prefix < 4 && prefix < |a| && prefix < |b| && a[prefix] == b[prefix]
      invariant prefix <= 4 && prefix <= |a|
      invariant CommonPrefix(a, b, 0) == CommonPrefix(a, b, prefix)
      decreases 4 - prefix
    {
      prefix := prefix + 1;
    }
    r := jaro + prefix as real * 0.1 * (1.0 - jaro);
  }

  // --- Names --------------------------------------------------------------------------------

  predicate Includes(long: string, short: string) {
    exists i :: 0 <= i <= |long| && OccursAt(long, short, i)
  }

  predicate OccursAt(long: string, short: string, i: nat) {
    i + |short| <= |long| && long[i..i + |short|] == short
  }

  function Contained(x: string, y: string): real {
    var short, long := if |x| <= |y| then x else y, if |x| <= |y| then y else x;
    if |short| >= 4 && Includes(long, short) then 0.9 else 0.0
  }

  /** Similarity of two normalized names: the better of the score and containment. */
  function NameScore(x: string, y: string): real
    requires |PickedA(x, y)| == |PickedB(x, y)|
  {
    if x == "" || y == "" then 0.0
    else if Score(x, y) < Contained(x, y) then Contained(x, y) else Score(x, y)
  }

  method NameSimilarity(a: string, b: string, normalize: string -> string) returns (r: real)
    ensures |PickedA(normalize(a), normalize(b))| == |PickedB(normalize(a), normalize(b))|
    ensures r == NameScore(normalize(a), normalize(b))
  {
    var x, y := normalize(a), normalize(b);
    SameSizes(x, y);
    if |x| == 0 || |y| == 0 {
      return 0.0;
    }
    var contained := Contained(x, y);
    r := Similarity(x, y);
    if r < contained {
      r := contained;
    }
  }

  /** Equal-length names contain each other only when they are equal. */
  lemma ContainedSym(x: string, y: string)
    ensures Contained(x, y) == Contained(y, x)
  {
    if |x| == |y| {
      OnlyItself(x, y);
      OnlyItself(y, x);
    }
  }

  lemma OnlyItself(x: string, y: string)
    requires |x| == |y|
    ensures Includes(x, y) <==> x == y
  {
    assert x[0..|x|] == x;
    assert OccursAt(x, y, 0) <==> x == y;
  }

  /** Names compare alike both ways, score within [0, 1], and reach 1 only when they normalize to the same text. */
  lemma NameScoreLaws(x: string, y: string)
    ensures |PickedA(x, y)| == |PickedB(x, y)| && |PickedA(y, x)| == |PickedB(y, x)|
    ensures NameScore(x, y) == NameScore(y, x)
    ensures 0.0 <= NameScore(x, y) <= 1.0
    ensures NameScore(x, y) == 1.0 <==> x == y && x != ""
  {
    ScoreBounds(x, y);
    ScoreIsSymmetric(x, y);
    ContainedSym(x, y);
    hide Score, Includes;
  }
}
