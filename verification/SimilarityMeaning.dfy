/**
 * The name similarity by definition: the Jaro-Winkler formula over any matching that leaves no two
 * characters that would both rather have each other, and containment of one name in the other.
 */
module SimilarityMeaning {
  import opened Common
  import opened JaroWinkler

  /** The flagged places, in order. */
  ghost predicate Lists(at: seq<nat>, flags: seq<bool>) {
    && (forall k, l :: 0 <= k < l < |at| ==> at[k] < at[l])
    && (forall k :: 0 <= k < |at| ==> at[k] < |flags| && flags[at[k]])
    && (forall i :: 0 <= i < |flags| && flags[i] ==> i in at)
  }

  lemma LastPlace(at: seq<nat>, flags: seq<bool>)
    requires Lists(at, flags) && flags != []
    ensures var n := |flags| - 1;
      if flags[n] then at != [] && at[|at| - 1] == n && Lists(at[..|at| - 1], flags[..n]) else Lists(at, flags[..n])
  {
    var n := |flags| - 1;
    if flags[n] {
      assert n in at;
      var k :| 0 <= k < |at| && at[k] == n;
      assert at[k] <= at[|at| - 1];
      forall i | 0 <= i < n && flags[..n][i] ensures i in at[..|at| - 1] {
        var l :| 0 <= l < |at| && at[l] == i;
        assert at[..|at| - 1][l] == i;
      }
    } else {
      forall k | 0 <= k < |at| ensures at[k] < n {
        assert flags[at[k]];
      }
    }
  }

  lemma {:induction false} PlaceGrows(at: seq<nat>, k: nat)
    requires k < |at| && forall i, j :: 0 <= i < j < |at| ==> at[i] < at[j]
    ensures k <= at[k]
  {
    if k > 0 {
      PlaceGrows(at, k - 1);
    }
  }

  lemma FewPlaces(at: seq<nat>, flags: seq<bool>)
    requires Lists(at, flags)
    ensures |at| <= |flags|
  {
    if |at| > 0 {
      PlaceGrows(at, |at| - 1);
    }
  }

  /** The picked characters are those at the flagged places. */
  lemma {:induction false} PickedByPlace(s: string, flags: seq<bool>, n: nat, at: seq<nat>)
    requires n <= |s| == |flags| && Lists(at, flags[..n])
    ensures |Picked(s, flags, n)| == |at| && forall k :: 0 <= k < |at| ==> Picked(s, flags, n)[k] == s[at[k]]
  {
    if n == 0 {
      FewPlaces(at, flags[..0]);
    } else {
      LastPlace(at, flags[..n]);
      assert flags[..n][..n - 1] == flags[..n - 1];
      if flags[n - 1] {
        PickedByPlace(s, flags, n - 1, at[..|at| - 1]);
      } else {
        PickedByPlace(s, flags, n - 1, at);
      }
    }
  }

  /** The places at which two strings of one length differ. */
  lemma {:induction false} HammingBySet(x: string, y: string)
    requires |x| == |y|
    ensures Hamming(x, y) == |set k | 0 <= k < |x| && x[k] != y[k]|
  {
    if x != "" {
      var n := |x| - 1;
      HammingBySet(x[..n], y[..n]);
      var front := set k | 0 <= k < n && x[..n][k] != y[..n][k];
      var all := set k | 0 <= k < |x| && x[k] != y[k];
      assert all == if x[n] == y[n] then front else front + {n};
    }
  }

  /** The length of the common prefix, at most 4. */
  ghost predicate PrefixIs(a: string, b: string, p: nat) {
    && p <= 4 && p <= |a| && p <= |b| && a[..p] == b[..p]
    && (p == 4 || p == |a| || p == |b| || a[p] != b[p])
  }

  lemma {:induction false} PrefixExactly(a: string, b: string, n: nat, p: nat)
    requires PrefixIs(a, b, p) && n <= p
    ensures CommonPrefix(a, b, n) == p
    decreases p - n
  {
    if n < p {
      assert a[n] == a[..p][n] == b[..p][n] == b[n];
      PrefixExactly(a, b, n + 1, p);
    }
  }

  /** The Jaro-Winkler formula. */
  function Formula(la: nat, lb: nat, m: nat, t: nat, p: nat): real
    requires la > 0 && lb > 0 && m > 0
  {
    var matched, apart := m as real, t as real / 2.0;
    var jaro := (matched / la as real + matched / lb as real + (matched - apart) / matched) / 3.0;
    jaro + p as real / 10.0 * (1.0 - jaro)
  }

  /**
   * The score of two different, non-empty strings. Take any matching of equal characters at most
   * max(|a|, |b|) / 2 - 1 places apart that no free or later-matched pair would undo, let m be the
   * matched characters, t the places at which those of `a` and of `b`, each read in order, differ,
   * and p the common prefix up to 4: the score is the Jaro formula lifted by p tenths of what is
   * missing to 1.
   */
  lemma ScoreByDefinition(a: string, b: string, mates: Mates, inA: seq<nat>, inB: seq<nat>, p: nat)
    requires a != b && a != "" && b != "" && PrefixIs(a, b, p)
    requires Stable(a, b, if |a| >= 4 || |b| >= 4 then Max(|a|, |b|) / 2 - 1 else 0, mates)
    requires Lists(inA, seq(|a|, i requires 0 <= i < |mates| => mates[i].Some?))
    requires Lists(inB, seq(|b|, j requires 0 <= j => Some(j) in mates))
    ensures |inA| == |inB| && |PickedA(a, b)| == |PickedB(a, b)|
    ensures |inA| == 0 ==> Score(a, b) == 0.0
    ensures |inA| > 0 ==> Score(a, b) == Formula(|a|, |b|, |inA|, |set k | 0 <= k < |inA| && a[inA[k]] != b[inB[k]]|, p)
  {
    var fa, fb := seq(|a|, i requires 0 <= i < |mates| => mates[i].Some?), seq(|b|, j requires 0 <= j => Some(j) in mates);
    hide Lists, PrefixIs, Stable;
    OnlyMatching(a, b, mates, fa, fb);
    SameSizes(a, b);
    hide MatesOf, Picked, MatchedInA, MatchedInB, Hamming;
    PlacesCompared(a, b, fa, fb, inA, inB);
    PrefixExactly(a, b, 0, p);
    if |inA| > 0 {
      var t := |set k | 0 <= k < |inA| && a[inA[k]] != b[inB[k]]|;
      hide *;
      ScoreUnfolds(a, b, |inA|, t, p);
      FormulaIs(|a|, |b|, |inA|, t, p);
    }
  }

  lemma OnlyMatching(a: string, b: string, mates: Mates, fa: seq<bool>, fb: seq<bool>)
    requires Stable(a, b, if |a| >= 4 || |b| >= 4 then Max(|a|, |b|) / 2 - 1 else 0, mates)
    requires fa == seq(|a|, i requires 0 <= i < |mates| => mates[i].Some?) && fb == seq(|b|, j requires 0 <= j => Some(j) in mates)
    ensures |fa| == |a| && |fb| == |b| && fa == MatchedInA(MatesOf(a, b)) && fb == MatchedInB(MatesOf(a, b), |b|)
    ensures PickedA(a, b) == Picked(a, fa, |a|) && PickedB(a, b) == Picked(b, fb, |b|)
  {
    var reach := Reach(|a|, |b|);
    assert reach == if |a| >= 4 || |b| >= 4 then Max(|a|, |b|) / 2 - 1 else 0;
    GreedyIsStable(a, b, reach, |a|);
    StableIsUnique(a, b, reach, mates, MatesOf(a, b), |a|);
    assert mates[..|a|] == mates && MatesOf(a, b)[..|a|] == MatesOf(a, b);
    hide GreedyMates, Matching, Unblocked, Reach, Picked;
    assert fa == MatchedInA(mates) && fb == MatchedInB(mates, |b|);
  }

  lemma ScoreUnfolds(a: string, b: string, m: nat, t: nat, p: nat)
    requires a != b && a != "" && b != "" && m > 0 && |PickedA(a, b)| == |PickedB(a, b)| == m
    requires Hamming(PickedA(a, b), PickedB(a, b)) == t && CommonPrefix(a, b, 0) == p
    ensures Score(a, b) == Boosted(Jaro(|a|, |b|, m, t), p)
  {
    hide PickedA, PickedB, Hamming, CommonPrefix, Jaro, Boosted;
  }

  lemma PlacesCompared(a: string, b: string, fa: seq<bool>, fb: seq<bool>, inA: seq<nat>, inB: seq<nat>)
    requires |fa| == |a| && |fb| == |b| && Lists(inA, fa) && Lists(inB, fb)
    requires |Picked(a, fa, |a|)| == |Picked(b, fb, |b|)|
    ensures |inA| == |inB| == |Picked(a, fa, |a|)|
    ensures Hamming(Picked(a, fa, |a|), Picked(b, fb, |b|)) == |set k | 0 <= k < |inA| && a[inA[k]] != b[inB[k]]|
  {
    assert fa[..|a|] == fa && fb[..|b|] == fb;
    PickedByPlace(a, fa, |a|, inA);
    PickedByPlace(b, fb, |b|, inB);
    var x, y := Picked(a, fa, |a|), Picked(b, fb, |b|);
    HammingBySet(x, y);
    assert (set k | 0 <= k < |x| && x[k] != y[k]) == set k | 0 <= k < |inA| && a[inA[k]] != b[inB[k]];
  }

  lemma FormulaIs(la: nat, lb: nat, m: nat, t: nat, p: nat)
    requires la > 0 && lb > 0 && m > 0
    ensures Boosted(Jaro(la, lb, m, t), p) == Formula(la, lb, m, t, p)
  {
  }

  /** The text `s`, of four characters or more, stands in `l` as a whole. */
  ghost predicate StandsIn(s: string, l: string) {
    |s| >= 4 && StandsSomewhere(s, l)
  }

  ghost predicate StandsSomewhere(s: string, l: string) {
    exists i: nat :: StandsAt(s, l, i)
  }

  ghost predicate StandsAt(s: string, l: string, i: nat) {
    i + |s| <= |l| && forall k :: 0 <= k < |s| ==> l[i + k] == s[k]
  }

  /**
   * Normalized names: nothing for an empty one, and otherwise their score, but at least 0.9 when
   * one has four characters or more and stands in the other as a whole.
   */
  lemma NameScoreByDefinition(x: string, y: string)
    ensures |PickedA(x, y)| == |PickedB(x, y)|
    ensures x == "" || y == "" ==> NameScore(x, y) == 0.0
    ensures x != "" && y != "" && !StandsIn(x, y) && !StandsIn(y, x) ==> NameScore(x, y) == Score(x, y)
    ensures x != "" && y != "" && (StandsIn(x, y) || StandsIn(y, x)) ==>
      NameScore(x, y) == if Score(x, y) < 0.9 then 0.9 else Score(x, y)
  {
    SameSizes(x, y);
    ScoreBounds(x, y);
    hide Score, PickedA, PickedB, StandsIn, Includes;
    ContainedExactly(x, y);
  }

  lemma OccursIs(l: string, s: string, i: nat)
    ensures OccursAt(l, s, i) <==> StandsAt(s, l, i)
  {
    if OccursAt(l, s, i) {
      forall k | 0 <= k < |s| ensures l[i + k] == s[k] {
        assert l[i..i + |s|][k] == s[k];
      }
    }
  }

  lemma IncludesIs(l: string, s: string)
    ensures Includes(l, s) <==> StandsSomewhere(s, l)
    ensures |s| > |l| ==> !StandsSomewhere(s, l)
  {
    if Includes(l, s) {
      var i :| 0 <= i <= |l| && OccursAt(l, s, i);
      OccursIs(l, s, i);
    }
    if StandsSomewhere(s, l) {
      var i: nat :| StandsAt(s, l, i);
      OccursIs(l, s, i);
    }
  }

  lemma ContainedExactly(x: string, y: string)
    ensures Contained(x, y) == if StandsIn(x, y) || StandsIn(y, x) then 0.9 else 0.0
  {
    IncludesIs(x, y);
    IncludesIs(y, x);
    if |x| == |y| {
      OnlyItself(x, y);
      OnlyItself(y, x);
    }
    hide Includes, StandsSomewhere;
  }
}
