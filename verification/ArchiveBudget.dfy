/**
 * Cutting an archive to a byte budget (archive_saga.ts): the largest file that can still
 * shrink is cut first, JSON Lines by whole lines and JSON to a marker.
 */
module ArchiveBudget {
  import opened Common
  import opened ArchiveText

  // --- One file ---------------------------------------------------------------------------

  /** How many lines from `k` on still fit into `max` bytes. */
  function FitFrom(lines: seq<Text>, max: int, k: nat): (r: nat)
    requires k <= |lines|
    ensures k <= r <= |lines|
    decreases |lines| - k
  {
    if k == |lines| || |Join(lines[..k + 1])| > max then k else FitFrom(lines, max, k + 1)
  }

  function Truncated(f: ArchiveFile, t: Text, max: nat): Text {
    if |t| <= max then t
    else if !IsJsonLines(f) then MARKER
    else Join(Lines(t)[..FitFrom(Lines(t), max, 0)])
  }

  lemma JoinSnoc(lines: seq<Text>, k: nat)
    requires k < |lines|
    ensures Join(lines[..k + 1]) == Join(lines[..k]) + lines[k] + "\n"
  {
    PrefixSnoc(lines, k);
  }

  lemma {:induction false} FitFits(lines: seq<Text>, max: nat, k: nat)
    requires k <= |lines| && |Join(lines[..k])| <= max
    ensures |Join(lines[..FitFrom(lines, max, k)])| <= max
    decreases |lines| - k
  {
    if !(k == |lines| || |Join(lines[..k + 1])| > max) {
      FitFits(lines, max, k + 1);
    }
  }

  method TruncateText(f: ArchiveFile, t: Text, max: nat) returns (out: Text)
    ensures out == Truncated(f, t, max)
  {
    if |t| <= max {
      return t;
    }
    if !IsJsonLines(f) {
      return MARKER;
    }
    out := "";
    var used := 0;
    var pieces := Split(t);
    assert KeptAt(pieces, max, 0, "");
    hide KeptAt, Truncated, Split;
    for i := 0 to |pieces|
      invariant KeptAt(pieces, max, i, out) && used == |out| <= max
    {
      KeepLine(pieces, max, i, out);
      var line := pieces[i];
      if line == "" {
        continue;
      }
      if used + |line| + 1 > max {
        TruncatedIs(f, t, max, out);
        return;
      }
      out := out + line + "\n";
      used := used + |line| + 1;
    }
    KeptAll(pieces, max, out);
    TruncatedIs(f, t, max, out);
  }

  /** The lines of the first `i` pieces all fit, and `out` is their text. */
  ghost predicate KeptAt(pieces: seq<Text>, max: nat, i: nat, out: Text) {
    && i <= |pieces|
    && var lines, k := NonEmpty(pieces), |NonEmpty(pieces[..i])|;
    && k <= |lines| && NonEmpty(pieces[..i]) == lines[..k]
    && out == Join(lines[..k])
    && FitFrom(lines, max, 0) == FitFrom(lines, max, k)
  }

  /** What a text keeps when its lines are cut to `max` bytes. */
  function Kept(pieces: seq<Text>, max: nat): Text {
    Join(NonEmpty(pieces)[..FitFrom(NonEmpty(pieces), max, 0)])
  }

  lemma KeepLine(pieces: seq<Text>, max: nat, i: nat, out: Text)
    requires i < |pieces| && KeptAt(pieces, max, i, out)
    ensures pieces[i] == "" ==> KeptAt(pieces, max, i + 1, out)
    ensures pieces[i] != "" && |out| + |pieces[i]| + 1 <= max ==> KeptAt(pieces, max, i + 1, out + pieces[i] + "\n")
    ensures pieces[i] != "" && |out| + |pieces[i]| + 1 > max ==> out == Kept(pieces, max)
  {
    PrefixSnoc(pieces, i);
    PrefixLines(pieces, i + 1);
    var lines, k := NonEmpty(pieces), |NonEmpty(pieces[..i])|;
    assert NonEmpty(pieces[..i + 1]) == NonEmpty(pieces[..i]) + if pieces[i] == "" then [] else [pieces[i]];
    hide NonEmpty;
    if pieces[i] != "" {
      JoinSnoc(lines, k);
    } else {
      assert lines[..k] + [] == lines[..k];
    }
  }

  lemma KeptAll(pieces: seq<Text>, max: nat, out: Text)
    requires KeptAt(pieces, max, |pieces|, out)
    ensures out == Kept(pieces, max)
  {
    assert pieces[..|pieces|] == pieces;
  }

  lemma TruncatedIs(f: ArchiveFile, t: Text, max: nat, out: Text)
    requires |t| > max && IsJsonLines(f) && out == Kept(Split(t), max)
    ensures out == Truncated(f, t, max)
  {
  }

  /** The non-empty pieces of a prefix are a prefix of the lines. */
  lemma PrefixLines(pieces: seq<Text>, i: nat)
    requires i <= |pieces|
    ensures NonEmpty(pieces[..i]) <= NonEmpty(pieces)
  {
    hide NonEmpty;
    NonEmptyAppend(pieces[..i], pieces[i..]);
    assert pieces[..i] + pieces[i..] == pieces;
  }

  /** What may become of a file: itself, or something shorter made of its own whole lines, or the marker. */
  ghost predicate Cut(f: ArchiveFile, orig: Text, cur: Text) {
    || cur == orig
    || (|cur| < |orig| && if IsJsonLines(f) then LinePrefix(orig, cur) else cur == MARKER)
  }

  ghost predicate LinePrefix(orig: Text, cur: Text) {
    exists k :: 0 <= k <= |Lines(orig)| && cur == Join(Lines(orig)[..k])
  }

  /** Truncating keeps within the limit what can be kept, and is at worst a cut. */
  lemma TruncatedIsCut(f: ArchiveFile, orig: Text, cur: Text, max: nat)
    requires Cut(f, orig, cur)
    ensures var next := Truncated(f, cur, max);
      && (IsJsonLines(f) ==> |next| <= max)
      && (|next| < |cur| ==> Cut(f, orig, next))
  {
    var next := Truncated(f, cur, max);
    if IsJsonLines(f) && |cur| > max {
      assert Join(Lines(cur)[..0]) == "";
      FitFits(Lines(cur), max, 0);
      var j := FitFrom(Lines(cur), max, 0);
      if cur != orig {
        var k :| 0 <= k <= |Lines(orig)| && cur == Join(Lines(orig)[..k]);
        LinesAreLines(orig);
        LinesOfJoin(Lines(orig)[..k]);
        assert Lines(orig)[..k][..j] == Lines(orig)[..j];
        assert next == Join(Lines(orig)[..j]);
      } else {
        assert next == Join(Lines(orig)[..j]);
      }
      assert LinePrefix(orig, next);
    }
  }

  lemma {:induction false} FitIsMost(lines: seq<Text>, max: int, k: nat)
    requires k <= |lines|
    ensures var r := FitFrom(lines, max, k); r == |lines| || |Join(lines[..r + 1])| > max
    decreases |lines| - k
  {
    if !(k == |lines| || |Join(lines[..k + 1])| > max) {
      FitIsMost(lines, max, k + 1);
    }
  }

  /** A cut keeps a text that fits, a marker of a JSON file, and of JSON Lines as many whole lines as fit, from the first on. */
  lemma TruncatedIsMost(f: ArchiveFile, t: Text, max: nat)
    ensures var r, lines := Truncated(f, t, max), Lines(t);
      && (|t| <= max ==> r == t)
      && (|t| > max && !IsJsonLines(f) ==> r == MARKER)
      && (|t| > max && IsJsonLines(f) ==>
            |r| <= max && exists k :: 0 <= k <= |lines| && r == Join(lines[..k]) && (k < |lines| ==> |Join(lines[..k + 1])| > max))
  {
    if |t| > max && IsJsonLines(f) {
      var k := FitFrom(Lines(t), max, 0);
      assert Join(Lines(t)[..0]) == "";
      FitFits(Lines(t), max, 0);
      FitIsMost(Lines(t), max, 0);
      assert Truncated(f, t, max) == Join(Lines(t)[..k]);
      hide Truncated, Lines, Join;
    }
  }

  // --- All files ----------------------------------------------------------------------------

  type Files = map<ArchiveFile, Text>

  function TotalSize(names: seq<ArchiveFile>, files: Files): nat
    requires forall n :: n in names ==> n in files
  {
    if names == [] then 0
    else TotalSize(names[..|names| - 1], files) + |files[names[|names| - 1]]|
  }

  /** The least a file can be cut to. */
  function Least(f: ArchiveFile, t: Text): nat {
    if IsJsonLines(f) then 0 else Min(|t|, |MARKER|)
  }

  function Floor(names: seq<ArchiveFile>, files: Files): nat
    requires forall n :: n in names ==> n in files
  {
    if names == [] then 0
    else Floor(names[..|names| - 1], files) + Least(names[|names| - 1], files[names[|names| - 1]])
  }

  ghost predicate Covers(names: seq<ArchiveFile>, files: Files) {
    Distinct(names) && (forall n :: n in names <==> n in files)
  }

  lemma {:induction false} TotalUpdate(names: seq<ArchiveFile>, files: Files, f: ArchiveFile, t: Text)
    requires Distinct(names) && (forall n :: n in names ==> n in files) && f in files
    ensures TotalSize(names, files[f := t]) == TotalSize(names, files) + if f in names then |t| - |files[f]| else 0
  {
    if names == [] {
    } else {
      var n := |names| - 1;
      TotalUpdate(names[..n], files, f, t);
      assert names == names[..n] + [names[n]];
    }
  }

  lemma {:induction false} TotalAbove(names: seq<ArchiveFile>, files: Files, out: Files)
    requires forall n :: n in names ==> n in files && n in out && Least(n, files[n]) <= |out[n]|
    ensures Floor(names, files) <= TotalSize(names, out)
  {
    hide Least;
    if names == [] {
    } else {
      TotalAbove(names[..|names| - 1], files, out);
    }
  }

  lemma {:induction false} TotalBelow(names: seq<ArchiveFile>, files: Files, out: Files)
    requires forall n :: n in names ==> n in files && n in out && |out[n]| <= Least(n, files[n])
    ensures TotalSize(names, out) <= Floor(names, files)
  {
    hide Least;
    if names == [] {
    } else {
      TotalBelow(names[..|names| - 1], files, out);
    }
  }

  lemma CutIsAboveLeast(f: ArchiveFile, orig: Text, cur: Text)
    requires Cut(f, orig, cur)
    ensures Least(f, orig) <= |cur| <= |orig|
    ensures |cur| <= Least(f, cur) ==> |cur| <= Least(f, orig)
  {
    hide LinePrefix;
  }

  /** The first of the largest files that are not stuck. */
  method Largest(names: seq<ArchiveFile>, sizes: map<ArchiveFile, nat>, stuck: set<ArchiveFile>)
    returns (r: Option<ArchiveFile>)
    requires forall n :: n in names ==> n in sizes
    ensures r.None? <==> forall n :: n in names ==> n in stuck
    ensures r.Some? ==> r.value in names && r.value !in stuck
    ensures r.Some? ==> forall n :: n in names && n !in stuck ==> sizes[n] <= sizes[r.value]
  {
    r := None;
    for i := 0 to |names|
      invariant r.None? <==> forall n :: n in names[..i] ==> n in stuck
      invariant r.Some? ==> r.value in names && r.value !in stuck
      invariant r.Some? ==> forall n :: n in names[..i] && n !in stuck ==> sizes[n] <= sizes[r.value]
    {
      PrefixSnoc(names, i);
      var name := names[i];
      if name in stuck {
        continue;
      }
      if r.None? || sizes[name] > sizes[r.value] {
        r := Some(name);
      }
    }
    assert names[..|names|] == names;
  }

  function Sizes(files: Files): map<ArchiveFile, nat> {
    map n | n in files :: |files[n]|
  }

  method SumSizes(names: seq<ArchiveFile>, files: Files) returns (total: nat)
    requires Covers(names, files)
    ensures total == TotalSize(names, files)
  {
    total := 0;
    for i := 0 to |names|
      invariant total == TotalSize(names[..i], files)
    {
      PrefixSnoc(names, i);
      total := total + |files[names[i]]|;
    }
    assert names[..|names|] == names;
  }

  /** A file that was cut is no smaller than one that was not, unless that one could not shrink. */
  ghost predicate LargestFirst(files: Files, truncated: set<ArchiveFile>) {
    forall f, g :: f in truncated && f in files && g in files && g !in truncated ==>
      |files[g]| <= |files[f]| || (!IsJsonLines(g) && |files[g]| <= |MARKER|)
  }

  ghost predicate CutSoFar(files: Files, out: Files, truncated: set<ArchiveFile>, stuck: set<ArchiveFile>) {
    && out.Keys == files.Keys
    && (forall n :: n in files ==> Cut(n, files[n], out[n]))
    && (forall n :: n in truncated <==> n in files && |out[n]| < |files[n]|)
    && (forall n :: n in stuck ==> n in files && |out[n]| <= Least(n, out[n]))
    && LargestFirst(files, truncated)
  }

  lemma StepLargest(files: Files, out: Files, truncated: set<ArchiveFile>, stuck: set<ArchiveFile>, f: ArchiveFile)
    requires CutSoFar(files, out, truncated, stuck)
    requires f in files && 0 < |out[f]|
    requires forall n :: n in files && n !in stuck ==> |out[n]| <= |out[f]|
    ensures LargestFirst(files, truncated + {f})
  {
    hide LinePrefix;
    assert |out[f]| <= |files[f]| by { assert Cut(f, files[f], out[f]); }
    forall g | g in files && g !in truncated + {f}
      ensures |files[g]| <= |files[f]| || (!IsJsonLines(g) && |files[g]| <= |MARKER|)
    {
      assert Cut(g, files[g], out[g]);
    }
  }

  lemma StepCuts(files: Files, out: Files, truncated: set<ArchiveFile>, stuck: set<ArchiveFile>, f: ArchiveFile, next: Text)
    requires CutSoFar(files, out, truncated, stuck)
    requires f in files && f !in stuck && |next| < |out[f]| && Cut(f, files[f], next)
    requires forall n :: n in files && n !in stuck ==> |out[n]| <= |out[f]|
    ensures CutSoFar(files, out[f := next], truncated + {f}, stuck)
  {
    StepLargest(files, out, truncated, stuck, f);
    CutIsAboveLeast(f, files[f], out[f]);
    hide Cut, LargestFirst, Least;
  }

  lemma StepSticks(f: ArchiveFile, t: Text, max: nat)
    requires |t| == 0 || max < |t|
    requires |Truncated(f, t, max)| >= |t|
    ensures |t| <= Least(f, t)
  {
    if IsJsonLines(f) && |t| > max {
      assert Join(Lines(t)[..0]) == "";
      FitFits(Lines(t), max, 0);
    }
  }

  /**
   * The cut of a file was needed: with the other files as in `now`, one more line of it, or the
   * whole of a JSON file, would exceed the budget.
   */
  ghost predicate Needed(names: seq<ArchiveFile>, files: Files, now: Files, f: ArchiveFile, cut: Text, budget: int)
    requires f in files && f in now && forall n :: n in names ==> n in now
  {
    if IsJsonLines(f) then
      var lines := Lines(files[f]);
      exists k :: 0 <= k <= |lines| && cut == Join(lines[..k])
        && (k < |lines| ==> TotalSize(names, now[f := Join(lines[..k + 1])]) > budget)
    else cut == MARKER && TotalSize(names, now[f := files[f]]) > budget
  }

  /**
   * Nothing was cut without need: each cut was needed beside the other files as they were, and one
   * of them beside the others as they are now, so the budget is used up to that file's next line.
   */
  ghost predicate CutsNeeded(names: seq<ArchiveFile>, files: Files, out: Files, truncated: set<ArchiveFile>, budget: int)
    requires out.Keys == files.Keys && forall n :: n in names ==> n in files
  {
    && (forall f :: f in truncated ==> f in files && Needed(names, files, files, f, out[f], budget))
    && (truncated == {} || exists f :: f in truncated && Needed(names, files, out, f, out[f], budget))
  }

  /** While the total is still above the budget, what was cut cannot be cut again. */
  ghost predicate CutDown(names: seq<ArchiveFile>, out: Files, truncated: set<ArchiveFile>, budget: int)
    requires forall n :: n in names ==> n in out
  {
    TotalSize(names, out) > budget ==> forall f :: f in truncated && f in out ==> out[f] == if IsJsonLines(f) then "" else MARKER
  }

  lemma NoCutsYet(names: seq<ArchiveFile>, files: Files, budget: int)
    requires Covers(names, files)
    ensures CutsNeeded(names, files, files, {}, budget) && CutDown(names, files, {}, budget)
  {
  }

  lemma LinesNeeded(names: seq<ArchiveFile>, files: Files, out: Files, f: ArchiveFile, limit: nat, budget: int)
    requires Covers(names, files) && out.Keys == files.Keys && f in files && out[f] == files[f] && TotalSize(names, out) > budget
    requires limit == Max(0, |out[f]| - (TotalSize(names, out) - budget)) && |Truncated(f, out[f], limit)| < |out[f]|
    ensures Needed(names, files, out, f, Truncated(f, out[f], limit), budget)
  {
    var t := files[f];
    hide Lines, TotalSize, Join, Truncated, Max;
    TruncatedIsMost(f, t, limit);
    if IsJsonLines(f) {
      var lines := Lines(t);
      var k :| 0 <= k <= |lines| && Truncated(f, t, limit) == Join(lines[..k]) && (k < |lines| ==> |Join(lines[..k + 1])| > limit);
      if k < |lines| {
        TooMuch(names, out, f, Join(lines[..k + 1]), limit, budget);
      }
    } else {
      TooMuch(names, out, f, t, limit, budget);
    }
  }

  lemma TooMuch(names: seq<ArchiveFile>, out: Files, f: ArchiveFile, t: Text, limit: nat, budget: int)
    requires Distinct(names) && (forall n :: n in names ==> n in out) && f in out && f in names && |t| > limit
    requires limit == Max(0, |out[f]| - (TotalSize(names, out) - budget))
    ensures TotalSize(names, out[f := t]) > budget
  {
    TotalUpdate(names, out, f, t);
    hide TotalSize;
  }

  /** Beside larger files a cut is needed all the more. */
  lemma NeededBeside(names: seq<ArchiveFile>, files: Files, now: Files, more: Files, f: ArchiveFile, cut: Text, budget: int)
    requires f in files && now.Keys == more.Keys && f in now && (forall n :: n in names ==> n in now)
    requires (forall n :: n in now && n != f ==> |now[n]| <= |more[n]|) && Needed(names, files, now, f, cut, budget)
    ensures Needed(names, files, more, f, cut, budget)
  {
    hide TotalSize, Lines, Join;
    if IsJsonLines(f) {
      var lines := Lines(files[f]);
      var k :| 0 <= k <= |lines| && cut == Join(lines[..k]) && (k < |lines| ==> TotalSize(names, now[f := Join(lines[..k + 1])]) > budget);
      if k < |lines| {
        TotalShrinks(names, more[f := Join(lines[..k + 1])], now[f := Join(lines[..k + 1])]);
      }
    } else {
      TotalShrinks(names, more[f := files[f]], now[f := files[f]]);
    }
  }

  lemma CutNeeded(names: seq<ArchiveFile>, files: Files, out: Files, truncated: set<ArchiveFile>, stuck: set<ArchiveFile>,
                  f: ArchiveFile, limit: nat, budget: int)
    requires Covers(names, files) && CutSoFar(files, out, truncated, stuck) && out.Keys == files.Keys && f in files
    requires CutsNeeded(names, files, out, truncated, budget) && CutDown(names, out, truncated, budget) && TotalSize(names, out) > budget
    requires limit == Max(0, |out[f]| - (TotalSize(names, out) - budget)) && |Truncated(f, out[f], limit)| < |out[f]|
    ensures var next := out[f := Truncated(f, out[f], limit)];
      next.Keys == files.Keys && CutsNeeded(names, files, next, truncated + {f}, budget) && CutDown(names, next, truncated + {f}, budget)
  {
    NotCutBefore(names, files, out, truncated, stuck, f, limit, budget);
    var cut := Truncated(f, out[f], limit);
    hide Lines, Join, Needed, LargestFirst;
    LinesNeeded(names, files, out, f, limit, budget);
    SizesShrink(files, out, truncated, stuck);
    hide TotalSize, Cut, CutSoFar, CutDown;
    StillDown(names, out, truncated, f, limit, budget);
    hide Truncated;
    NeededSame(names, files, out, out[f := cut], f, cut, budget);
    NeededBeside(names, files, out, files, f, cut, budget);
    hide CutsNeeded;
    MoreNeeded(names, files, out, truncated, f, cut, budget);
  }

  lemma MoreNeeded(names: seq<ArchiveFile>, files: Files, out: Files, truncated: set<ArchiveFile>, f: ArchiveFile, cut: Text, budget: int)
    requires out.Keys == files.Keys && f in files && f !in truncated && (forall n :: n in names ==> n in files)
    requires CutsNeeded(names, files, out, truncated, budget)
    requires Needed(names, files, files, f, cut, budget) && Needed(names, files, out[f := cut], f, cut, budget)
    ensures out[f := cut].Keys == files.Keys && CutsNeeded(names, files, out[f := cut], truncated + {f}, budget)
  {
    hide Needed;
    var next := out[f := cut];
    forall g | g in truncated + {f} ensures g in files && Needed(names, files, files, g, next[g], budget) {
      assert g == f || (g in truncated && next[g] == out[g]);
    }
    assert f in truncated + {f} && Needed(names, files, next, f, next[f], budget);
  }

  lemma StillDown(names: seq<ArchiveFile>, out: Files, truncated: set<ArchiveFile>, f: ArchiveFile, limit: nat, budget: int)
    requires Distinct(names) && (forall n :: n in names ==> n in out) && f in names && f in out
    requires CutDown(names, out, truncated, budget) && TotalSize(names, out) > budget
    requires limit == Max(0, |out[f]| - (TotalSize(names, out) - budget)) && |Truncated(f, out[f], limit)| < |out[f]|
    ensures CutDown(names, out[f := Truncated(f, out[f], limit)], truncated + {f}, budget)
  {
    TruncatedIsMost(f, out[f], limit);
    TotalUpdate(names, out, f, Truncated(f, out[f], limit));
    hide TotalSize, Lines, Join, Truncated;
  }

  lemma NeededSame(names: seq<ArchiveFile>, files: Files, out: Files, next: Files, f: ArchiveFile, cut: Text, budget: int)
    requires f in files && f in out && (forall n :: n in names ==> n in out) && next == out[f := cut]
    requires Needed(names, files, out, f, cut, budget)
    ensures Needed(names, files, next, f, cut, budget)
  {
    hide TotalSize, Lines, Join;
    if IsJsonLines(f) {
      var lines := Lines(files[f]);
      var k :| 0 <= k <= |lines| && cut == Join(lines[..k]) && (k < |lines| ==> TotalSize(names, out[f := Join(lines[..k + 1])]) > budget);
      assert k < |lines| ==> next[f := Join(lines[..k + 1])] == out[f := Join(lines[..k + 1])];
    } else {
      assert next[f := files[f]] == out[f := files[f]];
    }
  }

  lemma SizesShrink(files: Files, out: Files, truncated: set<ArchiveFile>, stuck: set<ArchiveFile>)
    requires CutSoFar(files, out, truncated, stuck)
    ensures forall n :: n in files ==> n in out && |out[n]| <= |files[n]|
  {
    forall n | n in files ensures |out[n]| <= |files[n]| {
      CutIsAboveLeast(n, files[n], out[n]);
    }
    hide Cut;
  }

  lemma NotCutBefore(names: seq<ArchiveFile>, files: Files, out: Files, truncated: set<ArchiveFile>, stuck: set<ArchiveFile>,
                     f: ArchiveFile, limit: nat, budget: int)
    requires Covers(names, files) && CutSoFar(files, out, truncated, stuck) && f in files && f in out
    requires CutDown(names, out, truncated, budget) && TotalSize(names, out) > budget && |Truncated(f, out[f], limit)| < |out[f]|
    ensures f !in truncated && out[f] == files[f]
  {
    TruncatedIsMost(f, out[f], limit);
    hide TotalSize, Lines, Join, Truncated, LinePrefix;
    assert Cut(f, files[f], out[f]);
  }

  method FitToBudget(names: seq<ArchiveFile>, files: Files, budget: int)
    returns (out: Files, truncated: set<ArchiveFile>)
    requires Covers(names, files)
    ensures out.Keys == files.Keys
    ensures TotalSize(names, out) <= budget <==> Floor(names, files) <= budget
    ensures forall n :: n in files ==> Cut(n, files[n], out[n])
    ensures forall n :: n in truncated <==> n in files && |out[n]| < |files[n]|
    ensures forall n :: n in files && n !in truncated ==> out[n] == files[n]
    ensures LargestFirst(files, truncated)
    ensures TotalSize(names, files) <= budget ==> out == files
    ensures CutsNeeded(names, files, out, truncated, budget)
  {
    hide *;
    out := files;
    truncated := {};
    var sizes := Sizes(files);
    var total := SumSizes(names, files);
    var stuck: set<ArchiveFile> := {};
    NothingCut(files);
    NoCutsYet(names, files, budget);
    Named(names, files, files);
    while total > budget
      invariant CutSoFar(files, out, truncated, stuck)
      invariant out.Keys == files.Keys && sizes == Sizes(out)
      invariant total == TotalSize(names, out)
      invariant CutsNeeded(names, files, out, truncated, budget) && CutDown(names, out, truncated, budget)
      invariant TotalSize(names, files) <= budget ==> out == files
      decreases |files.Keys - stuck|, total
    {
      Named(names, files, out);
      var found := Largest(names, sizes, stuck);
      if found.None? {
        break;
      }
      var f := found.value;
      var size := sizes[f];
      var limit := Max(0, size - (total - budget));
      LimitIsLess(size, total - budget);
      var next := TruncateText(f, out[f], limit);
      if |next| >= size {
        Sticks(files, out, truncated, stuck, f, limit);
        stuck := stuck + {f};
        continue;
      }
      Shrinks(names, files, out, truncated, stuck, f, limit);
      CutNeeded(names, files, out, truncated, stuck, f, limit, budget);
      out := out[f := next];
      sizes := sizes[f := |next|];
      truncated := truncated + {f};
      total := total - (size - |next|);
    }
    Outcome(names, files, out, truncated, stuck, budget);
  }

  /** Names, files and sizes speak of the same files. */
  lemma Named(names: seq<ArchiveFile>, files: Files, out: Files)
    requires Covers(names, files) && out.Keys == files.Keys
    ensures Sizes(out).Keys == files.Keys
    ensures forall n :: n in files ==> Sizes(out)[n] == |out[n]|
    ensures forall n :: n in names <==> n in files
  {
  }

  /** A file that a cut cannot shrink is set aside. */
  lemma Sticks(files: Files, out: Files, truncated: set<ArchiveFile>, stuck: set<ArchiveFile>, f: ArchiveFile, limit: nat)
    requires CutSoFar(files, out, truncated, stuck) && f in files && f in out && f !in stuck
    requires |out[f]| == 0 || limit < |out[f]|
    requires |Truncated(f, out[f], limit)| >= |out[f]|
    ensures CutSoFar(files, out, truncated, stuck + {f})
    ensures |files.Keys - (stuck + {f})| < |files.Keys - stuck|
  {
    StepSticks(f, out[f], limit);
    assert files.Keys - (stuck + {f}) == files.Keys - stuck - {f};
    hide Truncated, Cut, Least, LargestFirst;
  }

  /** A file that a cut shrinks: the sizes, the total and what has been cut so far. */
  lemma Shrinks(names: seq<ArchiveFile>, files: Files, out: Files, truncated: set<ArchiveFile>, stuck: set<ArchiveFile>,
                f: ArchiveFile, limit: nat)
    requires CutSoFar(files, out, truncated, stuck) && Covers(names, files) && out.Keys == files.Keys
    requires f in files && f !in stuck && |Truncated(f, out[f], limit)| < |out[f]|
    requires forall n :: n in files && n !in stuck ==> |out[n]| <= |out[f]|
    ensures var next := Truncated(f, out[f], limit);
      && CutSoFar(files, out[f := next], truncated + {f}, stuck)
      && Sizes(out[f := next]) == Sizes(out)[f := |next|]
      && (forall n :: n in names ==> n in files)
      && TotalSize(names, out[f := next]) == TotalSize(names, out) - |out[f]| + |next|
      && TotalSize(names, out) <= TotalSize(names, files)
  {
    hide *;
    var next := Truncated(f, out[f], limit);
    Named(names, files, out);
    CutOf(files, out, truncated, stuck, f);
    TruncatedIsCut(f, files[f], out[f], limit);
    StepCuts(files, out, truncated, stuck, f, next);
    CutTotals(names, files, out, truncated, stuck, f, next);
  }

  lemma CutOf(files: Files, out: Files, truncated: set<ArchiveFile>, stuck: set<ArchiveFile>, f: ArchiveFile)
    requires CutSoFar(files, out, truncated, stuck) && f in files
    ensures f in out && Cut(f, files[f], out[f])
  {
  }

  lemma CutTotals(names: seq<ArchiveFile>, files: Files, out: Files, truncated: set<ArchiveFile>, stuck: set<ArchiveFile>,
                  f: ArchiveFile, next: Text)
    requires CutSoFar(files, out, truncated, stuck) && Covers(names, files) && out.Keys == files.Keys && f in files
    ensures TotalSize(names, out[f := next]) == TotalSize(names, out) - |out[f]| + |next|
    ensures TotalSize(names, out) <= TotalSize(names, files)
    ensures Sizes(out[f := next]) == Sizes(out)[f := |next|]
  {
    TotalUpdate(names, out, f, next);
    CutShrinks(names, files, out, truncated, stuck);
  }

  lemma LimitIsLess(size: nat, over: int)
    requires over > 0
    ensures size == 0 || Max(0, size - over) < size
    ensures Max(0, size - over) >= 0
  {
  }

  lemma NothingCut(files: Files)
    ensures CutSoFar(files, files, {}, {})
  {
  }

  lemma CutShrinks(names: seq<ArchiveFile>, files: Files, out: Files, truncated: set<ArchiveFile>, stuck: set<ArchiveFile>)
    requires CutSoFar(files, out, truncated, stuck) && Covers(names, files)
    ensures TotalSize(names, out) <= TotalSize(names, files)
  {
    forall n | n in names ensures |out[n]| <= |files[n]| {
      CutIsAboveLeast(n, files[n], out[n]);
    }
    TotalShrinks(names, files, out);
  }

  /** When the loop ends, the total fits or nothing can shrink any more. */
  lemma Outcome(names: seq<ArchiveFile>, files: Files, out: Files, truncated: set<ArchiveFile>, stuck: set<ArchiveFile>, budget: int)
    requires CutSoFar(files, out, truncated, stuck) && Covers(names, files)
    requires TotalSize(names, out) <= budget || forall n :: n in names ==> n in stuck
    ensures TotalSize(names, out) <= budget <==> Floor(names, files) <= budget
    ensures forall n :: n in files ==> Cut(n, files[n], out[n])
    ensures forall n :: n in truncated <==> n in files && |out[n]| < |files[n]|
    ensures forall n :: n in files && n !in truncated ==> out[n] == files[n]
    ensures LargestFirst(files, truncated)
  {
    forall n | n in names ensures Least(n, files[n]) <= |out[n]| && (n in stuck ==> |out[n]| <= Least(n, files[n])) {
      CutIsAboveLeast(n, files[n], out[n]);
    }
    TotalAbove(names, files, out);
    if forall n :: n in names ==> n in stuck {
      TotalBelow(names, files, out);
    }
  }

  lemma {:induction false} TotalShrinks(names: seq<ArchiveFile>, files: Files, out: Files)
    requires forall n :: n in names ==> n in files && n in out && |out[n]| <= |files[n]|
    ensures TotalSize(names, out) <= TotalSize(names, files)
  {
    if names == [] {
    } else {
      TotalShrinks(names[..|names| - 1], files, out);
    }
  }

  /** In particular the archive fits whenever the budget has room for one marker per JSON file. */
  lemma {:induction false} FloorBound(names: seq<ArchiveFile>, files: Files)
    requires forall n :: n in names ==> n in files
    ensures Floor(names, files) <= |MARKER| * JsonFiles(names)
    ensures |MARKER| == 18
  {
    if names == [] {
    } else {
      FloorBound(names[..|names| - 1], files);
    }
  }

  function JsonFiles(names: seq<ArchiveFile>): nat {
    if names == [] then 0 else JsonFiles(names[..|names| - 1]) + if IsJsonLines(names[|names| - 1]) then 0 else 1
  }
}
