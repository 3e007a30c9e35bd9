/**
 * Texts of an archive (archive_saga.ts): staging parts, their assembly into files, record
 * counts, and the cut to a byte budget. A text is its UTF-8 bytes, one character per byte.
 */
module ArchiveText {
  import opened Common

  type Text = string

  datatype ArchiveFile = Ontology | Imports | Objects | Links | Audit | Situation | Decisions

  function Name(f: ArchiveFile): Text {
    match f
    case Ontology => "ontology.json"
    case Imports => "imports.json"
    case Objects => "objects.jsonl"
    case Links => "links.jsonl"
    case Audit => "audit.jsonl"
    case Situation => "situation.json"
    case Decisions => "decisions.json"
  }

  predicate IsJsonLines(f: ArchiveFile) {
    f == Objects || f == Links || f == Audit
  }

  const MARKER := "{\"truncated\":true}"

  const TRUNCATED_MARK := "\ttruncated"

  // --- Lines ------------------------------------------------------------------------------

  /** The text before the first newline. */
  function Head(t: Text): Text {
    if t == "" || t[0] == '\n' then "" else [t[0]] + Head(t[1..])
  }

  /** `split('\n')`: the pieces between newlines, at least one. */
  function Split(t: Text): (r: seq<Text>)
    ensures r != []
  {
    if t == "" then [""]
    else if t[0] == '\n' then [""] + Split(t[1..])
    else
      var rest := Split(t[1..]);
      [[t[0]] + rest[0]] + rest[1..]
  }

  function NonEmpty(lines: seq<Text>): seq<Text> {
    if lines == [] then []
    else NonEmpty(lines[..|lines| - 1]) + if lines[|lines| - 1] == "" then [] else [lines[|lines| - 1]]
  }

  function Lines(t: Text): seq<Text> {
    NonEmpty(Split(t))
  }

  /** Each line with its newline. */
  function Join(lines: seq<Text>): Text {
    if lines == [] then "" else Join(lines[..|lines| - 1]) + lines[|lines| - 1] + "\n"
  }

  ghost predicate IsLine(l: Text) {
    l != "" && '\n' !in l
  }

  lemma {:induction false} SplitLine(l: Text)
    requires '\n' !in l
    ensures Split(l) == [l]
  {
    if l == "" {
    } else {
      SplitLine(l[1..]);
      assert [l[0]] + l[1..] == l;
      assert Split(l[1..])[1..] == [];
    }
  }

  lemma {:induction false} SplitAppend(a: Text, b: Text)
    ensures Split(a + "\n" + b) == Split(a) + Split(b)
  {
    hide Split;
    var t := a + "\n" + b;
    if a == "" {
      assert t[1..] == b;
      EmptyText();
      SplitNewline(t);
    } else {
      SplitAppend(a[1..], b);
      assert t[1..] == a[1..] + "\n" + b;
      var ra, rb := Split(a[1..]), Split(b);
      assert (ra + rb)[0] == ra[0] && (ra + rb)[1..] == ra[1..] + rb;
      if a[0] == '\n' {
        SplitNewline(t);
        SplitNewline(a);
        assert [""] + (ra + rb) == ([""] + ra) + rb;
      } else {
        SplitOther(t);
        SplitOther(a);
        assert [[a[0]] + ra[0]] + (ra[1..] + rb) == ([[a[0]] + ra[0]] + ra[1..]) + rb;
      }
    }
  }

  lemma SplitNewline(t: Text)
    requires t != "" && t[0] == '\n'
    ensures Split(t) == [""] + Split(t[1..])
  {
  }

  lemma SplitOther(t: Text)
    requires t != "" && t[0] != '\n'
    ensures Split(t) == [[t[0]] + Split(t[1..])[0]] + Split(t[1..])[1..]
  {
  }

  lemma {:induction false} NonEmptyAppend(a: seq<Text>, b: seq<Text>)
    ensures NonEmpty(a + b) == NonEmpty(a) + NonEmpty(b)
  {
    if b == [] {
      assert a + b == a;
    } else {
      NonEmptyAppend(a, b[..|b| - 1]);
      assert (a + b)[..|a + b| - 1] == a + b[..|b| - 1];
    }
  }

  /** The lines of joined lines are those lines. */
  lemma {:induction false} LinesOfJoin(lines: seq<Text>)
    requires forall i :: 0 <= i < |lines| ==> IsLine(lines[i])
    ensures Lines(Join(lines)) == lines
  {
    if lines == [] {
      assert Split("") == [""];
      assert NonEmpty([""]) == [] by { assert [""][..0] == []; }
    } else {
      var n := |lines| - 1;
      LinesOfJoin(lines[..n]);
      LinesSnoc(Join(lines[..n]), lines[n]);
      assert Lines(Join(lines[..n])) + [lines[n]] == lines;
    }
  }

  lemma EmptyText()
    ensures Split("") == [""] && NonEmpty([""]) == []
  {
    assert [""][..0] == [];
  }

  /** A text that ends with a newline has an empty last piece. */
  lemma SplitEnding(u: Text, l: Text)
    ensures Split(u + "\n") == Split(u) + [""]
    ensures Split(u + "\n" + l) == Split(u) + Split(l)
  {
    hide Split;
    EmptyText();
    SplitAppend(u, "");
    SplitAppend(u, l);
    assert u + "\n" + "" == u + "\n";
  }

  lemma LinesEnding(u: Text, l: Text)
    requires IsLine(l)
    ensures Lines(u + "\n") == NonEmpty(Split(u))
    ensures Lines(u + "\n" + l) == NonEmpty(Split(u)) + [l]
  {
    SplitEnding(u, l);
    SplitLine(l);
    EmptyText();
    hide Split;
    NonEmptyAppend(Split(u), [""]);
    NonEmptyAppend(Split(u), [l]);
    assert NonEmpty([l]) == [l] by { assert [l][..0] == []; }
  }

  /** Appending a line and a newline to a text that ends with one, or is empty. */
  lemma LinesSnoc(t: Text, l: Text)
    requires IsLine(l) && (t == "" || t[|t| - 1] == '\n')
    ensures Lines(t + l + "\n") == Lines(t) + [l]
  {
    LinesEnding(t + l, l);
    if t == "" {
      SplitLine(l);
      EmptyText();
      assert NonEmpty([l]) == [l] by { assert [l][..0] == []; }
      assert t + l == l;
    } else {
      var u := t[..|t| - 1];
      assert t == u + "\n";
      hide Split, NonEmpty;
      LinesEnding(u, l);
    }
  }

  lemma {:induction false} SplitPieces(t: Text)
    ensures forall i :: 0 <= i < |Split(t)| ==> '\n' !in Split(t)[i]
  {
    if t == "" {
    } else {
      SplitPieces(t[1..]);
    }
  }

  lemma {:induction false} NonEmptyPieces(lines: seq<Text>)
    requires forall i :: 0 <= i < |lines| ==> '\n' !in lines[i]
    ensures forall i :: 0 <= i < |NonEmpty(lines)| ==> IsLine(NonEmpty(lines)[i])
  {
    if lines == [] {
    } else {
      NonEmptyPieces(lines[..|lines| - 1]);
    }
  }

  lemma LinesAreLines(t: Text)
    ensures forall i :: 0 <= i < |Lines(t)| ==> IsLine(Lines(t)[i])
  {
    SplitPieces(t);
    NonEmptyPieces(Split(t));
  }

  // --- Staging parts -----------------------------------------------------------------------

  datatype StagedPart = StagedPart(file: Text, text: Text, truncated: bool)

  function EncodePart(f: ArchiveFile, text: Text, truncated: bool): Text {
    Name(f) + (if truncated then TRUNCATED_MARK else "") + "\n" + text
  }

  predicate EndsWith(t: Text, suffix: Text) {
    |t| >= |suffix| && t[|t| - |suffix|..] == suffix
  }

  function DecodePart(part: Text): StagedPart {
    var head := Head(part);
    var text := if |head| < |part| then part[|head| + 1..] else "";
    if EndsWith(head, TRUNCATED_MARK) then StagedPart(head[..|head| - |TRUNCATED_MARK|], text, true)
    else StagedPart(head, text, false)
  }

  lemma {:induction false} HeadOf(h: Text, rest: Text)
    requires '\n' !in h
    ensures Head(h + "\n" + rest) == h
  {
    var t := h + "\n" + rest;
    if h == "" {
      assert t[0] == '\n';
    } else {
      HeadOf(h[1..], rest);
      assert t[1..] == h[1..] + "\n" + rest;
    }
  }

  lemma NameIsPlain(f: ArchiveFile)
    ensures '\n' !in Name(f) && Name(f) != "" && Name(f)[|Name(f)| - 1] != 'd'
  {
  }

  lemma OtherEnding(t: Text, suffix: Text)
    requires t != "" && suffix != "" && t[|t| - 1] != suffix[|suffix| - 1]
    ensures !EndsWith(t, suffix)
  {
    if |t| >= |suffix| {
      assert t[|t| - |suffix|..][|suffix| - 1] == t[|t| - 1];
    }
  }

  /** A staged part reads back as it was written, whatever bytes the text holds. */
  lemma PartRoundTrip(f: ArchiveFile, text: Text, truncated: bool)
    ensures DecodePart(EncodePart(f, text, truncated)) == StagedPart(Name(f), text, truncated)
  {
    NameIsPlain(f);
    hide Name;
    var head := Name(f) + if truncated then TRUNCATED_MARK else "";
    var part := EncodePart(f, text, truncated);
    assert part == head + "\n" + text;
    assert '\n' !in head;
    HeadOf(head, text);
    assert part[|head| + 1..] == text;
    if truncated {
      assert head[|head| - |TRUNCATED_MARK|..] == TRUNCATED_MARK;
      assert head[..|head| - |TRUNCATED_MARK|] == Name(f);
    } else {
      assert head == Name(f);
      OtherEnding(head, TRUNCATED_MARK);
    }
  }

  lemma NameInjective(f: ArchiveFile, g: ArchiveFile)
    ensures Name(f) == Name(g) <==> f == g
  {
    assert f != g ==> Name(f)[..2] != Name(g)[..2] by {
      assert Name(f)[..2] == [Name(f)[0], Name(f)[1]] && Name(g)[..2] == [Name(g)[0], Name(g)[1]];
    }
  }

  // --- Assembly --------------------------------------------------------------------------------

  datatype Part = Part(file: ArchiveFile, text: Text)

  function Extend(out: map<ArchiveFile, Text>, p: Part): map<ArchiveFile, Text> {
    if p.file !in out || !IsJsonLines(p.file) then out[p.file := p.text]
    else if p.text == "" then out
    else
      var prev := out[p.file];
      out[p.file := prev + (if prev == "" || prev[|prev| - 1] == '\n' then "" else "\n") + p.text]
  }

  function Assembled(parts: seq<Part>): map<ArchiveFile, Text> {
    if parts == [] then map[] else Extend(Assembled(parts[..|parts| - 1]), parts[|parts| - 1])
  }

  method AssembleFiles(parts: seq<Part>) returns (out: map<ArchiveFile, Text>)
    ensures out == Assembled(parts)
  {
    out := map[];
    for i := 0 to |parts|
      invariant out == Assembled(parts[..i])
    {
      PrefixSnoc(parts, i);
      var p := parts[i];
      if p.file !in out || !IsJsonLines(p.file) {
        out := out[p.file := p.text];
        continue;
      }
      if p.text == "" {
        continue;
      }
      var prev := out[p.file];
      var sep := if prev == "" || prev[|prev| - 1] == '\n' then "" else "\n";
      out := out[p.file := prev + sep + p.text];
    }
    assert parts[..|parts|] == parts;
  }

  /** A page of whole lines. */
  ghost predicate WholeLines(t: Text) {
    t == "" || t[|t| - 1] == '\n'
  }

  /** The texts of the parts of one file, in order. */
  function TextOf(parts: seq<Part>, f: ArchiveFile): Text {
    if parts == [] then ""
    else TextOf(parts[..|parts| - 1], f) + if parts[|parts| - 1].file == f then parts[|parts| - 1].text else ""
  }

  predicate Mentions(parts: seq<Part>, f: ArchiveFile) {
    exists i :: 0 <= i < |parts| && parts[i].file == f
  }

  /** One page: other files stay, and its own file grows by exactly its text. */
  lemma ExtendAt(out: map<ArchiveFile, Text>, p: Part, f: ArchiveFile)
    requires IsJsonLines(f) && (f in out ==> WholeLines(out[f]))
    ensures var r := Extend(out, p);
      if p.file == f then f in r && r[f] == (if f in out then out[f] else "") + p.text
      else (f in r <==> f in out) && (f in out ==> r[f] == out[f])
  {
    if p.file == f && f in out {
      assert out[f] + "" + p.text == out[f] + p.text;
      assert p.text == "" ==> out[f] + p.text == out[f];
    } else {
      assert "" + p.text == p.text;
    }
  }

  lemma MentionsSnoc(parts: seq<Part>, p: Part, f: ArchiveFile)
    ensures Mentions(parts + [p], f) <==> Mentions(parts, f) || p.file == f
  {
    var all := parts + [p];
    assert all[|parts|] == p;
    if i :| 0 <= i < |parts| && parts[i].file == f {
      assert all[i].file == f;
    }
  }

  /** Whole-line pages assemble to their concatenation, in order, nothing added or lost. */
  lemma {:induction false} AssembledIsConcatenation(parts: seq<Part>, f: ArchiveFile)
    requires IsJsonLines(f)
    requires forall i :: 0 <= i < |parts| && parts[i].file == f ==> WholeLines(parts[i].text)
    ensures f in Assembled(parts) <==> Mentions(parts, f)
    ensures f in Assembled(parts) ==> Assembled(parts)[f] == TextOf(parts, f)
    ensures WholeLines(TextOf(parts, f))
    ensures !Mentions(parts, f) ==> TextOf(parts, f) == ""
  {
    if parts == [] {
    } else {
      var n := |parts| - 1;
      AssembledIsConcatenation(parts[..n], f);
      assert parts == parts[..n] + [parts[n]];
      MentionsSnoc(parts[..n], parts[n], f);
      hide Mentions, Extend;
      ExtendAt(Assembled(parts[..n]), parts[n], f);
      if parts[n].file != f {
        assert TextOf(parts[..n], f) + "" == TextOf(parts[..n], f);
      }
    }
  }

  /** The lines of the pages of a file, page after page. */
  function LinesOfPages(parts: seq<Part>, f: ArchiveFile): seq<Text> {
    if parts == [] then []
    else LinesOfPages(parts[..|parts| - 1], f) + if parts[|parts| - 1].file == f then Lines(parts[|parts| - 1].text) else []
  }

  lemma LinesAcross(a: Text, b: Text)
    ensures Lines(a + "\n" + b) == Lines(a) + Lines(b)
    ensures a == "" || a[|a| - 1] == '\n' ==> Lines(a + b) == Lines(a) + Lines(b)
  {
    hide Split, NonEmpty;
    SplitAppend(a, b);
    NonEmptyAppend(Split(a), Split(b));
    EmptyText();
    if a == "" {
      assert a + b == b && [] + Lines(b) == Lines(b);
    } else if a[|a| - 1] == '\n' {
      var u := a[..|a| - 1];
      assert a == u + "\n" && a + b == u + "\n" + b;
      SplitEnding(u, "");
      SplitAppend(u, b);
      NonEmptyAppend(Split(u), [""]);
      NonEmptyAppend(Split(u), Split(b));
      assert NonEmpty(Split(u)) + [] == NonEmpty(Split(u));
    }
  }

  /** Whether or not pages end with a newline, an assembled JSON Lines file has the lines of its pages in order. */
  lemma {:induction false} AssembledLines(parts: seq<Part>, f: ArchiveFile)
    requires IsJsonLines(f) && f in Assembled(parts)
    ensures Lines(Assembled(parts)[f]) == LinesOfPages(parts, f)
  {
    var n := |parts| - 1;
    var out, p := Assembled(parts[..n]), parts[n];
    assert Assembled(parts) == Extend(out, p);
    PagesStep(parts, f);
    assert p.file != f ==> (f in Extend(out, p) <==> f in out) && (f in out ==> Extend(out, p)[f] == out[f]);
    assert p.file == f && f !in out ==> Extend(out, p)[f] == p.text;
    hide *;
    if f in out {
      AssembledLines(parts[..n], f);
      if p.file == f {
        LinesExtended(out, p);
      }
    } else {
      NoPages(parts[..n], f);
    }
  }

  lemma PagesStep(parts: seq<Part>, f: ArchiveFile)
    requires parts != []
    ensures var front, p := LinesOfPages(parts[..|parts| - 1], f), parts[|parts| - 1];
      && (p.file == f ==> LinesOfPages(parts, f) == front + Lines(p.text) && (front == [] ==> LinesOfPages(parts, f) == Lines(p.text)))
      && (p.file != f ==> LinesOfPages(parts, f) == front)
  {
    hide Lines;
    var front := LinesOfPages(parts[..|parts| - 1], f);
    assert front + [] == front;
  }

  lemma LinesExtended(out: map<ArchiveFile, Text>, p: Part)
    requires p.file in out && IsJsonLines(p.file)
    ensures p.file in Extend(out, p) && Lines(Extend(out, p)[p.file]) == Lines(out[p.file]) + Lines(p.text)
  {
    hide Lines;
    LinesAcross(out[p.file], p.text);
    LinesOfNothing();
    assert out[p.file] + "" + p.text == out[p.file] + p.text;
  }

  lemma LinesOfNothing()
    ensures Lines("") == []
  {
    EmptyText();
  }

  lemma {:induction false} NoPages(parts: seq<Part>, f: ArchiveFile)
    requires f !in Assembled(parts)
    ensures LinesOfPages(parts, f) == []
  {
    if parts != [] {
      NoPages(parts[..|parts| - 1], f);
    }
  }

  /** A file of another kind is the text of its last page. */
  lemma {:induction false} AssembledJson(parts: seq<Part>, i: nat)
    requires i < |parts| && !IsJsonLines(parts[i].file) && forall k :: i < k < |parts| ==> parts[k].file != parts[i].file
    ensures parts[i].file in Assembled(parts) && Assembled(parts)[parts[i].file] == parts[i].text
  {
    var n := |parts| - 1;
    if i < n {
      assert parts[n].file != parts[i].file;
      AssembledJson(parts[..n], i);
    }
  }

  // --- Record counts --------------------------------------------------------------------------------

  predicate IsBlankChar(c: char) {
    c == ' ' || c == '\t' || c == '\r' || c == '\n'
  }

  predicate IsBlank(l: Text) {
    forall i :: 0 <= i < |l| ==> IsBlankChar(l[i])
  }

  function CountNonBlank(lines: seq<Text>): nat {
    if lines == [] then 0
    else CountNonBlank(lines[..|lines| - 1]) + if IsBlank(lines[|lines| - 1]) then 0 else 1
  }

  /** Records of a JSON Lines file. */
  function CountRecords(t: Text): nat {
    CountNonBlank(Split(t))
  }

  /** A line that holds anything but spaces, tabs and line ends. */
  ghost predicate Holds(l: Text) {
    exists c :: c in l && c !in " \t\r\n"
  }

  ghost function FilledLines(lines: seq<Text>): set<nat> {
    set i: nat | i < |lines| && Holds(lines[i])
  }

  /** The record count is the number of such lines. */
  lemma {:induction false} CountByLine(lines: seq<Text>)
    ensures CountNonBlank(lines) == |FilledLines(lines)|
  {
    hide IsBlank, Holds;
    if lines != [] {
      var n: nat := |lines| - 1;
      CountByLine(lines[..n]);
      BlankExactly(lines[n]);
      OneMoreFilled(lines);
      hide FilledLines;
    }
  }

  lemma OneMoreFilled(lines: seq<Text>)
    requires lines != []
    ensures var n := |lines| - 1;
      |FilledLines(lines)| == |FilledLines(lines[..n])| + if Holds(lines[n]) then 1 else 0
  {
    hide Holds;
    var n: nat := |lines| - 1;
    var front := FilledLines(lines[..n]);
    assert forall i :: 0 <= i < n ==> lines[..n][i] == lines[i];
    assert FilledLines(lines) == if Holds(lines[n]) then front + {n} else front;
  }

  lemma BlankExactly(l: Text)
    ensures IsBlank(l) <==> !Holds(l)
  {
    assert " \t\r\n" == [' ', '\t', '\r', '\n'];
    if IsBlank(l) {
      forall c | c in l ensures c in " \t\r\n" {
        var i :| 0 <= i < |l| && l[i] == c;
        assert IsBlankChar(l[i]);
      }
    } else {
      var i :| 0 <= i < |l| && !IsBlankChar(l[i]);
      assert l[i] in l;
    }
  }

  lemma {:induction false} CountAppend(a: seq<Text>, b: seq<Text>)
    ensures CountNonBlank(a + b) == CountNonBlank(a) + CountNonBlank(b)
  {
    if b == [] {
      assert a + b == a;
    } else {
      CountAppend(a, b[..|b| - 1]);
      assert (a + b)[..|a + b| - 1] == a + b[..|b| - 1];
    }
  }

  /** Counting a file that was staged in two whole-line pieces is counting the pieces. */
  lemma CountIsAdditive(a: Text, b: Text)
    requires WholeLines(a)
    ensures CountRecords(a + b) == CountRecords(a) + CountRecords(b)
  {
    assert Split("") == [""];
    assert CountNonBlank([""]) == 0 by { assert [""][..0] == []; }
    if a == "" {
      assert a + b == b;
    } else {
      var u := a[..|a| - 1];
      assert a == u + "\n" + "" && a + b == u + "\n" + b;
      SplitAppend(u, "");
      SplitAppend(u, b);
      CountAppend(Split(u), [""]);
      CountAppend(Split(u), Split(b));
    }
  }

  /** The record count of an assembled file is the sum over its parts. */
  lemma {:induction false} CountOfParts(parts: seq<Part>, f: ArchiveFile)
    requires IsJsonLines(f)
    requires forall i :: 0 <= i < |parts| && parts[i].file == f ==> WholeLines(parts[i].text)
    ensures CountRecords(TextOf(parts, f)) == SumOfCounts(parts, f)
  {
    if parts == [] {
      assert Split("") == [""];
      assert CountNonBlank([""]) == 0 by { assert [""][..0] == []; }
    } else {
      var n := |parts| - 1;
      CountOfParts(parts[..n], f);
      AssembledIsConcatenation(parts[..n], f);
      if parts[n].file == f {
        CountIsAdditive(TextOf(parts[..n], f), parts[n].text);
      } else {
        assert TextOf(parts[..n], f) + "" == TextOf(parts[..n], f);
      }
    }
  }

  function SumOfCounts(parts: seq<Part>, f: ArchiveFile): nat {
    if parts == [] then 0
    else
      SumOfCounts(parts[..|parts| - 1], f) + if parts[|parts| - 1].file == f then CountRecords(parts[|parts| - 1].text) else 0
  }

  /** Lines that hold something count one each. */
  lemma {:induction false} CountOfJoin(lines: seq<Text>)
    requires forall i :: 0 <= i < |lines| ==> IsLine(lines[i]) && !IsBlank(lines[i])
    ensures CountRecords(Join(lines)) == |lines|
  {
    assert Split("") == [""];
    assert CountNonBlank([""]) == 0 by { assert [""][..0] == []; }
    if lines == [] {
    } else {
      var n := |lines| - 1;
      CountOfJoin(lines[..n]);
      var t, l := Join(lines[..n]), lines[n];
      assert t + l + "\n" == t + (l + "\n");
      CountIsAdditive(t, l + "\n");
      assert l + "\n" == l + "\n" + "";
      SplitAppend(l, "");
      SplitLine(l);
      CountAppend([l], [""]);
      assert CountNonBlank([l]) == 1 by { assert [l][..0] == []; }
    }
  }
}
