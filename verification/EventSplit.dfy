/**
 * Splitting a large domain event into messages (domain_events.ts): consecutive runs of its
 * changes under numbered ids, each within the byte limit or a single change.
 */
module EventSplit {
  import opened Common

  /** A change as its JSON text, one character per byte. */
  datatype Change = Change(rid: string, json: string)

  /** An event: its id, the JSON of everything else but the changes, and the changes. */
  datatype Msg = Msg(id: string, rest: string, changes: seq<Change>)

  function Total(cs: seq<Change>): nat {
    if cs == [] then 0 else Total(cs[..|cs| - 1]) + |cs[|cs| - 1].json|
  }

  /** Bytes of a JSON list without its brackets: the items and the commas between them. */
  function ListBytes(cs: seq<Change>): nat {
    Total(cs) + if cs == [] then 0 else |cs| - 1
  }

  function JsonBytes(m: Msg): nat {
    |m.id| + |m.rest| + ListBytes(m.changes)
  }

  // --- Part numbers -------------------------------------------------------------------------

  const DIGITS := "0123456789"

  function Decimal(n: nat): (s: string)
    ensures s != "" && forall i :: 0 <= i < |s| ==> s[i] in DIGITS
  {
    if n < 10 then [DIGITS[n]] else Decimal(n / 10) + [DIGITS[n % 10]]
  }

  lemma {:induction false} DecimalInjective(m: nat, n: nat)
    requires Decimal(m) == Decimal(n)
    ensures m == n
  {
    var s, t := Decimal(m), Decimal(n);
    assert s[|s| - 1] == DIGITS[m % 10] && t[|t| - 1] == DIGITS[n % 10];
    if m >= 10 && n >= 10 {
      assert s[..|s| - 1] == Decimal(m / 10) && t[..|t| - 1] == Decimal(n / 10);
      DecimalInjective(m / 10, n / 10);
    } else {
      LongerThanOne(m);
      LongerThanOne(n);
    }
  }

  /** The number that digits stand for. */
  function Number(digits: string): nat
    requires forall i :: 0 <= i < |digits| ==> '0' <= digits[i] <= '9'
  {
    if digits == "" then 0
    else 10 * Number(digits[..|digits| - 1]) + (digits[|digits| - 1] as int - '0' as int)
  }

  lemma {:induction false} DecimalReads(n: nat)
    ensures (forall i :: 0 <= i < |Decimal(n)| ==> '0' <= Decimal(n)[i] <= '9') && Number(Decimal(n)) == n
  {
    var d := DIGITS[n % 10];
    assert d as int - '0' as int == n % 10;
    if n < 10 {
      assert Decimal(n)[..0] == "";
    } else {
      DecimalReads(n / 10);
      assert Decimal(n)[..|Decimal(n)| - 1] == Decimal(n / 10);
    }
  }

  lemma LongerThanOne(n: nat)
    ensures |Decimal(n)| == 1 <==> n < 10
  {
  }

  function Power10(d: nat): nat {
    if d == 0 then 1 else 10 * Power10(d - 1)
  }

  /** How many digits a number has. */
  lemma {:induction false} DecimalSize(n: nat, d: nat)
    requires d >= 1
    ensures |Decimal(n)| <= d <==> n < Power10(d)
  {
    if n >= 10 {
      if d == 1 {
        assert |Decimal(n / 10)| >= 1;
        assert Power10(1) == 10 * Power10(0);
      } else {
        DecimalSize(n / 10, d - 1);
      }
    } else if d > 1 {
      PowerGrows(d);
    }
  }

  lemma PowerGrows(d: nat)
    requires d >= 1
    ensures Power10(d) >= 10
  {
  }

  function PartId(id: string, k: nat): string {
    id + "#" + Decimal(k + 1)
  }

  lemma PartIdsDiffer(id: string, k: nat, m: nat)
    ensures PartId(id, k) == PartId(id, m) <==> k == m
  {
    if PartId(id, k) == PartId(id, m) {
      assert PartId(id, k)[|id| + 1..] == Decimal(k + 1);
      assert PartId(id, m)[|id| + 1..] == Decimal(m + 1);
      DecimalInjective(k + 1, m + 1);
    }
  }

  // --- The split ----------------------------------------------------------------------------

  /** What the loop accounts for a part: room for a four-digit number and a comma per change. */
  function Accounted(m: Msg, cs: seq<Change>): nat {
    |m.id| + 5 + |m.rest| + Total(cs) + |cs|
  }

  function Concat(parts: seq<seq<Change>>): seq<Change> {
    if parts == [] then [] else Concat(parts[..|parts| - 1]) + parts[|parts| - 1]
  }

  predicate RunOk(m: Msg, run: seq<Change>, maxBytes: nat) {
    run != [] && (|run| == 1 || Accounted(m, run) <= maxBytes)
  }

  /** A run that could not have taken the first change of the next one. */
  predicate Full(m: Msg, run: seq<Change>, next: seq<Change>, maxBytes: nat) {
    next != [] && Accounted(m, run) + |next[0].json| + 1 > maxBytes
  }

  /** Runs within the limit or of a single change, none of which could have taken the next change. */
  predicate Packed(m: Msg, parts: seq<seq<Change>>, maxBytes: nat) {
    parts == [] ||
    var n := |parts| - 1;
    Packed(m, parts[..n], maxBytes) && RunOk(m, parts[n], maxBytes) && (n > 0 ==> Full(m, parts[n - 1], parts[n], maxBytes))
  }

  lemma PackedSnoc(m: Msg, parts: seq<seq<Change>>, run: seq<Change>, maxBytes: nat)
    ensures Packed(m, parts + [run], maxBytes) <==>
      && Packed(m, parts, maxBytes) && RunOk(m, run, maxBytes)
      && (parts != [] ==> Full(m, parts[|parts| - 1], run, maxBytes))
  {
    assert (parts + [run])[..|parts|] == parts;
  }

  lemma {:induction false} PackedRun(m: Msg, parts: seq<seq<Change>>, maxBytes: nat, k: nat)
    requires Packed(m, parts, maxBytes) && k < |parts|
    ensures RunOk(m, parts[k], maxBytes)
  {
    if k < |parts| - 1 {
      PackedRun(m, parts[..|parts| - 1], maxBytes, k);
    }
  }

  lemma TotalSnoc(cs: seq<Change>, c: Change)
    ensures Total(cs + [c]) == Total(cs) + |c.json|
  {
    assert (cs + [c])[..|cs|] == cs;
  }

  lemma ConcatSnoc(parts: seq<seq<Change>>, cs: seq<Change>)
    ensures Concat(parts + [cs]) == Concat(parts) + cs
  {
    assert (parts + [cs])[..|parts|] == parts;
  }

  /** The finished runs and the open one. */
  datatype Packing = Packing(parts: seq<seq<Change>>, cur: seq<Change>) {
    function All(): seq<seq<Change>> {
      if cur == [] then parts else parts + [cur]
    }
  }

  function Place(m: Msg, p: Packing, c: Change, maxBytes: nat): Packing {
    if p.cur != [] && Accounted(m, p.cur) + |c.json| + 1 > maxBytes then Packing(p.parts + [p.cur], [c])
    else Packing(p.parts, p.cur + [c])
  }

  function PackAll(m: Msg, cs: seq<Change>, maxBytes: nat): Packing {
    if cs == [] then Packing([], []) else Place(m, PackAll(m, cs[..|cs| - 1], maxBytes), cs[|cs| - 1], maxBytes)
  }

  function Runs(m: Msg, maxBytes: nat): seq<seq<Change>> {
    PackAll(m, m.changes, maxBytes).All()
  }

  method Pack(m: Msg, maxBytes: nat) returns (parts: seq<seq<Change>>)
    ensures parts == Runs(m, maxBytes)
  {
    parts := [];
    var cur: seq<Change> := [];
    var base := |m.id| + 5 + |m.rest|;
    var size := base;
    for i := 0 to |m.changes|
      invariant PackAll(m, m.changes[..i], maxBytes) == Packing(parts, cur)
      invariant base == Accounted(m, []) && size == Accounted(m, cur)
    {
      PrefixSnoc(m.changes, i);
      var c := m.changes[i];
      var n := |c.json| + 1;
      TotalSnoc([], c);
      TotalSnoc(cur, c);
      if cur != [] && size + n > maxBytes {
        parts := parts + [cur];
        cur := [];
        size := base;
      }
      cur := cur + [c];
      size := size + n;
    }
    assert m.changes[..|m.changes|] == m.changes;
    if cur != [] {
      parts := parts + [cur];
    }
  }

  /** The runs are the changes in order, full, and none is empty. */
  lemma {:induction false} RunsArePacked(m: Msg, cs: seq<Change>, maxBytes: nat)
    ensures var p := PackAll(m, cs, maxBytes);
      && Concat(p.All()) == cs && Packed(m, p.All(), maxBytes)
      && (cs != [] ==> p.cur != [] && p.All() != [])
      && (cs == [] ==> p.All() == [])
  {
    if cs == [] {
    } else {
      var n := |cs| - 1;
      RunsArePacked(m, cs[..n], maxBytes);
      var p := PackAll(m, cs[..n], maxBytes);
      assert PackAll(m, cs, maxBytes) == Place(m, p, cs[n], maxBytes);
      PlacedAll(m, p, cs[n], maxBytes);
      hide *;
      assert cs == cs[..n] + [cs[n]];
    }
  }

  lemma PlacedAll(m: Msg, p: Packing, c: Change, maxBytes: nat)
    requires Packed(m, p.All(), maxBytes) && (p.cur == [] ==> p.parts == [])
    ensures var q := Place(m, p, c, maxBytes);
      Packed(m, q.All(), maxBytes) && Concat(q.All()) == Concat(p.All()) + [c] && q.cur != [] && q.All() != []
  {
    hide Concat, Packed, Accounted;
    ConcatSnoc(p.parts, p.cur);
    if p.cur != [] && Accounted(m, p.cur) + |c.json| + 1 > maxBytes {
      ConcatSnoc(p.parts + [p.cur], [c]);
      PackedSnoc(m, p.parts + [p.cur], [c], maxBytes);
    } else {
      ConcatSnoc(p.parts, p.cur + [c]);
      PackedSnoc(m, p.parts, p.cur, maxBytes);
      PackedSnoc(m, p.parts, p.cur + [c], maxBytes);
      AccountedSnoc(m, p.cur, c);
      assert p.cur == [] ==> Concat(p.parts) + (p.cur + [c]) == Concat(p.parts) + [c];
      assert Concat(p.parts) + (p.cur + [c]) == Concat(p.parts) + p.cur + [c];
    }
  }

  lemma AccountedSnoc(m: Msg, cs: seq<Change>, c: Change)
    ensures Accounted(m, cs + [c]) == Accounted(m, cs) + |c.json| + 1
  {
    TotalSnoc(cs, c);
  }

  function PartsOf(m: Msg, runs: seq<seq<Change>>): (r: seq<Msg>)
    ensures |r| == |runs|
    ensures forall k :: 0 <= k < |r| ==> r[k] == Msg(PartId(m.id, k), m.rest, runs[k])
  {
    seq(|runs|, k requires 0 <= k < |runs| => Msg(PartId(m.id, k), m.rest, runs[k]))
  }

  function ChangesOf(parts: seq<Msg>): seq<Change> {
    if parts == [] then [] else ChangesOf(parts[..|parts| - 1]) + parts[|parts| - 1].changes
  }

  lemma {:induction false} PartsConcat(m: Msg, runs: seq<seq<Change>>)
    ensures ChangesOf(PartsOf(m, runs)) == Concat(runs)
  {
    if runs == [] {
    } else {
      var n := |runs| - 1;
      PartsConcat(m, runs[..n]);
      assert PartsOf(m, runs)[..n] == PartsOf(m, runs[..n]);
    }
  }

  /** A part's real size: what was accounted, less the spare comma, for the digits its number has. */
  lemma PartSize(m: Msg, runs: seq<seq<Change>>, k: nat)
    requires k < |runs| && runs[k] != []
    ensures JsonBytes(PartsOf(m, runs)[k]) == Accounted(m, runs[k]) + |Decimal(k + 1)| - 5
  {
  }

  /** Within the limit, or a single change, or numbered beyond 99,999. */
  ghost predicate SmallEnough(p: Msg, k: nat, maxBytes: nat) {
    JsonBytes(p) <= maxBytes || |p.changes| == 1 || k + 1 >= 100000
  }

  function Split(m: Msg, maxBytes: nat): seq<Msg> {
    if JsonBytes(m) <= maxBytes then [m] else PartsOf(m, Runs(m, maxBytes))
  }

  method SplitEvent(m: Msg, maxBytes: nat) returns (parts: seq<Msg>)
    ensures parts == Split(m, maxBytes)
  {
    if JsonBytes(m) <= maxBytes {
      return [m];
    }
    var runs := Pack(m, maxBytes);
    parts := [];
    for i := 0 to |runs|
      invariant |parts| == i && forall k :: 0 <= k < i ==> parts[k] == PartsOf(m, runs)[k]
    {
      parts := parts + [Msg(PartId(m.id, i), m.rest, runs[i])];
    }
    assert parts == PartsOf(m, runs);
  }

  /**
   * An event within the limit is one message, itself. A larger one is split: its messages carry its
   * changes in order, none lost or repeated, under its id with `#1`, `#2` and so on, each small
   * enough; only an oversized event without changes has no message at all.
   */
  lemma SplitLaws(m: Msg, maxBytes: nat)
    ensures var parts := Split(m, maxBytes);
      && (JsonBytes(m) <= maxBytes ==> parts == [m])
      && (JsonBytes(m) > maxBytes ==> forall k :: 0 <= k < |parts| ==> parts[k].id == m.id + "#" + Decimal(k + 1))
      && ChangesOf(parts) == m.changes
      && (forall j, k :: 0 <= j < k < |parts| ==> parts[j].id != parts[k].id)
      && (forall k :: 0 <= k < |parts| ==> parts[k].rest == m.rest && SmallEnough(parts[k], k, maxBytes))
      && (parts == [] <==> m.changes == [] && JsonBytes(m) > maxBytes)
  {
    if JsonBytes(m) <= maxBytes {
      assert [m][..0] == [];
    } else {
      var runs := Runs(m, maxBytes);
      RunsArePacked(m, m.changes, maxBytes);
      PartsConcat(m, runs);
      assert Packed(m, runs, maxBytes) && Split(m, maxBytes) == PartsOf(m, runs);
      hide *;
      PartsAreSmall(m, runs, maxBytes);
    }
  }

  /** The size of a message with one more change and a part number of four digits. */
  function SizeWith(m: Msg, changes: seq<Change>, more: Change): nat {
    |m.id + "#0000"| + |m.rest| + ListBytes(changes + [more])
  }

  /** No part ends early: with the next change and a number of four digits it would reach the limit. */
  lemma PartsAreFull(m: Msg, maxBytes: nat, k: nat)
    requires JsonBytes(m) > maxBytes && k + 1 < |Split(m, maxBytes)|
    ensures var parts := Split(m, maxBytes);
      && parts[k].changes != [] && parts[k + 1].changes != []
      && SizeWith(m, parts[k].changes, parts[k + 1].changes[0]) >= maxBytes
  {
    var runs := Runs(m, maxBytes);
    RunsArePacked(m, m.changes, maxBytes);
    assert Packed(m, runs, maxBytes) && Split(m, maxBytes) == PartsOf(m, runs);
    PackedRun(m, runs, maxBytes, k);
    PackedFull(m, runs, maxBytes, k);
    TotalSnoc(runs[k], runs[k + 1][0]);
    hide Packed, Total, PackAll;
  }

  lemma {:induction false} PackedFull(m: Msg, parts: seq<seq<Change>>, maxBytes: nat, k: nat)
    requires Packed(m, parts, maxBytes) && k + 1 < |parts|
    ensures Full(m, parts[k], parts[k + 1], maxBytes)
  {
    if k + 1 < |parts| - 1 {
      PackedFull(m, parts[..|parts| - 1], maxBytes, k);
    }
  }

  lemma PartsAreSmall(m: Msg, runs: seq<seq<Change>>, maxBytes: nat)
    requires Packed(m, runs, maxBytes)
    ensures var parts := PartsOf(m, runs);
      && (forall j, k :: 0 <= j < k < |parts| ==> parts[j].id != parts[k].id)
      && (forall k :: 0 <= k < |parts| ==> parts[k].rest == m.rest && SmallEnough(parts[k], k, maxBytes))
  {
    hide Packed, SmallEnough, PartId;
    var parts := PartsOf(m, runs);
    forall j, k | 0 <= j < k < |parts| ensures parts[j].id != parts[k].id {
      PartIdsDiffer(m.id, j, k);
    }
    forall k | 0 <= k < |parts| ensures SmallEnough(parts[k], k, maxBytes) {
      RunIsSmall(m, runs, k, maxBytes);
    }
  }

  lemma RunIsSmall(m: Msg, runs: seq<seq<Change>>, k: nat, maxBytes: nat)
    requires Packed(m, runs, maxBytes) && k < |runs|
    ensures SmallEnough(PartsOf(m, runs)[k], k, maxBytes)
  {
    PackedRun(m, runs, maxBytes, k);
    PartSize(m, runs, k);
    assert Power10(5) == 10 * (10 * (10 * (10 * (10 * Power10(0)))));
    DecimalSize(k + 1, 5);
  }

  /** The messages of two events with different plain ids never share an id. */
  lemma IdsDoNotMeet(m: Msg, n: Msg, maxBytes: nat, j: nat, k: nat)
    requires '#' !in m.id && '#' !in n.id && m.id != n.id
    requires j < |Split(m, maxBytes)| && k < |Split(n, maxBytes)|
    ensures Split(m, maxBytes)[j].id != Split(n, maxBytes)[k].id
  {
    IdRoot(m, maxBytes, j);
    IdRoot(n, maxBytes, k);
  }

  /** Every message names its event before the hash. */
  lemma IdRoot(m: Msg, maxBytes: nat, j: nat)
    requires '#' !in m.id && j < |Split(m, maxBytes)|
    ensures UpToHash(Split(m, maxBytes)[j].id) == m.id
  {
    var tail := if JsonBytes(m) <= maxBytes then "" else "#" + Decimal(j + 1);
    hide Runs, Decimal, UpToHash;
    assert Split(m, maxBytes)[j].id == m.id + tail;
    BeforeHash(m.id, tail);
  }

  function UpToHash(s: string): string {
    if s == "" || s[0] == '#' then "" else [s[0]] + UpToHash(s[1..])
  }

  lemma {:induction false} BeforeHash(id: string, tail: string)
    requires '#' !in id && (tail == "" || tail[0] == '#')
    ensures UpToHash(id + tail) == id
  {
    if id == "" {
      assert id + tail == tail;
    } else {
      BeforeHash(id[1..], tail);
      assert (id + tail)[1..] == id[1..] + tail;
    }
  }
}
