/** Cutting a file's diff into fragments that each belong to one set of owners. */
module SplitChange {
  import opened Basics
  import opened Decimal
  import opened DiffText
  import opened DiffEdits
  import opened Owners

  datatype Change = Change(oldPath: string, newPath: string, diff: string, isDeleted: bool, isNew: bool,
                           isRenamed: bool, insertions: int, deletions: int)

  datatype Fragment = Fragment(path: string, oldPath: string, before: seq<Element>, after: seq<Element>,
                               gaps: seq<string>, symbols: seq<string>, diff: string, status: string,
                               insertions: int, deletions: int)

  function ChangePath(d: Change): string {
    if d.isDeleted || d.newPath == "/dev/null" then d.oldPath else d.newPath
  }

  function Status(d: Change): string {
    if d.isDeleted then "deleted" else if d.isNew then "added" else if d.isRenamed then "renamed" else ""
  }

  // ---------- Owners ----------

  /** The owner of a changed line, on the side the line stands on. */
  function OwnerOf(l: HunkLine, oldLine: int, newLine: int, before: seq<Element>, after: seq<Element>)
    : Option<Element>
  {
    if l.kind == Deleted then ElementAt(before, oldLine) else ElementAt(after, newLine)
  }

  /** The owner of line `k` of the run that starts at `start`. */
  function OwnerAt(lines: seq<HunkLine>, start: nat, k: nat, oldLine: int, newLine: int, before: seq<Element>,
                   after: seq<Element>): Option<Element>
    requires start <= k < |lines|
  {
    OwnerOf(lines[k], oldLine + OldSpan(lines[start..k]), newLine + NewSpan(lines[start..k]), before, after)
  }

  /** The key of the owner of line `k` of a hunk body that starts at the given lines. */
  ghost function KeyAt(lines: seq<HunkLine>, start: nat, k: nat, oldLine: int, newLine: int,
                       before: seq<Element>, after: seq<Element>): string
    requires start <= k < |lines|
  {
    OwnerKey(OwnerAt(lines, start, k, oldLine, newLine, before, after))
  }

  predicate Changed(l: HunkLine) {
    l.kind != Context
  }

  /** The end of the run of changed lines that `start` stands in. */
  method BlockEnd(lines: seq<HunkLine>, start: nat) returns (end: nat, added: bool, deleted: bool)
    requires start < |lines| && Changed(lines[start])
    ensures start < end <= |lines|
    ensures forall k :: start <= k < end ==> Changed(lines[k])
    ensures end < |lines| ==> !Changed(lines[end])
    ensures added <==> exists k :: start <= k < end && lines[k].kind == Added
    ensures deleted <==> exists k :: start <= k < end && lines[k].kind == Deleted
  {
    end, added, deleted := start, false, false;
    while end < |lines| && Changed(lines[end])
      invariant start <= end <= |lines|
      invariant forall k :: start <= k < end ==> Changed(lines[k])
      invariant added <==> exists k :: start <= k < end && lines[k].kind == Added
      invariant deleted <==> exists k :: start <= k < end && lines[k].kind == Deleted
    {
      added := added || lines[end].kind == Added;
      deleted := deleted || lines[end].kind == Deleted;
      end := end + 1;
    }
  }

  /** Every owner of a line of the run is listed on its side, once, and nothing else is. */
  ghost predicate Owned(lines: seq<HunkLine>, start: nat, i: nat, oldLine: int, newLine: int,
                        before: seq<Element>, after: seq<Element>, oldOwners: seq<Element>, newOwners: seq<Element>)
    requires start <= i <= |lines|
  {
    forall k :: start <= k < i ==>
      var o := OwnerAt(lines, start, k, oldLine, newLine, before, after);
      o.Some? ==> Lists(if lines[k].kind == Deleted then oldOwners else newOwners, o.value)
  }

  /** Each element listed for a side owns a line of the run on that side. */
  ghost predicate Sourced(lines: seq<HunkLine>, start: nat, i: nat, oldLine: int, newLine: int, before: seq<Element>,
                          after: seq<Element>, deleted: bool, owners: seq<Element>)
    requires start <= i <= |lines|
  {
    Distinct(owners)
    && forall x :: x in owners ==> exists k :: start <= k < i && (lines[k].kind == Deleted) == deleted
                                       && OwnerAt(lines, start, k, oldLine, newLine, before, after) == Some(x)
  }

  /** A part of a block: the whole of a replacement, or the longest run of a pure
      addition or removal that has a single owner. */
  method TakeRun(lines: seq<HunkLine>, start: nat, oldStart: int, newStart: int, before: seq<Element>,
                 after: seq<Element>)
    returns (i: nat, oldLine: int, newLine: int, oldOwners: seq<Element>, newOwners: seq<Element>,
             end: nat, mixed: bool)
    requires start < |lines| && Changed(lines[start])
    ensures start < i <= end <= |lines|
    ensures forall k :: start <= k < end ==> Changed(lines[k])
    ensures end < |lines| ==> !Changed(lines[end])
    ensures oldLine == oldStart + OldSpan(lines[start..i]) && newLine == newStart + NewSpan(lines[start..i])
    ensures mixed <==> (exists k :: start <= k < end && lines[k].kind == Added)
                       && (exists k :: start <= k < end && lines[k].kind == Deleted)
    ensures mixed ==> i == end
    ensures !mixed ==> forall k :: start <= k < i ==>
              KeyAt(lines, start, k, oldStart, newStart, before, after)
              == KeyAt(lines, start, start, oldStart, newStart, before, after)
    ensures !mixed && i < end ==>
              KeyAt(lines, start, i, oldStart, newStart, before, after)
              != KeyAt(lines, start, start, oldStart, newStart, before, after)
    ensures Owned(lines, start, i, oldStart, newStart, before, after, oldOwners, newOwners)
    ensures Sourced(lines, start, i, oldStart, newStart, before, after, true, oldOwners)
    ensures Sourced(lines, start, i, oldStart, newStart, before, after, false, newOwners)
  {
    hide ElementAt, ElementID, OldSpan, NewSpan, AppendElement, Lists, OwnerKey, OwnerOf, Owned, Sourced, Distinct;
    OwnedNone(lines, start, oldStart, newStart, before, after);
    var added, deleted;
    end, added, deleted := BlockEnd(lines, start);
    mixed := added && deleted;
    i, oldLine, newLine, oldOwners, newOwners := start, oldStart, newStart, [], [];
    var owner := "";
    SpanNone(lines, start);
    while i < end
      invariant start <= i <= end
      invariant oldLine == oldStart + OldSpan(lines[start..i]) && newLine == newStart + NewSpan(lines[start..i])
      invariant i > start ==> owner == KeyAt(lines, start, i - 1, oldStart, newStart, before, after)
      invariant !mixed ==> forall k :: start <= k < i ==>
                  KeyAt(lines, start, k, oldStart, newStart, before, after)
                  == KeyAt(lines, start, start, oldStart, newStart, before, after)
      invariant Owned(lines, start, i, oldStart, newStart, before, after, oldOwners, newOwners)
      invariant Sourced(lines, start, i, oldStart, newStart, before, after, true, oldOwners)
      invariant Sourced(lines, start, i, oldStart, newStart, before, after, false, newOwners)
      decreases end - i
    {
      var l := lines[i];
      var a := OwnerOf(l, oldLine, newLine, before, after);
      var key := OwnerKey(a);
      assert key == KeyAt(lines, start, i, oldStart, newStart, before, after);
      if i > start && !(added && deleted) && key != owner {
        break;
      }
      owner := key;
      SpanNext(lines, start, i);
      OwnedNext(lines, start, i, oldStart, newStart, before, after, oldOwners, newOwners);
      SourcedNext(lines, start, i, oldStart, newStart, before, after, true, oldOwners);
      SourcedNext(lines, start, i, oldStart, newStart, before, after, false, newOwners);
      if l.kind == Deleted {
        if a.Some? {
          oldOwners := AppendElement(oldOwners, a.value);
        }
        oldLine := oldLine + 1;
      } else {
        if a.Some? {
          newOwners := AppendElement(newOwners, a.value);
        }
        newLine := newLine + 1;
      }
      i := i + 1;
    }
  }

  lemma OwnedNone(lines: seq<HunkLine>, start: nat, oldLine: int, newLine: int, before: seq<Element>,
                  after: seq<Element>)
    requires start <= |lines|
    ensures Owned(lines, start, start, oldLine, newLine, before, after, [], [])
    ensures forall deleted :: Sourced(lines, start, start, oldLine, newLine, before, after, deleted, [])
  {}

  lemma SourcedNext(lines: seq<HunkLine>, start: nat, i: nat, oldLine: int, newLine: int, before: seq<Element>,
                    after: seq<Element>, deleted: bool, owners: seq<Element>)
    requires start <= i < |lines| && Sourced(lines, start, i, oldLine, newLine, before, after, deleted, owners)
    ensures var a := OwnerAt(lines, start, i, oldLine, newLine, before, after);
      Sourced(lines, start, i + 1, oldLine, newLine, before, after, deleted,
              if (lines[i].kind == Deleted) == deleted && a.Some? then AppendElement(owners, a.value) else owners)
  {
    var a := OwnerAt(lines, start, i, oldLine, newLine, before, after);
    if a.Some? {
      AppendGrows(owners, a.value);
    }
    hide OwnerAt, AppendElement, Distinct;
  }

  /** Listing the owner of the next line on its side keeps every owner listed. */
  lemma OwnedNext(lines: seq<HunkLine>, start: nat, i: nat, oldLine: int, newLine: int, before: seq<Element>,
                  after: seq<Element>, oldOwners: seq<Element>, newOwners: seq<Element>)
    requires start <= i < |lines|
    requires Owned(lines, start, i, oldLine, newLine, before, after, oldOwners, newOwners)
    ensures var a := OwnerAt(lines, start, i, oldLine, newLine, before, after);
      var deleted := lines[i].kind == Deleted;
      Owned(lines, start, i + 1, oldLine, newLine, before, after,
            if deleted && a.Some? then AppendElement(oldOwners, a.value) else oldOwners,
            if !deleted && a.Some? then AppendElement(newOwners, a.value) else newOwners)
  {
    var a := OwnerAt(lines, start, i, oldLine, newLine, before, after);
    var deleted := lines[i].kind == Deleted;
    var olds := if deleted && a.Some? then AppendElement(oldOwners, a.value) else oldOwners;
    var news := if !deleted && a.Some? then AppendElement(newOwners, a.value) else newOwners;
    if a.Some? {
      AppendGrows(oldOwners, a.value);
      AppendGrows(newOwners, a.value);
    }
    hide OwnerAt, AppendElement, Lists;
    OwnedMore(lines, start, i, oldLine, newLine, before, after, oldOwners, newOwners, olds, news);
  }

  lemma OwnedMore(lines: seq<HunkLine>, start: nat, i: nat, oldLine: int, newLine: int, before: seq<Element>,
                  after: seq<Element>, oldOwners: seq<Element>, newOwners: seq<Element>, olds: seq<Element>,
                  news: seq<Element>)
    requires start <= i < |lines|
    requires Owned(lines, start, i, oldLine, newLine, before, after, oldOwners, newOwners)
    requires forall x :: Lists(oldOwners, x) ==> Lists(olds, x)
    requires forall x :: Lists(newOwners, x) ==> Lists(news, x)
    requires var a := OwnerAt(lines, start, i, oldLine, newLine, before, after);
      a.Some? ==> Lists(if lines[i].kind == Deleted then olds else news, a.value)
    ensures Owned(lines, start, i + 1, oldLine, newLine, before, after, olds, news)
  {
    hide OwnerAt, Lists;
  }

  lemma SpanNone(lines: seq<HunkLine>, i: nat)
    requires i <= |lines|
    ensures OldSpan(lines[i..i]) == 0 && NewSpan(lines[i..i]) == 0
  {
  }

  lemma SpanNext(lines: seq<HunkLine>, a: nat, i: nat)
    requires a <= i < |lines|
    ensures OldSpan(lines[a..i + 1]) == OldSpan(lines[a..i]) + if lines[i].kind == Added then 0 else 1
    ensures NewSpan(lines[a..i + 1]) == NewSpan(lines[a..i]) + if lines[i].kind == Deleted then 0 else 1
  {
    assert lines[a..i + 1] == lines[a..i] + [lines[i]];
    SpanAppend(lines[a..i], [lines[i]]);
    assert [lines[i]][1..] == [];
  }

  // ---------- Parts ----------

  ghost predicate AllContext(lines: seq<HunkLine>) {
    forall l :: l in lines ==> !Changed(l)
  }

  lemma {:induction false} ContextEdits(lines: seq<HunkLine>, oldLine: int, newLine: int)
    requires AllContext(lines)
    ensures EditsFrom(lines, oldLine, newLine) == []
    ensures OldSpan(lines) == NewSpan(lines) == |lines|
    decreases lines
  {
    if lines != [] {
      assert lines[0] in lines;
      ContextEdits(lines[1..], oldLine + 1, newLine + 1);
    }
  }

  /** A hunk header that counts its own lines. */
  ghost predicate WellFormed(h: Hunk) {
    h.oldCount == OldSpan(h.lines) && h.newCount == NewSpan(h.lines)
  }

  /** `part` is lines `start..i` of a hunk body that reaches the given lines there,
      with `a` unchanged lines before and `b` after. */
  ghost predicate PartOf(lines: seq<HunkLine>, start: nat, i: nat, oldStart: int, newStart: int, a: nat, b: nat,
                         part: Hunk)
  {
    && start <= i <= |lines| && a <= start && i + b <= |lines|
    && AllContext(lines[start - a..start]) && AllContext(lines[i..i + b])
    && part.lines == lines[start - a..i + b]
    && part.oldStart == oldStart - a && part.newStart == newStart - a
    && part.oldCount == OldSpan(lines[start..i]) + a + b && part.newCount == NewSpan(lines[start..i]) + a + b
  }

  /** Context changes neither the edits of a part nor their coordinates. */
  lemma PartKeepsEdits(lines: seq<HunkLine>, start: nat, i: nat, oldStart: int, newStart: int, a: nat, b: nat,
                       part: Hunk)
    requires PartOf(lines, start, i, oldStart, newStart, a, b, part)
    ensures HunkEdits(part) == EditsFrom(lines[start..i], oldStart, newStart)
    ensures WellFormed(part)
  {
    hide EditsFrom, OldSpan, NewSpan;
    var lead, body, trail := lines[start - a..start], lines[start..i], lines[i..i + b];
    assert part.lines == lead + (body + trail);
    ContextEdits(lead, oldStart - a, newStart - a);
    EditsFromAppend(lead, body + trail, oldStart - a, newStart - a);
    EditsFromAppend(body, trail, oldStart, newStart);
    ContextEdits(trail, oldStart + OldSpan(body), newStart + NewSpan(body));
    SpanAppend(lead, body + trail);
    SpanAppend(body, trail);
  }

  function WithLead(part: Hunk, l: HunkLine): Hunk {
    Hunk(part.oldStart - 1, part.oldCount + 1, part.newStart - 1, part.newCount + 1, [l] + part.lines)
  }

  function WithTrail(part: Hunk, l: HunkLine): Hunk {
    part.(oldCount := part.oldCount + 1, newCount := part.newCount + 1, lines := part.lines + [l])
  }

  lemma PartAlone(lines: seq<HunkLine>, start: nat, i: nat, oldStart: int, newStart: int)
    requires start <= i <= |lines|
    ensures PartOf(lines, start, i, oldStart, newStart, 0, 0,
                   Hunk(oldStart, OldSpan(lines[start..i]), newStart, NewSpan(lines[start..i]), lines[start..i]))
  {
    hide OldSpan, NewSpan;
  }

  lemma LeadOne(lines: seq<HunkLine>, start: nat, i: nat, oldStart: int, newStart: int, a: nat, part: Hunk)
    requires PartOf(lines, start, i, oldStart, newStart, a, 0, part) && a < start && !Changed(lines[start - a - 1])
    ensures PartOf(lines, start, i, oldStart, newStart, a + 1, 0, WithLead(part, lines[start - a - 1]))
  {
    hide OldSpan, NewSpan;
    assert lines[start - a - 1..start] == [lines[start - a - 1]] + lines[start - a..start];
  }

  lemma TrailOne(lines: seq<HunkLine>, start: nat, i: nat, oldStart: int, newStart: int, a: nat, b: nat, part: Hunk)
    requires PartOf(lines, start, i, oldStart, newStart, a, b, part) && i + b < |lines| && !Changed(lines[i + b])
    ensures PartOf(lines, start, i, oldStart, newStart, a, b + 1, WithTrail(part, lines[i + b]))
  {
    hide OldSpan, NewSpan;
    assert lines[i..i + b + 1] == lines[i..i + b] + [lines[i + b]];
  }

  /** The unchanged lines next to a part, at most three on each side. */
  method Surround(lines: seq<HunkLine>, start: nat, i: nat, oldStart: int, newStart: int, oldLine: int, newLine: int)
    returns (part: Hunk, ghost a: nat, ghost b: nat)
    requires start <= i <= |lines|
    requires oldLine == oldStart + OldSpan(lines[start..i]) && newLine == newStart + NewSpan(lines[start..i])
    ensures PartOf(lines, start, i, oldStart, newStart, a, b, part)
    ensures a <= 3 && a <= start && (a == 3 || a == start || Changed(lines[start - a - 1]))
    ensures b <= 3 && i + b <= |lines| && (b == 3 || i + b == |lines| || Changed(lines[i + b]))
  {
    hide *;
    part := Hunk(oldStart, oldLine - oldStart, newStart, newLine - newStart, lines[start..i]);
    PartAlone(lines, start, i, oldStart, newStart);
    var j := start;
    while j > 0 && start - (j - 1) <= 3 && !Changed(lines[j - 1])
      invariant start - 3 <= j <= start
      invariant PartOf(lines, start, i, oldStart, newStart, start - j, 0, part)
    {
      LeadOne(lines, start, i, oldStart, newStart, start - j, part);
      j := j - 1;
      part := WithLead(part, lines[j]);
    }
    a := start - j;
    var k := i;
    while k < |lines| && k - i < 3 && !Changed(lines[k])
      invariant i <= k <= i + 3 && k <= |lines|
      invariant PartOf(lines, start, i, oldStart, newStart, a, k - i, part)
    {
      TrailOne(lines, start, i, oldStart, newStart, a, k - i, part);
      part := WithTrail(part, lines[k]);
      k := k + 1;
    }
    b := k - i;
  }

  // ---------- Fragments ----------

  function CountKind(edits: seq<Edit>, added: bool): nat {
    if edits == [] then 0 else CountKind(edits[1..], added) + if edits[0].added == added then 1 else 0
  }

  lemma {:induction false} CountKindAppend(a: seq<Edit>, b: seq<Edit>, added: bool)
    ensures CountKind(a + b, added) == CountKind(a, added) + CountKind(b, added)
  {
    if a == [] {
      assert a + b == b;
    } else {
      CountKindAppend(a[1..], b, added);
      assert (a + b)[1..] == a[1..] + b;
    }
  }

  /** `countChanges` of one hunk. */
  method CountChanges(h: Hunk) returns (insertions: int, deletions: int)
    ensures insertions == CountKind(HunkEdits(h), true) && deletions == CountKind(HunkEdits(h), false)
  {
    insertions, deletions := 0, 0;
    for i := 0 to |h.lines|
      invariant insertions == CountKind(EditsFrom(h.lines[..i], h.oldStart, h.newStart), true)
      invariant deletions == CountKind(EditsFrom(h.lines[..i], h.oldStart, h.newStart), false)
    {
      CountLine(h.lines, i, h.oldStart, h.newStart);
      match h.lines[i].kind
      case Added => insertions := insertions + 1;
      case Deleted => deletions := deletions + 1;
      case Context =>
    }
    assert h.lines[..|h.lines|] == h.lines;
  }

  lemma CountLine(lines: seq<HunkLine>, i: nat, oldLine: int, newLine: int)
    requires i < |lines|
    ensures forall added :: CountKind(EditsFrom(lines[..i + 1], oldLine, newLine), added) ==
              CountKind(EditsFrom(lines[..i], oldLine, newLine), added)
              + if lines[i].kind == (if added then Added else Deleted) then 1 else 0
  {
    assert lines[..i + 1] == lines[..i] + [lines[i]];
    EditsFromAppend(lines[..i], [lines[i]], oldLine, newLine);
    assert [lines[i]][1..] == [];
    forall added ensures CountKind(EditsFrom(lines[..i + 1], oldLine, newLine), added) ==
              CountKind(EditsFrom(lines[..i], oldLine, newLine), added)
              + if lines[i].kind == (if added then Added else Deleted) then 1 else 0
    {
      var one := EditsFrom([lines[i]], oldLine + OldSpan(lines[..i]), newLine + NewSpan(lines[..i]));
      CountKindAppend(EditsFrom(lines[..i], oldLine, newLine), one, added);
      if one != [] {
        assert one[1..] == [];
      }
    }
  }

  /** A fragment shows its hunks under the header of the diff, and counts them. */
  ghost predicate Shows(d: Change, f: Fragment, hunks: seq<Hunk>) {
    && hunks != []
    && f.diff == DiffHeader(d.diff) + Rendered(hunks)
    && f.insertions == CountKind(Edits(hunks), true) && f.deletions == CountKind(Edits(hunks), false)
  }

  /** No line counter of the code passes the largest `int` while it walks these
      hunks. The counters of the model do not wrap, those of Go would. */
  ghost predicate Numbered(hunks: seq<Hunk>) {
    forall h :: h in hunks ==>
      h.oldStart + OldSpan(h.lines) <= MAX_INT && h.newStart + NewSpan(h.lines) <= MAX_INT
  }

  ghost predicate Built(d: Change, out: seq<Fragment>, parts: seq<seq<Hunk>>) {
    && |out| == |parts|
    && (forall i :: 0 <= i < |out| ==> Shows(d, out[i], parts[i]))
    && (forall i, h :: 0 <= i < |parts| && h in parts[i] ==>
          WellFormed(h) && (Numbered(Hunks(d.diff)) ==> Printable(h)))
  }

  /** The edits shown by all fragments. */
  ghost function Total(parts: seq<seq<Hunk>>): multiset<Edit> {
    if parts == [] then multiset{} else Total(parts[..|parts| - 1]) + multiset(Edits(parts[|parts| - 1]))
  }

  lemma {:induction false} TotalUpdate(parts: seq<seq<Hunk>>, i: nat, h: Hunk)
    requires i < |parts|
    ensures Total(parts[i := parts[i] + [h]]) == Total(parts) + multiset(HunkEdits(h))
  {
    var n := |parts| - 1;
    var grown := parts[i := parts[i] + [h]];
    EditsOneMore(parts[i], h);
    if i == n {
      assert grown[..n] == parts[..n];
    } else {
      TotalUpdate(parts[..n], i, h);
      assert grown[..n] == parts[..n][i := parts[i] + [h]];
    }
  }

  lemma EditsOneMore(hunks: seq<Hunk>, h: Hunk)
    ensures Edits(hunks + [h]) == Edits(hunks) + HunkEdits(h)
    ensures multiset(Edits(hunks + [h])) == multiset(Edits(hunks)) + multiset(HunkEdits(h))
    ensures forall added :: CountKind(Edits(hunks + [h]), added) ==
              CountKind(Edits(hunks), added) + CountKind(HunkEdits(h), added)
  {
    assert (hunks + [h])[..|hunks|] == hunks;
    forall added ensures CountKind(Edits(hunks + [h]), added) ==
              CountKind(Edits(hunks), added) + CountKind(HunkEdits(h), added)
    {
      CountKindAppend(Edits(hunks), HunkEdits(h), added);
    }
  }

  lemma RenderedOneMore(hunks: seq<Hunk>, h: Hunk)
    ensures Rendered(hunks + [h]) == Rendered(hunks) + Rendered([h])
  {
    RenderedAppend(hunks, [h]);
  }

  /** Fragments with known owners have different owner keys; `grouped` finds them. */
  ghost predicate Grouped(out: seq<Fragment>, grouped: map<string, nat>) {
    && (forall k :: k in grouped ==>
          grouped[k] < |out| && FragmentKey(out[grouped[k]].before, out[grouped[k]].after) == k)
    && (forall i :: 0 <= i < |out| ==>
          var k := FragmentKey(out[i].before, out[i].after);
          k in grouped && (k != "|" ==> grouped[k] == i))
  }

  // ---------- Whose edits a fragment holds ----------

  /** What belongs to the side of an edit. */
  function Side<T>(e: Edit, before: T, after: T): T {
    if e.added then after else before
  }

  /** `x` is the first element of a side around some edit of the hunk on that side. */
  ghost predicate Source(es: seq<Element>, h: Hunk, added: bool, x: Element) {
    exists e :: e in HunkEdits(h) && e.added == added && Owns(es, e.line, x)
  }

  /** The hunk only adds lines, or only removes some. */
  ghost predicate OneKind(h: Hunk) {
    forall d, e :: d in HunkEdits(h) && e in HunkEdits(h) ==> d.added == e.added
  }

  /** The first element around each edit is listed on its side. */
  ghost predicate ListsOwners(before: seq<Element>, after: seq<Element>, h: Hunk, olds: seq<Element>,
                              news: seq<Element>)
  {
    forall e, x :: e in HunkEdits(h) && Owns(Side(e, before, after), e.line, x) ==> Lists(Side(e, olds, news), x)
  }

  /** Where lines are only added or only removed, all have the one owner listed, or none. */
  ghost predicate OneOwner(before: seq<Element>, after: seq<Element>, h: Hunk, owners: seq<Element>) {
    OneKind(h) && owners != [] ==>
      |owners| == 1 && forall e :: e in HunkEdits(h) ==>
        exists x :: Owns(Side(e, before, after), e.line, x) && ElementID(x) == ElementID(owners[0])
  }

  /** Exactly the owners of the edits of some hunks are listed, on their sides. */
  ghost predicate Attributed(before: seq<Element>, after: seq<Element>, f: Fragment, hunks: seq<Hunk>) {
    forall h :: h in hunks ==>
      ListsOwners(before, after, h, f.before, f.after) && OneOwner(before, after, h, f.before + f.after)
  }

  /** Every element listed owns an edit on its side; none is listed twice, and they are
      sorted. */
  ghost predicate ListedFrom(es: seq<Element>, hunks: seq<Hunk>, added: bool, owners: seq<Element>) {
    && Distinct(owners) && Ordered(owners)
    && forall x :: x in owners ==> exists h :: h in hunks && Source(es, h, added, x)
  }

  /** What a fragment says of the change, and of the declarations it lists. */
  ghost predicate Labelled(d: Change, gaps: seq<string>, f: Fragment) {
    && f.path == (if d.isDeleted || d.newPath == "/dev/null" then d.oldPath else d.newPath)
    && f.oldPath == d.oldPath && f.gaps == gaps
    && f.status == (if d.isDeleted then "deleted" else if d.isNew then "added"
                    else if d.isRenamed then "renamed" else "")
    && f.symbols == Filter(NamesOf(f.after), Said)
  }

  /** Each fragment lists the owners of the hunks it was made from. */
  ghost predicate Assigned(d: Change, before: seq<Element>, after: seq<Element>, gaps: seq<string>,
                           out: seq<Fragment>, parts: seq<seq<Hunk>>)
  {
    && |out| == |parts|
    && forall i :: 0 <= i < |out| ==>
         && Labelled(d, gaps, out[i])
         && ListedFrom(before, parts[i], false, out[i].before) && ListedFrom(after, parts[i], true, out[i].after)
         && Keyed(before, after, out[i], parts[i])
  }

  /** What a part must say of its own owners. */
  ghost predicate PartOwned(before: seq<Element>, after: seq<Element>, h: Hunk, olds: seq<Element>,
                            news: seq<Element>)
  {
    && ListsOwners(before, after, h, olds, news)
    && ListedFrom(before, [h], false, olds) && ListedFrom(after, [h], true, news)
    && (Plain(before + after) ==> OneOwner(before, after, h, olds + news))
  }

  ghost predicate KeyedBy(before: seq<Element>, after: seq<Element>, h: Hunk, key: string) {
    exists olds, news :: PartOwned(before, after, h, olds, news) && FragmentKey(olds, news) == key
  }

  /** The owners of each hunk have the key of the fragment. */
  ghost predicate Keyed(before: seq<Element>, after: seq<Element>, f: Fragment, hunks: seq<Hunk>) {
    forall h :: h in hunks ==> KeyedBy(before, after, h, FragmentKey(f.before, f.after))
  }

  // ---------- From lines to edits ----------

  /** The edit that a changed line of a run makes. */
  ghost function EditAt(lines: seq<HunkLine>, start: nat, k: nat, oldLine: int, newLine: int): Edit
    requires start <= k < |lines|
  {
    var added := lines[k].kind == Added;
    Edit(added, if added then newLine + NewSpan(lines[start..k]) else oldLine + OldSpan(lines[start..k]),
         lines[k].content)
  }

  lemma {:induction false} EditLines(lines: seq<HunkLine>, start: nat, i: nat, oldLine: int, newLine: int, e: Edit)
    requires start <= i <= |lines|
    ensures e in EditsFrom(lines[start..i], oldLine, newLine)
        <==> exists k :: start <= k < i && Changed(lines[k]) && e == EditAt(lines, start, k, oldLine, newLine)
    decreases i
  {
    hide OldSpan, NewSpan;
    if i > start {
      var k := i - 1;
      EditLines(lines, start, k, oldLine, newLine, e);
      assert lines[start..i] == lines[start..k] + [lines[k]];
      EditsFromAppend(lines[start..k], [lines[k]], oldLine, newLine);
      EditOf(lines[k], oldLine + OldSpan(lines[start..k]), newLine + NewSpan(lines[start..k]));
    }
  }

  lemma EditOf(l: HunkLine, oldLine: int, newLine: int)
    ensures EditsFrom([l], oldLine, newLine)
         == if Changed(l) then [Edit(l.kind == Added, if l.kind == Added then newLine else oldLine, l.content)] else []
  {
    assert [l][1..] == [];
  }

  /** A run hands its owners on to the part made from it. */
  lemma RunOwned(lines: seq<HunkLine>, start: nat, i: nat, end: nat, mixed: bool, oldLine: int, newLine: int,
                 before: seq<Element>, after: seq<Element>, olds: seq<Element>, news: seq<Element>, part: Hunk)
    requires start < i <= end <= |lines| && forall k :: start <= k < end ==> Changed(lines[k])
    requires HunkEdits(part) == EditsFrom(lines[start..i], oldLine, newLine)
    requires Owned(lines, start, i, oldLine, newLine, before, after, olds, news)
    requires Sourced(lines, start, i, oldLine, newLine, before, after, true, olds)
    requires Sourced(lines, start, i, oldLine, newLine, before, after, false, news)
    requires mixed <==> (exists k :: start <= k < end && lines[k].kind == Added)
                        && (exists k :: start <= k < end && lines[k].kind == Deleted)
    requires mixed ==> i == end
    requires !mixed ==> forall k :: start <= k < i ==>
               KeyAt(lines, start, k, oldLine, newLine, before, after)
               == KeyAt(lines, start, start, oldLine, newLine, before, after)
    ensures PartOwned(before, after, part, SortElements(olds), SortElements(news))
  {
    hide OldSpan, NewSpan, EditsFrom, ElementID, Owns, Distinct, Ordered, Lists, Plain;
    hide SortElements;
    SortKeeps(olds);
    SortKeeps(news);
    SortDistinct(olds);
    SortDistinct(news);
    SortMembers(olds);
    SortMembers(news);
    RunLists(lines, start, i, oldLine, newLine, before, after, olds, news, part);
    RunSources(lines, start, i, oldLine, newLine, before, after, true, olds, part);
    RunSources(lines, start, i, oldLine, newLine, before, after, false, news, part);
    if Plain(before + after) {
      if mixed {
        MixedKinds(lines, start, i, oldLine, newLine, part);
      } else {
        RunOneOwner(lines, start, i, end, oldLine, newLine, before, after, olds, news, part);
      }
    }
  }

  lemma SortMembers(es: seq<Element>)
    ensures |SortElements(es)| == |es| && forall x :: x in SortElements(es) <==> x in es
  {
    SortKeeps(es);
    var r := SortElements(es);
    assert |multiset(r)| == |multiset(es)|;
    forall x ensures x in r <==> x in es {
      assert x in multiset(r) <==> x in multiset(es);
    }
  }

  /** The owner of a changed line is that of its edit. */
  lemma OwnerOfEdit(lines: seq<HunkLine>, start: nat, k: nat, oldLine: int, newLine: int, before: seq<Element>,
                    after: seq<Element>, x: Element)
    requires start <= k < |lines| && Changed(lines[k])
    ensures var e := EditAt(lines, start, k, oldLine, newLine);
      OwnerAt(lines, start, k, oldLine, newLine, before, after) == Some(x) <==>
        Owns(Side(e, before, after), e.line, x)
  {
    hide OldSpan, NewSpan, Owns;
    var e := EditAt(lines, start, k, oldLine, newLine);
    ElementAtOwns(Side(e, before, after), e.line, x);
  }

  lemma RunLists(lines: seq<HunkLine>, start: nat, i: nat, oldLine: int, newLine: int, before: seq<Element>,
                 after: seq<Element>, olds: seq<Element>, news: seq<Element>, part: Hunk)
    requires start <= i <= |lines| && HunkEdits(part) == EditsFrom(lines[start..i], oldLine, newLine)
    requires Owned(lines, start, i, oldLine, newLine, before, after, olds, news)
    ensures ListsOwners(before, after, part, SortElements(olds), SortElements(news))
  {
    hide OldSpan, NewSpan, EditsFrom, ElementID, Owns, Lists, SortElements, OwnerAt;
    SortDistinct(olds);
    SortDistinct(news);
    forall e, x | e in HunkEdits(part) && Owns(Side(e, before, after), e.line, x)
      ensures Lists(Side(e, olds, news), x)
    {
      EditLines(lines, start, i, oldLine, newLine, e);
      var k :| start <= k < i && Changed(lines[k]) && e == EditAt(lines, start, k, oldLine, newLine);
      OwnerOfEdit(lines, start, k, oldLine, newLine, before, after, x);
    }
  }

  lemma RunSources(lines: seq<HunkLine>, start: nat, i: nat, oldLine: int, newLine: int, before: seq<Element>,
                   after: seq<Element>, deleted: bool, owners: seq<Element>, part: Hunk)
    requires start <= i <= |lines| && HunkEdits(part) == EditsFrom(lines[start..i], oldLine, newLine)
    requires forall k :: start <= k < i ==> Changed(lines[k])
    requires Sourced(lines, start, i, oldLine, newLine, before, after, deleted, owners)
    ensures forall x :: x in owners ==> Source(if deleted then before else after, part, !deleted, x)
  {
    hide OldSpan, NewSpan, EditsFrom, Owns, Distinct, OwnerAt;
    forall x | x in owners ensures Source(if deleted then before else after, part, !deleted, x) {
      var k :| start <= k < i && (lines[k].kind == Deleted) == deleted
               && OwnerAt(lines, start, k, oldLine, newLine, before, after) == Some(x);
      var e := EditAt(lines, start, k, oldLine, newLine);
      OwnerOfEdit(lines, start, k, oldLine, newLine, before, after, x);
      EditLines(lines, start, i, oldLine, newLine, e);
      assert e in HunkEdits(part) && e.added == !deleted;
    }
  }

  lemma MixedKinds(lines: seq<HunkLine>, start: nat, i: nat, oldLine: int, newLine: int, part: Hunk)
    requires start <= i <= |lines| && HunkEdits(part) == EditsFrom(lines[start..i], oldLine, newLine)
    requires exists k :: start <= k < i && lines[k].kind == Added
    requires exists k :: start <= k < i && lines[k].kind == Deleted
    ensures !OneKind(part)
  {
    hide OldSpan, NewSpan, EditsFrom;
    var k :| start <= k < i && lines[k].kind == Added;
    var l :| start <= l < i && lines[l].kind == Deleted;
    var d, e := EditAt(lines, start, k, oldLine, newLine), EditAt(lines, start, l, oldLine, newLine);
    EditLines(lines, start, i, oldLine, newLine, d);
    EditLines(lines, start, i, oldLine, newLine, e);
    assert d in HunkEdits(part) && e in HunkEdits(part) && d.added != e.added;
  }

  /** A run of one kind has one owner, or none. */
  lemma RunOneOwner(lines: seq<HunkLine>, start: nat, i: nat, end: nat, oldLine: int, newLine: int,
                    before: seq<Element>, after: seq<Element>, olds: seq<Element>, news: seq<Element>, part: Hunk)
    requires start < i <= end <= |lines| && forall k :: start <= k < end ==> Changed(lines[k])
    requires HunkEdits(part) == EditsFrom(lines[start..i], oldLine, newLine)
    requires Sourced(lines, start, i, oldLine, newLine, before, after, true, olds)
    requires Sourced(lines, start, i, oldLine, newLine, before, after, false, news)
    requires forall k, l :: start <= k < end && start <= l < end ==> lines[k].kind == lines[l].kind
    requires forall k :: start <= k < i ==>
               KeyAt(lines, start, k, oldLine, newLine, before, after)
               == KeyAt(lines, start, start, oldLine, newLine, before, after)
    requires Plain(before + after)
    ensures OneOwner(before, after, part, SortElements(olds) + SortElements(news))
  {
    hide OldSpan, NewSpan, EditsFrom, ElementID, Owns, OwnerAt, SortElements, Lists, Distinct;
    SortMembers(olds);
    SortMembers(news);
    var key := KeyAt(lines, start, start, oldLine, newLine, before, after);
    var owners := SortElements(olds) + SortElements(news);
    forall x | x in olds || x in news ensures ElementID(x) == key && (x in before || x in after) {
      var k :| start <= k < i && OwnerAt(lines, start, k, oldLine, newLine, before, after) == Some(x);
      OwnerOfEdit(lines, start, k, oldLine, newLine, before, after, x);
      OwnsMember(before, after, EditAt(lines, start, k, oldLine, newLine), x);
      assert KeyAt(lines, start, k, oldLine, newLine, before, after) == key;
    }
    AtMostOne(olds, key);
    AtMostOne(news, key);
    forall x | x in olds ensures lines[start].kind == Deleted {
      var k :| start <= k < i && lines[k].kind == Deleted;
    }
    forall x | x in news ensures lines[start].kind != Deleted {
      var k :| start <= k < i && lines[k].kind != Deleted;
    }
    assert olds != [] ==> olds[0] in olds;
    assert news != [] ==> news[0] in news;
    if owners != [] {
      assert owners[0] in owners;
      assert owners[0] in olds || owners[0] in news;
      forall e | e in HunkEdits(part)
        ensures exists x :: Owns(Side(e, before, after), e.line, x) && ElementID(x) == ElementID(owners[0])
      {
        EditLines(lines, start, i, oldLine, newLine, e);
        var k :| start <= k < i && Changed(lines[k]) && e == EditAt(lines, start, k, oldLine, newLine);
        assert KeyAt(lines, start, k, oldLine, newLine, before, after) == key;
        var o := OwnerAt(lines, start, k, oldLine, newLine, before, after);
        assert o.Some?;
        OwnerOfEdit(lines, start, k, oldLine, newLine, before, after, o.value);
      }
    }
  }

  lemma OwnsMember(before: seq<Element>, after: seq<Element>, e: Edit, x: Element)
    requires Owns(Side(e, before, after), e.line, x)
    ensures x in before || x in after
  {}

  function NamesOf(es: seq<Element>): seq<string> {
    seq(|es|, i requires 0 <= i < |es| => es[i].name)
  }

  predicate Said(name: string) {
    name != ""
  }

  lemma {:induction false} SymbolsAre(es: seq<Element>)
    ensures SymbolsOf(es) == Filter(NamesOf(es), Said)
  {
    if es != [] {
      var front := es[..|es| - 1];
      SymbolsAre(front);
      assert NamesOf(es)[..|es| - 1] == NamesOf(front);
      SymbolsLast(es);
    }
  }

  lemma {:induction false} SymbolsLast(es: seq<Element>)
    requires es != []
    ensures var n := es[|es| - 1].name; SymbolsOf(es) == SymbolsOf(es[..|es| - 1]) + if n != "" then [n] else []
  {
    if |es| > 1 {
      SymbolsLast(es[1..]);
      assert es[1..][..|es| - 2] == es[..|es| - 1][1..];
    } else {
      assert es[1..] == [] && es[..0] == [];
    }
  }

  lemma ListedAmong(es: seq<Element>, hunks: seq<Hunk>, added: bool, owners: seq<Element>)
    requires ListedFrom(es, hunks, added, owners)
    ensures forall x :: x in owners ==> x in es
  {
    hide ElementID;
    forall x | x in owners ensures x in es {
      var h :| h in hunks && Source(es, h, added, x);
      var e :| e in HunkEdits(h) && e.added == added && Owns(es, e.line, x);
    }
  }

  /** Where owners can be told from their key, they are those the fragment lists. */
  lemma KeyedAttributes(before: seq<Element>, after: seq<Element>, f: Fragment, hunks: seq<Hunk>)
    requires Plain(before + after) && Keyed(before, after, f, hunks)
    requires ListedFrom(before, hunks, false, f.before) && ListedFrom(after, hunks, true, f.after)
    ensures Attributed(before, after, f, hunks)
  {
    ListedAmong(before, hunks, false, f.before);
    ListedAmong(after, hunks, true, f.after);
    hide Plain, PartOwned, ListedFrom, FragmentKey, ListsOwners, OneOwner;
    forall h | h in hunks
      ensures ListsOwners(before, after, h, f.before, f.after) && OneOwner(before, after, h, f.before + f.after)
    {
      var key := FragmentKey(f.before, f.after);
      var olds, news :| PartOwned(before, after, h, olds, news) && FragmentKey(olds, news) == key;
      SameOwners(before, after, f, h, olds, news);
    }
  }

  lemma SameOwners(before: seq<Element>, after: seq<Element>, f: Fragment, h: Hunk, olds: seq<Element>,
                   news: seq<Element>)
    requires Plain(before + after) && PartOwned(before, after, h, olds, news)
    requires (forall x :: x in f.before ==> x in before) && (forall x :: x in f.after ==> x in after)
    requires FragmentKey(olds, news) == FragmentKey(f.before, f.after)
    ensures ListsOwners(before, after, h, f.before, f.after) && OneOwner(before, after, h, f.before + f.after)
  {
    PartOwns(before, after, h, olds, news);
    hide Plain, PartOwned, ListsOwners, OneOwner, FragmentKey, ListedFrom, Ids;
    ListedAmong(before, [h], false, olds);
    ListedAmong(after, [h], true, news);
    assert forall x :: x in olds + news + f.before + f.after ==> x in before + after;
    KeysTell(before + after, olds, news, f.before, f.after);
    ListsByIds(before, after, h, olds, news, f.before, f.after);
    OneByIds(before, after, h, olds, news, f.before, f.after);
  }

  lemma PartOwns(before: seq<Element>, after: seq<Element>, part: Hunk, olds: seq<Element>, news: seq<Element>)
    requires Plain(before + after) && PartOwned(before, after, part, olds, news)
    ensures ListsOwners(before, after, part, olds, news) && OneOwner(before, after, part, olds + news)
    ensures ListedFrom(before, [part], false, olds) && ListedFrom(after, [part], true, news)
  {}

  lemma ListsByIds(before: seq<Element>, after: seq<Element>, part: Hunk, olds: seq<Element>, news: seq<Element>,
                   olds': seq<Element>, news': seq<Element>)
    requires ListsOwners(before, after, part, olds, news) && Ids(olds) == Ids(olds') && Ids(news) == Ids(news')
    ensures ListsOwners(before, after, part, olds', news')
  {
    SameIds(olds, olds');
    SameIds(news, news');
    hide Ids, ElementID, HunkEdits, Owns, Lists;
  }

  lemma OneByIds(before: seq<Element>, after: seq<Element>, part: Hunk, olds: seq<Element>, news: seq<Element>,
                 olds': seq<Element>, news': seq<Element>)
    requires OneOwner(before, after, part, olds + news) && Ids(olds) == Ids(olds') && Ids(news) == Ids(news')
    ensures OneOwner(before, after, part, olds' + news')
  {
    SameIds(olds, olds');
    SameIds(news, news');
    hide Ids, ElementID, HunkEdits, Owns, OneKind;
    var all, all' := olds + news, olds' + news';
    assert |all| == |all'| && (all != [] ==> ElementID(all[0]) == ElementID(all'[0]));
  }

  lemma ListedMore(es: seq<Element>, hunks: seq<Hunk>, part: Hunk, added: bool, owners: seq<Element>)
    requires ListedFrom(es, hunks, added, owners)
    ensures ListedFrom(es, hunks + [part], added, owners)
  {
    hide Source, Distinct, Ordered;
    forall x | x in owners ensures exists h :: h in hunks + [part] && Source(es, h, added, x) {
      var h :| h in hunks && Source(es, h, added, x);
      assert h in hunks + [part];
    }
  }

  function SymbolsOf(es: seq<Element>): seq<string> {
    if es == [] then [] else (if es[0].name != "" then [es[0].name] else []) + SymbolsOf(es[1..])
  }

  method AddPart(d: Change, gaps: seq<string>, part: Hunk, before: seq<Element>, after: seq<Element>,
                 out0: seq<Fragment>, grouped0: map<string, nat>, ghost parts0: seq<seq<Hunk>>,
                 ghost olds: seq<Element>, ghost news: seq<Element>)
    returns (out: seq<Fragment>, grouped: map<string, nat>, ghost parts: seq<seq<Hunk>>)
    requires Built(d, out0, parts0) && Grouped(out0, grouped0) && Assigned(d, olds, news, gaps, out0, parts0)
    requires PartOwned(olds, news, part, before, after)
    requires WellFormed(part) && (Numbered(Hunks(d.diff)) ==> Printable(part))
    ensures Built(d, out, parts) && Grouped(out, grouped) && out != [] && Assigned(d, olds, news, gaps, out, parts)
    ensures Total(parts) == Total(parts0) + multiset(HunkEdits(part))
  {
    hide Rendered, Edits, EditsFrom, Hunks, CountKind, DiffHeader, ElementKey, WellFormed, Printable, Total, Assigned,
         PartOwned;
    var key := FragmentKey(before, after);
    var insertions, deletions := CountChanges(part);
    var text := RenderHunks([part]);
    if key in grouped0 && key != "|" {
      var i := grouped0[key];
      var f := out0[i];
      RenderedOneMore(parts0[i], part);
      EditsOneMore(parts0[i], part);
      assert DiffHeader(d.diff) + Rendered(parts0[i]) + Rendered([part])
          == DiffHeader(d.diff) + (Rendered(parts0[i]) + Rendered([part]));
      TotalUpdate(parts0, i, part);
      AssignedMore(d, olds, news, gaps, out0, parts0, i, part, before, after,
                   f.(diff := f.diff + text, insertions := f.insertions + insertions,
                      deletions := f.deletions + deletions));
      out := out0[i := f.(diff := f.diff + text, insertions := f.insertions + insertions,
                          deletions := f.deletions + deletions)];
      parts := parts0[i := parts0[i] + [part]];
      grouped := grouped0;
    } else {
      EditsOneMore([], part);
      assert [] + [part] == [part];
      NoEdits();
      TotalAppend(parts0, part);
      var f := Fragment(ChangePath(d), d.oldPath, before, after, gaps, SymbolsOf(after), DiffHeader(d.diff) + text,
                        Status(d), insertions, deletions);
      AssignedNew(d, olds, news, gaps, out0, parts0, part, f);
      grouped := grouped0[key := |out0|];
      out := out0 + [f];
      parts := parts0 + [[part]];
    }
  }

  lemma NoEdits()
    ensures Edits([]) == [] && forall added :: CountKind([], added) == 0
  {
  }

  lemma TotalAppend(parts: seq<seq<Hunk>>, h: Hunk)
    ensures Total(parts + [[h]]) == Total(parts) + multiset(HunkEdits(h))
  {
    EditsOneMore([], h);
    assert [] + [h] == [h];
    assert (parts + [[h]])[..|parts|] == parts;
  }

  lemma AssignedMore(d: Change, olds: seq<Element>, news: seq<Element>, gaps: seq<string>, out: seq<Fragment>,
                     parts: seq<seq<Hunk>>, i: nat, part: Hunk, before: seq<Element>, after: seq<Element>, f: Fragment)
    requires Assigned(d, olds, news, gaps, out, parts) && i < |out| && PartOwned(olds, news, part, before, after)
    requires f == out[i].(diff := f.diff, insertions := f.insertions, deletions := f.deletions)
    requires FragmentKey(before, after) == FragmentKey(f.before, f.after)
    ensures |parts| == |out| && Assigned(d, olds, news, gaps, out[i := f], parts[i := parts[i] + [part]])
  {
    hide ListedFrom, Labelled, PartOwned, FragmentKey;
    ListedMore(olds, parts[i], part, false, f.before);
    ListedMore(news, parts[i], part, true, f.after);
    LabelledSame(d, gaps, out[i], f);
    assert KeyedBy(olds, news, part, FragmentKey(f.before, f.after));
    assert Keyed(olds, news, f, parts[i] + [part]) by { KeyedMore(olds, news, out[i], f, parts[i], part); }
    hide Keyed;
  }

  lemma LabelledSame(d: Change, gaps: seq<string>, f: Fragment, f': Fragment)
    requires Labelled(d, gaps, f) && f' == f.(diff := f'.diff, insertions := f'.insertions, deletions := f'.deletions)
    ensures Labelled(d, gaps, f')
  {}

  lemma KeyedMore(before: seq<Element>, after: seq<Element>, f: Fragment, f': Fragment, hunks: seq<Hunk>, part: Hunk)
    requires Keyed(before, after, f, hunks) && f'.before == f.before && f'.after == f.after
    requires KeyedBy(before, after, part, FragmentKey(f.before, f.after))
    ensures Keyed(before, after, f', hunks + [part])
  {
    hide KeyedBy;
  }

  lemma AssignedNew(d: Change, olds: seq<Element>, news: seq<Element>, gaps: seq<string>, out: seq<Fragment>,
                    parts: seq<seq<Hunk>>, part: Hunk, f: Fragment)
    requires Assigned(d, olds, news, gaps, out, parts) && PartOwned(olds, news, part, f.before, f.after)
    requires f.path == ChangePath(d) && f.oldPath == d.oldPath && f.gaps == gaps && f.status == Status(d)
    requires f.symbols == SymbolsOf(f.after)
    ensures Assigned(d, olds, news, gaps, out + [f], parts + [[part]])
  {
    SymbolsAre(f.after);
    hide ListedFrom, ListsOwners, OneOwner, Plain, SymbolsOf;
    assert Labelled(d, gaps, f);
    assert KeyedBy(olds, news, part, FragmentKey(f.before, f.after));
    assert Keyed(olds, news, f, [part]);
    hide Labelled, Keyed, PartOwned;
    var fs, hs := out + [f], parts + [[part]];
    assert forall i :: 0 <= i < |out| ==> fs[i] == out[i] && hs[i] == parts[i];
  }

  /** What a parser leaves in a hunk: lines without newlines, starts that fit an `int`. */
  ghost predicate Readable(h: Hunk) {
    InInt(h.oldStart) && InInt(h.newStart) && forall l :: l in h.lines ==> '\n' !in l.content
  }

  lemma {:induction false} ParsedReadable(p: Parser, lines: seq<string>)
    requires forall h :: h in Flush(p) ==> Readable(h)
    requires forall l :: l in lines ==> '\n' !in l
    ensures forall h :: h in Flush(Steps(p, lines)) ==> Readable(h)
    decreases lines
  {
    hide MatchHeader, HeaderHunk;
    if lines != [] {
      StepReadable(p, lines[0]);
      ParsedReadable(Step(p, lines[0]), lines[1..]);
    }
  }

  lemma HeaderReadable(m: Header)
    requires AllDigits(m.oldStart) && AllDigits(m.oldCount) && AllDigits(m.newStart) && AllDigits(m.newCount)
    ensures Readable(HeaderHunk(m))
  {
  }

  lemma StepReadable(p: Parser, line: string)
    requires forall h :: h in Flush(p) ==> Readable(h)
    requires '\n' !in line
    ensures forall h :: h in Flush(Step(p, line)) ==> Readable(h)
  {
    hide MatchHeader, HeaderHunk;
    assert forall h :: h in p.done ==> h in Flush(p);
    if p.current.Some? {
      assert Flush(p)[|p.done|] == p.current.value;
      assert Readable(p.current.value);
    }
    assert '\n' !in ReadLine(line).content;
    if MatchHeader(line).Some? {
      MatchHeaderExact(line, MatchHeader(line).value);
      HeaderReadable(MatchHeader(line).value);
    }
  }

  /** Parts of a readable, numbered hunk can be printed. */
  lemma PartPrintable(h: Hunk, start: nat, i: nat, a: nat, b: nat, part: Hunk)
    requires start <= i <= |h.lines| && Readable(h) && WellFormed(part)
    requires h.oldStart + OldSpan(h.lines) <= MAX_INT && h.newStart + NewSpan(h.lines) <= MAX_INT
    requires PartOf(h.lines, start, i, h.oldStart + OldSpan(h.lines[..start]), h.newStart + NewSpan(h.lines[..start]),
                    a, b, part)
    ensures Printable(part)
  {
    hide OldSpan, NewSpan;
    var lead, rest, tail := h.lines[..start - a], h.lines[start - a..start], h.lines[i + b..];
    assert h.lines[..start] == lead + rest;
    SpanAppend(lead, rest);
    ContextEdits(rest, 0, 0);
    assert h.lines == lead + (part.lines + tail);
    SpanAppend(lead, part.lines + tail);
    SpanAppend(part.lines, tail);
  }

  // ---------- The split ----------

  ghost function Diffs(fs: seq<Fragment>): seq<string> {
    if fs == [] then [] else Diffs(fs[..|fs| - 1]) + [fs[|fs| - 1].diff]
  }

  lemma NextLine(h: Hunk, i: nat)
    requires i < |h.lines|
    ensures OldSpan(h.lines[..i + 1]) == OldSpan(h.lines[..i]) + if h.lines[i].kind == Added then 0 else 1
    ensures NewSpan(h.lines[..i + 1]) == NewSpan(h.lines[..i]) + if h.lines[i].kind == Deleted then 0 else 1
    ensures !Changed(h.lines[i]) ==>
              EditsFrom(h.lines[..i + 1], h.oldStart, h.newStart) == EditsFrom(h.lines[..i], h.oldStart, h.newStart)
  {
    SpanNext(h.lines, 0, i);
    assert h.lines[0..i] == h.lines[..i] && h.lines[0..i + 1] == h.lines[..i + 1] == h.lines[..i] + [h.lines[i]];
    EditsFromAppend(h.lines[..i], [h.lines[i]], h.oldStart, h.newStart);
    assert [h.lines[i]][1..] == [];
  }

  lemma NextRun(h: Hunk, start: nat, i: nat)
    requires start <= i <= |h.lines|
    ensures OldSpan(h.lines[..i]) == OldSpan(h.lines[..start]) + OldSpan(h.lines[start..i])
    ensures NewSpan(h.lines[..i]) == NewSpan(h.lines[..start]) + NewSpan(h.lines[start..i])
    ensures EditsFrom(h.lines[..i], h.oldStart, h.newStart) == EditsFrom(h.lines[..start], h.oldStart, h.newStart)
            + EditsFrom(h.lines[start..i], h.oldStart + OldSpan(h.lines[..start]),
                        h.newStart + NewSpan(h.lines[..start]))
  {
    assert h.lines[..i] == h.lines[..start] + h.lines[start..i];
    SpanAppend(h.lines[..start], h.lines[start..i]);
    EditsFromAppend(h.lines[..start], h.lines[start..i], h.oldStart, h.newStart);
  }

  method SplitHunk(d: Change, h: Hunk, before: seq<Element>, after: seq<Element>, gaps: seq<string>,
                   out0: seq<Fragment>, grouped0: map<string, nat>, ghost parts0: seq<seq<Hunk>>)
    returns (out: seq<Fragment>, grouped: map<string, nat>, ghost parts: seq<seq<Hunk>>)
    requires Built(d, out0, parts0) && Grouped(out0, grouped0) && h in Hunks(d.diff)
    requires Assigned(d, before, after, gaps, out0, parts0)
    ensures Built(d, out, parts) && Grouped(out, grouped) && Assigned(d, before, after, gaps, out, parts)
    ensures Total(parts) == Total(parts0) + multiset(HunkEdits(h))
  {
    hide *;
    out, grouped, parts := out0, grouped0, parts0;
    var oldLine, newLine := h.oldStart, h.newStart;
    var i := 0;
    NoLines(h);
    while i < |h.lines|
      invariant i <= |h.lines| && Built(d, out, parts) && Grouped(out, grouped)
      invariant Assigned(d, before, after, gaps, out, parts)
      invariant oldLine == h.oldStart + OldSpan(h.lines[..i]) && newLine == h.newStart + NewSpan(h.lines[..i])
      invariant Total(parts) == Total(parts0) + multiset(EditsFrom(h.lines[..i], h.oldStart, h.newStart))
      decreases |h.lines| - i
    {
      if !Changed(h.lines[i]) {
        NextLine(h, i);
        ContextLine(h.lines[i]);
        oldLine, newLine, i := oldLine + 1, newLine + 1, i + 1;
      } else {
        var start := i;
        var oldStart, newStart := oldLine, newLine;
        var oldOwners, newOwners, end, mixed;
        i, oldLine, newLine, oldOwners, newOwners, end, mixed :=
          TakeRun(h.lines, start, oldStart, newStart, before, after);
        ghost var a, b;
        var part;
        part, a, b := Surround(h.lines, start, i, oldStart, newStart, oldLine, newLine);
        PartKeepsEdits(h.lines, start, i, oldStart, newStart, a, b, part);
        PartFits(d, h, start, i, a, b, part);
        NextRun(h, start, i);
        RunOwned(h.lines, start, i, end, mixed, oldStart, newStart, before, after, oldOwners, newOwners, part);
        out, grouped, parts := AddPart(d, gaps, part, SortElements(oldOwners), SortElements(newOwners), out, grouped,
                                       parts, before, after);
      }
    }
    assert h.lines[..|h.lines|] == h.lines;
    WholeHunk(h);
  }

  lemma NoLines(h: Hunk)
    ensures OldSpan(h.lines[..0]) == 0 && NewSpan(h.lines[..0]) == 0
    ensures EditsFrom(h.lines[..0], h.oldStart, h.newStart) == []
  {
  }

  lemma ContextLine(l: HunkLine)
    requires !Changed(l)
    ensures l.kind == Context
  {
  }

  lemma WholeHunk(h: Hunk)
    ensures EditsFrom(h.lines, h.oldStart, h.newStart) == HunkEdits(h)
  {
  }

  lemma PartFits(d: Change, h: Hunk, start: nat, i: nat, a: nat, b: nat, part: Hunk)
    requires start <= i <= |h.lines| && h in Hunks(d.diff)
    requires PartOf(h.lines, start, i, h.oldStart + OldSpan(h.lines[..start]), h.newStart + NewSpan(h.lines[..start]),
                    a, b, part)
    ensures Numbered(Hunks(d.diff)) ==> Printable(part)
  {
    hide PartOf, Steps, SplitLines;
    ParsedReadable(START, SplitLines(d.diff));
    if Numbered(Hunks(d.diff)) {
      PartKeepsEdits(h.lines, start, i, h.oldStart + OldSpan(h.lines[..start]),
                     h.newStart + NewSpan(h.lines[..start]), a, b, part);
      PartPrintable(h, start, i, a, b, part);
    }
  }

  /** Every edit of the change stands in the fragments exactly as often as in the
      diff and at the same coordinates; fragments with known owners never share
      their owners; headers and counts describe the lines they introduce. */
  method SplitChange(d: Change, before: seq<Element>, after: seq<Element>, gaps: seq<string>)
    returns (out: seq<Fragment>)
    ensures out != []
    ensures Numbered(Hunks(d.diff)) ==>
              multiset(TextEdits(Diffs(out))) == multiset(Edits(Hunks(d.diff)))
    ensures Numbered(Hunks(d.diff)) && Edits(Hunks(d.diff)) != [] ==>
              forall f :: f in out ==> Faithful(f)
    ensures forall i, j :: 0 <= i < j < |out| ==>
              FragmentKey(out[i].before, out[i].after) == "|"
              || FragmentKey(out[i].before, out[i].after) != FragmentKey(out[j].before, out[j].after)
    ensures forall f :: f in out ==> Labelled(d, gaps, f) && DiffHeader(d.diff) <= f.diff
    ensures Numbered(Hunks(d.diff)) ==> forall f :: f in out ==> OwnsItsEdits(before, after, f)
  {
    hide *;
    var hunks := ParseHunks(d.diff);
    out := [];
    var grouped: map<string, nat> := map[];
    ghost var parts: seq<seq<Hunk>> := [];
    NothingBuilt(d);
    for k := 0 to |hunks|
      invariant Built(d, out, parts) && Grouped(out, grouped) && Assigned(d, before, after, gaps, out, parts)
      invariant Total(parts) == multiset(Edits(hunks[..k]))
      invariant k == 0 ==> out == []
    {
      assert hunks[k] in hunks;
      NextHunk(hunks, k);
      out, grouped, parts := SplitHunk(d, hunks[k], before, after, gaps, out, grouped, parts);
    }
    assert hunks[..|hunks|] == hunks;
    KeysDiffer(out, grouped);
    if out == [] {
      NoParts(d, out, parts);
      out := [Fragment(ChangePath(d), d.oldPath, [], [], gaps, [], d.diff, Status(d), d.insertions, d.deletions)];
      OneDiff(out[0]);
      WholeOwned(d, before, after, gaps, out[0]);
    } else {
      Conserved(d, out, parts);
      AllLabelled(d, before, after, gaps, out, parts);
    }
  }

  /** Read back, a fragment lists the owners of its own edits: only owners, sorted and once,
      with the key of each hunk's own; where owners can be told from keys, every one. */
  ghost predicate OwnsItsEdits(before: seq<Element>, after: seq<Element>, f: Fragment) {
    var hunks := Hunks(f.diff);
    && ListedFrom(before, hunks, false, f.before) && ListedFrom(after, hunks, true, f.after)
    && Keyed(before, after, f, hunks) && (Plain(before + after) ==> Attributed(before, after, f, hunks))
  }

  lemma WholeOwned(d: Change, before: seq<Element>, after: seq<Element>, gaps: seq<string>, f: Fragment)
    requires Edits(Hunks(d.diff)) == []
    requires f == Fragment(ChangePath(d), d.oldPath, [], [], gaps, [], d.diff, Status(d), d.insertions, d.deletions)
    ensures Labelled(d, gaps, f) && OwnsItsEdits(before, after, f) && DiffHeader(d.diff) <= f.diff
  {
    HeaderIsFront(d.diff);
    hide Hunks, Edits, Plain, Owns;
    forall h | h in Hunks(d.diff) ensures HunkEdits(h) == [] && KeyedBy(before, after, h, FragmentKey([], [])) {
      HunkHasEdits(Hunks(d.diff), h);
      assert PartOwned(before, after, h, [], []);
    }
  }

  lemma {:induction false} HunkHasEdits(hunks: seq<Hunk>, h: Hunk)
    requires h in hunks && Edits(hunks) == []
    ensures HunkEdits(h) == []
  {
    var n := |hunks| - 1;
    assert Edits(hunks) == Edits(hunks[..n]) + HunkEdits(hunks[n]);
    if h != hunks[n] {
      HunkHasEdits(hunks[..n], h);
    }
  }

  lemma AllHeaded(d: Change, out: seq<Fragment>, parts: seq<seq<Hunk>>)
    requires Built(d, out, parts)
    ensures forall f :: f in out ==> DiffHeader(d.diff) <= f.diff
  {
    hide DiffHeader, Rendered, Edits, CountKind, Hunks;
    forall f | f in out ensures DiffHeader(d.diff) <= f.diff {
      var i :| 0 <= i < |out| && out[i] == f;
      assert Shows(d, out[i], parts[i]);
    }
  }

  lemma AllLabelled(d: Change, before: seq<Element>, after: seq<Element>, gaps: seq<string>, out: seq<Fragment>,
                    parts: seq<seq<Hunk>>)
    requires Assigned(d, before, after, gaps, out, parts) && Built(d, out, parts) && Hunks(d.diff) != []
    ensures forall f :: f in out ==> Labelled(d, gaps, f) && DiffHeader(d.diff) <= f.diff
    ensures Numbered(Hunks(d.diff)) ==> forall f :: f in out ==> OwnsItsEdits(before, after, f)
  {
    AllHeaded(d, out, parts);
    hide Built, Hunks, Labelled, ListedFrom, Attributed, Keyed, Plain, Numbered, Faithful;
    if Numbered(Hunks(d.diff)) {
      HunksCloseHeader(d.diff);
      forall f | f in out ensures OwnsItsEdits(before, after, f) {
        var i :| 0 <= i < |out| && out[i] == f;
        ReadsBack(d, out, parts, i);
        if Plain(before + after) {
          KeyedAttributes(before, after, f, parts[i]);
        }
      }
    }
  }

  /** A fragment whose headers and counts describe its own lines. */
  ghost predicate Faithful(f: Fragment) {
    && Hunks(f.diff) != [] && (forall h :: h in Hunks(f.diff) ==> WellFormed(h))
    && f.insertions == CountKind(Edits(Hunks(f.diff)), true)
    && f.deletions == CountKind(Edits(Hunks(f.diff)), false)
  }

  lemma NothingBuilt(d: Change)
    ensures Built(d, [], []) && Grouped([], map[]) && Total([]) == multiset(Edits([]))
    ensures forall before, after, gaps :: Assigned(d, before, after, gaps, [], [])
  {
  }

  lemma NextHunk(hunks: seq<Hunk>, k: nat)
    requires k < |hunks|
    ensures multiset(Edits(hunks[..k + 1])) == multiset(Edits(hunks[..k])) + multiset(HunkEdits(hunks[k]))
    ensures Edits(hunks[..0]) == []
  {
    assert hunks[..k + 1] == hunks[..k] + [hunks[k]];
    EditsOneMore(hunks[..k], hunks[k]);
  }

  lemma KeysDiffer(out: seq<Fragment>, grouped: map<string, nat>)
    requires Grouped(out, grouped)
    ensures forall i, j :: 0 <= i < j < |out| ==>
              FragmentKey(out[i].before, out[i].after) == "|"
              || FragmentKey(out[i].before, out[i].after) != FragmentKey(out[j].before, out[j].after)
  {
    hide ElementKey;
  }

  lemma NoParts(d: Change, out: seq<Fragment>, parts: seq<seq<Hunk>>)
    requires Built(d, out, parts) && out == [] && Total(parts) == multiset(Edits(Hunks(d.diff)))
    ensures Edits(Hunks(d.diff)) == []
  {
    hide Edits, Hunks;
    var edits := Edits(Hunks(d.diff));
    assert |multiset(edits)| == |edits|;
  }

  lemma OneDiff(f: Fragment)
    ensures TextEdits(Diffs([f])) == Edits(Hunks(f.diff))
  {
    hide Edits, Hunks;
    assert [f][..0] == [] && Diffs([f]) == [f.diff] && [f.diff][..0] == [];
  }

  /** Reading the fragments back gives the parts they were made from. */
  lemma Conserved(d: Change, out: seq<Fragment>, parts: seq<seq<Hunk>>)
    requires Built(d, out, parts) && Total(parts) == multiset(Edits(Hunks(d.diff))) && Hunks(d.diff) != []
    ensures Numbered(Hunks(d.diff)) ==> multiset(TextEdits(Diffs(out))) == multiset(Edits(Hunks(d.diff)))
    ensures Numbered(Hunks(d.diff)) ==> forall f :: f in out ==> Faithful(f)
  {
    hide *;
    if Numbered(Hunks(d.diff)) {
      HunksCloseHeader(d.diff);
      forall i | 0 <= i < |out|
        ensures i < |parts| && Hunks(out[i].diff) == parts[i] && Faithful(out[i])
      {
        ReadsBack(d, out, parts, i);
      }
      BuiltSizes(d, out, parts);
      TotalIsText(out, parts);
    }
  }

  lemma BuiltSizes(d: Change, out: seq<Fragment>, parts: seq<seq<Hunk>>)
    requires Built(d, out, parts)
    ensures |out| == |parts|
  {
  }

  lemma ReadsBack(d: Change, out: seq<Fragment>, parts: seq<seq<Hunk>>, i: nat)
    requires Built(d, out, parts) && Numbered(Hunks(d.diff)) && Closed(DiffHeader(d.diff)) && i < |out|
    ensures i < |parts| && Hunks(out[i].diff) == parts[i] && Faithful(out[i])
  {
    hide Hunks, DiffHeader, Rendered, Writable, WellFormed, CountKind, Numbered;
    forall h | h in parts[i] ensures Printable(h) && Writable(h) {
      assert i < |parts|;
    }
    ClosedRoundTrip(d.diff, parts[i]);
  }

  lemma {:induction false} TotalIsText(out: seq<Fragment>, parts: seq<seq<Hunk>>)
    requires |out| == |parts| && forall i :: 0 <= i < |out| ==> Hunks(out[i].diff) == parts[i]
    ensures multiset(TextEdits(Diffs(out))) == Total(parts)
  {
    hide Hunks, Edits;
    if out != [] {
      var n := |out| - 1;
      TotalIsText(out[..n], parts[..n]);
      var texts := Diffs(out);
      assert texts[..|texts| - 1] == Diffs(out[..n]);
    }
  }

  /** `Split`: the validation of its own fragments never rejects them. */
  method Split(d: Change, before: seq<Element>, after: seq<Element>, gaps: seq<string>)
    returns (r: Option<seq<Fragment>>)
    ensures Numbered(Hunks(d.diff)) ==> r.Some?
    ensures r.Some? ==> multiset(TextEdits(Diffs(r.value))) == multiset(Edits(Hunks(d.diff)))
    ensures r.Some? ==> forall f :: f in r.value ==> Labelled(d, gaps, f) && DiffHeader(d.diff) <= f.diff
    ensures r.Some? && Numbered(Hunks(d.diff)) ==> forall f :: f in r.value ==> OwnsItsEdits(before, after, f)
    ensures r.Some? ==> forall added ::
      multiset(Numbers(TextEdits(Diffs(r.value)), added)) == multiset(Numbers(Edits(Hunks(d.diff)), added))
  {
    hide *;
    var fs := SplitChange(d, before, after, gaps);
    var texts: seq<string> := [];
    NoDiffs();
    for i := 0 to |fs|
      invariant texts == Diffs(fs[..i])
    {
      OneMoreDiff(fs, i);
      texts := texts + [fs[i].diff];
    }
    assert fs[..|fs|] == fs;
    var ok := ValidateEdits(d.diff, texts);
    if !ok {
      return None;
    }
    forall added ensures multiset(Numbers(TextEdits(texts), added)) == multiset(Numbers(Edits(Hunks(d.diff)), added)) {
      SameEditsSameLines(TextEdits(texts), Edits(Hunks(d.diff)), added);
    }
    return Some(fs);
  }

  lemma NoDiffs()
    ensures Diffs([]) == []
  {
  }

  lemma OneMoreDiff(fs: seq<Fragment>, i: nat)
    requires i < |fs|
    ensures Diffs(fs[..i + 1]) == Diffs(fs[..i]) + [fs[i].diff]
  {
    assert fs[..i + 1][..i] == fs[..i];
  }
}
