/** The edits a diff text makes, with their coordinates, and the check that a set
    of fragments makes exactly the edits of the change they were cut from. */
module DiffEdits {
  import opened Decimal
  import opened DiffText

  /** One added or removed line, numbered on its own side. */
  datatype Edit = Edit(added: bool, line: int, content: string)

  function EditsFrom(lines: seq<HunkLine>, oldLine: int, newLine: int): seq<Edit>
    decreases lines
  {
    if lines == [] then []
    else
      var l := lines[0];
      match l.kind
      case Added => [Edit(true, newLine, l.content)] + EditsFrom(lines[1..], oldLine, newLine + 1)
      case Deleted => [Edit(false, oldLine, l.content)] + EditsFrom(lines[1..], oldLine + 1, newLine)
      case Context => EditsFrom(lines[1..], oldLine + 1, newLine + 1)
  }

  function HunkEdits(h: Hunk): seq<Edit> {
    EditsFrom(h.lines, h.oldStart, h.newStart)
  }

  function Edits(hunks: seq<Hunk>): seq<Edit> {
    if hunks == [] then [] else Edits(hunks[..|hunks| - 1]) + HunkEdits(hunks[|hunks| - 1])
  }

  /** All edits of several diff texts. */
  function TextEdits(texts: seq<string>): seq<Edit> {
    if texts == [] then [] else TextEdits(texts[..|texts| - 1]) + Edits(Hunks(texts[|texts| - 1]))
  }

  /** Lines a hunk body takes up in the old and the new file. */
  function OldSpan(lines: seq<HunkLine>): nat {
    if lines == [] then 0 else OldSpan(lines[1..]) + if lines[0].kind == Added then 0 else 1
  }

  function NewSpan(lines: seq<HunkLine>): nat {
    if lines == [] then 0 else NewSpan(lines[1..]) + if lines[0].kind == Deleted then 0 else 1
  }

  lemma {:induction false} SpanAppend(a: seq<HunkLine>, b: seq<HunkLine>)
    ensures OldSpan(a + b) == OldSpan(a) + OldSpan(b)
    ensures NewSpan(a + b) == NewSpan(a) + NewSpan(b)
  {
    if a == [] {
      assert a + b == b;
    } else {
      SpanAppend(a[1..], b);
      assert (a + b)[1..] == a[1..] + b;
    }
  }

  lemma {:induction false} EditsFromAppend(a: seq<HunkLine>, b: seq<HunkLine>, oldLine: int, newLine: int)
    ensures EditsFrom(a + b, oldLine, newLine) ==
            EditsFrom(a, oldLine, newLine) + EditsFrom(b, oldLine + OldSpan(a), newLine + NewSpan(a))
    decreases a
  {
    if a == [] {
      assert a + b == b;
    } else {
      assert (a + b)[1..] == a[1..] + b;
      var oldNext := if a[0].kind == Added then oldLine else oldLine + 1;
      var newNext := if a[0].kind == Deleted then newLine else newLine + 1;
      EditsFromAppend(a[1..], b, oldNext, newNext);
    }
  }

  lemma {:induction false} EditsAppend(a: seq<Hunk>, b: seq<Hunk>)
    ensures Edits(a + b) == Edits(a) + Edits(b)
  {
    if b == [] {
      assert a + b == a;
    } else {
      assert (a + b)[..|a + b| - 1] == a + b[..|b| - 1];
      EditsAppend(a, b[..|b| - 1]);
    }
  }

  // ---------- Keys ----------

  /** The key the check counts edits by. */
  function EditKey(e: Edit): string {
    (if e.added then "+" else "-") + PrintInt(e.line) + ":" + e.content
  }

  lemma EditKeyInjective(a: Edit, b: Edit)
    requires EditKey(a) == EditKey(b)
    ensures a == b
  {
    hide EditKey, PrintInt;
    var s, t := ":" + a.content, ":" + b.content;
    EditKeyParts(a);
    EditKeyParts(b);
    PrintIntInjective(a.line, b.line, s, t);
    assert s[1..] == a.content && t[1..] == b.content;
  }

  lemma EditKeyParts(e: Edit)
    ensures var key := EditKey(e);
      key != "" && key[0] == (if e.added then '+' else '-') && key[1..] == PrintInt(e.line) + (":" + e.content)
  {
    hide PrintInt;
  }

  function Keys(edits: seq<Edit>): seq<string> {
    if edits == [] then [] else Keys(edits[..|edits| - 1]) + [EditKey(edits[|edits| - 1])]
  }

  lemma {:induction false} KeysAppend(a: seq<Edit>, b: seq<Edit>)
    ensures Keys(a + b) == Keys(a) + Keys(b)
  {
    if b == [] {
      assert a + b == a;
    } else {
      assert (a + b)[..|a + b| - 1] == a + b[..|b| - 1];
      KeysAppend(a, b[..|b| - 1]);
    }
  }

  /** Counting keys is counting edits. */
  lemma {:induction false} KeysCountEdits(edits: seq<Edit>, e: Edit)
    ensures multiset(Keys(edits))[EditKey(e)] == multiset(edits)[e]
  {
    if edits != [] {
      var init, last := edits[..|edits| - 1], edits[|edits| - 1];
      assert edits == init + [last];
      KeysCountEdits(init, e);
      if EditKey(last) == EditKey(e) {
        EditKeyInjective(last, e);
      }
    }
  }

  lemma {:induction false} KeyHasEdit(edits: seq<Edit>, k: string) returns (e: Edit)
    requires k in Keys(edits)
    ensures e in edits && EditKey(e) == k
  {
    var init, last := edits[..|edits| - 1], edits[|edits| - 1];
    if EditKey(last) == k {
      e := last;
    } else {
      e := KeyHasEdit(init, k);
    }
  }

  lemma KeysDecide(a: seq<Edit>, b: seq<Edit>)
    ensures multiset(Keys(a)) == multiset(Keys(b)) <==> multiset(a) == multiset(b)
  {
    if multiset(Keys(a)) == multiset(Keys(b)) {
      forall e ensures multiset(a)[e] == multiset(b)[e] {
        KeysCountEdits(a, e);
        KeysCountEdits(b, e);
      }
    }
    if multiset(a) == multiset(b) {
      forall k ensures multiset(Keys(a))[k] == multiset(Keys(b))[k] {
        if k in Keys(a) {
          var e := KeyHasEdit(a, k);
          KeysCountEdits(a, e);
          KeysCountEdits(b, e);
        } else if k in Keys(b) {
          var e := KeyHasEdit(b, k);
          KeysCountEdits(a, e);
          KeysCountEdits(b, e);
        }
      }
    }
  }

  // ---------- The check ----------

  /** `counts` holds how often each key occurs, and no other key. */
  ghost predicate Tallies(counts: map<string, nat>, keys: seq<string>) {
    forall k :: (k in counts <==> k in multiset(keys)) && (k in counts ==> counts[k] == multiset(keys)[k])
  }

  function Bump(counts: map<string, nat>, k: string, n: nat): map<string, nat> {
    counts[k := n + if k in counts then counts[k] else 0]
  }

  lemma BumpOne(counts: map<string, nat>, keys: seq<string>, k: string)
    requires Tallies(counts, keys)
    ensures Tallies(Bump(counts, k, 1), keys + [k])
  {
  }

  /** The counting closure: one pass over the lines of each hunk. */
  method CountEdits(text: string) returns (counts: map<string, nat>)
    ensures Tallies(counts, Keys(Edits(Hunks(text))))
  {
    hide Tallies, Keys, Edits, EditsFrom, OldSpan, NewSpan, Bump, EditKey, Hunks;
    var hunks := ParseHunks(text);
    counts := map[];
    CountNone();
    for i := 0 to |hunks|
      invariant Tallies(counts, Keys(Edits(hunks[..i])))
    {
      var h := hunks[i];
      var oldLine, newLine := h.oldStart, h.newStart;
      ghost var before := Keys(Edits(hunks[..i]));
      LinesNone(h.lines, oldLine, newLine);
      assert before + [] == before;
      for j := 0 to |h.lines|
        invariant oldLine == h.oldStart + OldSpan(h.lines[..j]) && newLine == h.newStart + NewSpan(h.lines[..j])
        invariant Tallies(counts, before + Keys(EditsFrom(h.lines[..j], h.oldStart, h.newStart)))
      {
        var l := h.lines[j];
        LinesOne(h.lines, j, h.oldStart, h.newStart);
        ghost var sofar := Keys(EditsFrom(h.lines[..j], h.oldStart, h.newStart));
        if l.kind == Added {
          var e := Edit(true, newLine, l.content);
          BumpOne(counts, before + sofar, EditKey(e));
          assert before + sofar + [EditKey(e)] == before + (sofar + [EditKey(e)]);
          counts := Bump(counts, EditKey(e), 1);
          newLine := newLine + 1;
        } else if l.kind == Deleted {
          var e := Edit(false, oldLine, l.content);
          BumpOne(counts, before + sofar, EditKey(e));
          assert before + sofar + [EditKey(e)] == before + (sofar + [EditKey(e)]);
          counts := Bump(counts, EditKey(e), 1);
          oldLine := oldLine + 1;
        } else {
          oldLine, newLine := oldLine + 1, newLine + 1;
        }
      }
      assert h.lines[..|h.lines|] == h.lines;
      HunkOne(hunks, i);
    }
    assert hunks[..|hunks|] == hunks;
  }

  lemma CountNone()
    ensures Tallies(map[], Keys(Edits([]))) && Tallies(map[], Keys(TextEdits([])))
  {
  }

  lemma LinesNone(lines: seq<HunkLine>, oldLine: int, newLine: int)
    ensures OldSpan(lines[..0]) == 0 && NewSpan(lines[..0]) == 0 && Keys(EditsFrom(lines[..0], oldLine, newLine)) == []
  {
  }

  /** What one more line adds. */
  lemma LinesOne(lines: seq<HunkLine>, j: nat, oldLine: int, newLine: int)
    requires j < |lines|
    ensures var sofar := Keys(EditsFrom(lines[..j], oldLine, newLine));
            var o, n := oldLine + OldSpan(lines[..j]), newLine + NewSpan(lines[..j]);
            var more := Keys(EditsFrom(lines[..j + 1], oldLine, newLine));
            match lines[j].kind
            case Added =>
              && more == sofar + [EditKey(Edit(true, n, lines[j].content))]
              && oldLine + OldSpan(lines[..j + 1]) == o && newLine + NewSpan(lines[..j + 1]) == n + 1
            case Deleted =>
              && more == sofar + [EditKey(Edit(false, o, lines[j].content))]
              && oldLine + OldSpan(lines[..j + 1]) == o + 1 && newLine + NewSpan(lines[..j + 1]) == n
            case Context =>
              && more == sofar
              && oldLine + OldSpan(lines[..j + 1]) == o + 1 && newLine + NewSpan(lines[..j + 1]) == n + 1
  {
    hide *;
    var a, b := lines[..j], [lines[j]];
    var o, n := oldLine + OldSpan(a), newLine + NewSpan(a);
    assert lines[..j + 1] == a + b;
    EditsFromAppend(a, b, oldLine, newLine);
    SpanAppend(a, b);
    LineEdits(lines[j], o, n);
    KeysAppend(EditsFrom(a, oldLine, newLine), EditsFrom(b, o, n));
  }

  /** What a single line adds. */
  lemma LineEdits(l: HunkLine, o: int, n: int)
    ensures OldSpan([l]) == (if l.kind == Added then 0 else 1) && NewSpan([l]) == (if l.kind == Deleted then 0 else 1)
    ensures Keys(EditsFrom([l], o, n)) == match l.kind
              case Added => [EditKey(Edit(true, n, l.content))]
              case Deleted => [EditKey(Edit(false, o, l.content))]
              case Context => []
  {
    hide EditKey;
    assert [l][1..] == [];
    assert forall a, b :: EditsFrom([], a, b) == [];
    KeysOne(Edit(true, n, l.content));
    KeysOne(Edit(false, o, l.content));
  }

  lemma KeysOne(e: Edit)
    ensures Keys([e]) == [EditKey(e)]
  {
    assert [e][..0] == [];
  }

  lemma HunkOne(hunks: seq<Hunk>, i: nat)
    requires i < |hunks|
    ensures Keys(Edits(hunks[..i + 1])) == Keys(Edits(hunks[..i])) + Keys(HunkEdits(hunks[i]))
  {
    assert hunks[..i + 1][..i] == hunks[..i];
    KeysAppend(Edits(hunks[..i]), HunkEdits(hunks[i]));
  }

  lemma TextOneMore(texts: seq<string>, i: nat)
    requires i < |texts|
    ensures TextEdits(texts[..i + 1]) == TextEdits(texts[..i]) + Edits(Hunks(texts[i]))
  {
    assert texts[..i + 1][..i] == texts[..i];
  }

  /** Adding one tally to another. */
  method Accumulate(got: map<string, nat>, more: map<string, nat>, ghost keys: seq<string>, ghost added: seq<string>)
    returns (sum: map<string, nat>)
    requires Tallies(got, keys) && Tallies(more, added)
    ensures Tallies(sum, keys + added)
  {
    sum := got;
    var rest := more.Keys;
    while rest != {}
      invariant rest <= more.Keys
      invariant forall k :: k in sum <==> k in got || (k in more && k !in rest)
      invariant forall k :: k in sum ==>
                  sum[k] == multiset(keys)[k] + if k in more && k !in rest then more[k] else 0
      decreases |rest|
    {
      var k :| k in rest;
      rest := rest - {k};
      sum := Bump(sum, k, more[k]);
    }
    assert multiset(keys + added) == multiset(keys) + multiset(added);
  }

  /** `ValidateEdits` accepts exactly when the fragments make the edits of the
      change, each as often and at the same coordinates. */
  method ValidateEdits(diff: string, fragments: seq<string>) returns (ok: bool)
    ensures ok <==> multiset(Edits(Hunks(diff))) == multiset(TextEdits(fragments))
  {
    hide Tallies, Keys, Edits, Hunks;
    var want := CountEdits(diff);
    var got: map<string, nat> := map[];
    CountNone();
    assert fragments[..0] == [];
    for i := 0 to |fragments|
      invariant Tallies(got, Keys(TextEdits(fragments[..i])))
    {
      var more := CountEdits(fragments[i]);
      TextOneMore(fragments, i);
      KeysAppend(TextEdits(fragments[..i]), Edits(Hunks(fragments[i])));
      got := Accumulate(got, more, Keys(TextEdits(fragments[..i])), Keys(Edits(Hunks(fragments[i]))));
    }
    assert fragments[..|fragments|] == fragments;
    KeysDecide(Edits(Hunks(diff)), TextEdits(fragments));
    ok := SameTally(want, got, Keys(Edits(Hunks(diff))), Keys(TextEdits(fragments)));
  }

  method SameTally(want: map<string, nat>, got: map<string, nat>, ghost a: seq<string>, ghost b: seq<string>)
    returns (same: bool)
    requires Tallies(want, a) && Tallies(got, b)
    ensures same <==> multiset(a) == multiset(b)
  {
    if |want| != |got| {
      assert multiset(a) == multiset(b) ==> want.Keys == got.Keys;
      return false;
    }
    var rest := want.Keys;
    while rest != {}
      invariant rest <= want.Keys
      invariant forall k :: k in want && k !in rest ==> k in got && got[k] == want[k]
      decreases |rest|
    {
      var k :| k in rest;
      rest := rest - {k};
      if (if k in got then got[k] else 0) != want[k] {
        assert multiset(a)[k] != multiset(b)[k];
        return false;
      }
    }
    SubsetOfSameSize(want.Keys, got.Keys);
    forall k ensures multiset(a)[k] == multiset(b)[k] {
      assert k in want <==> k in got;
    }
    return true;
  }

  lemma SubsetOfSameSize(a: set<string>, b: set<string>)
    requires a <= b && |a| == |b|
    ensures a == b
  {
    assert b == a + (b - a);
    assert |b - a| == 0;
    assert b - a == {};
  }

  // ---------- Changed lines ----------

  /** The numbers of the lines edited on one side, in order. */
  function Numbers(edits: seq<Edit>, added: bool): seq<int> {
    if edits == [] then []
    else
      var front, last := Numbers(edits[..|edits| - 1], added), edits[|edits| - 1];
      if last.added == added then front + [last.line] else front
  }

  lemma {:induction false} NumbersAppend(a: seq<Edit>, b: seq<Edit>, added: bool)
    ensures Numbers(a + b, added) == Numbers(a, added) + Numbers(b, added)
  {
    if b == [] {
      assert a + b == a;
    } else {
      assert (a + b)[..|a + b| - 1] == a + b[..|b| - 1];
      NumbersAppend(a, b[..|b| - 1], added);
    }
  }

  /** `ChangedSpans`, whose spans are single lines: the old lines deleted or the new
      lines added, with the coordinates of the edits. */
  method ChangedLines(text: string, before: bool) returns (out: seq<int>)
    ensures out == Numbers(Edits(Hunks(text)), !before)
  {
    hide Numbers, Edits, EditsFrom, OldSpan, NewSpan, Hunks;
    var hunks := ParseHunks(text);
    out := [];
    NumbersNone(!before);
    for i := 0 to |hunks|
      invariant out == Numbers(Edits(hunks[..i]), !before)
    {
      var h := hunks[i];
      var more := HunkLines(h, before);
      out := out + more;
      assert hunks[..i + 1] == hunks[..i] + [h];
      EditsAppend(hunks[..i], [h]);
      EditsOfOne(h);
      NumbersAppend(Edits(hunks[..i]), HunkEdits(h), !before);
    }
    assert hunks[..|hunks|] == hunks;
  }

  method HunkLines(h: Hunk, before: bool) returns (out: seq<int>)
    ensures out == Numbers(HunkEdits(h), !before)
  {
    hide Numbers;
    out := [];
    var oldLine, newLine := h.oldStart, h.newStart;
    for j := 0 to |h.lines|
      invariant Numbers(HunkEdits(h), !before)
             == out + Numbers(EditsFrom(h.lines[j..], oldLine, newLine), !before)
    {
      var l := h.lines[j];
      NumbersFirst(h.lines[j..], oldLine, newLine, !before);
      assert h.lines[j..][1..] == h.lines[j + 1..];
      if before && l.kind == Deleted {
        out := out + [oldLine];
      }
      if !before && l.kind == Added {
        out := out + [newLine];
      }
      if l.kind != Added {
        oldLine := oldLine + 1;
      }
      if l.kind != Deleted {
        newLine := newLine + 1;
      }
    }
    NumbersNone(!before);
  }

  lemma NumbersNone(added: bool)
    ensures Numbers([], added) == [] && Numbers(Edits([]), added) == []
    ensures forall a, b :: Numbers(EditsFrom([], a, b), added) == []
  {}

  lemma EditsOfOne(h: Hunk)
    ensures Edits([h]) == HunkEdits(h)
  {
    assert [h][..0] == [];
  }

  /** What the first of some lines contributes. */
  lemma NumbersFirst(lines: seq<HunkLine>, oldLine: int, newLine: int, added: bool)
    requires lines != []
    ensures var l := lines[0];
      Numbers(EditsFrom(lines, oldLine, newLine), added)
      == (if l.kind == Added && added then [newLine] else if l.kind == Deleted && !added then [oldLine] else [])
         + Numbers(EditsFrom(lines[1..], if l.kind == Added then oldLine else oldLine + 1,
                             if l.kind == Deleted then newLine else newLine + 1), added)
  {
    var l := lines[0];
    var rest := EditsFrom(lines[1..], if l.kind == Added then oldLine else oldLine + 1,
                          if l.kind == Deleted then newLine else newLine + 1);
    if l.kind != Context {
      var e := Edit(l.kind == Added, if l.kind == Added then newLine else oldLine, l.content);
      NumbersAppend([e], rest, added);
      assert [e][..0] == [];
      assert Numbers([e], added) == if e.added == added then [e.line] else [];
    }
  }

  /** Texts that make the same edits change the same lines, each as often. */
  lemma {:induction false} SameEditsSameLines(a: seq<Edit>, b: seq<Edit>, added: bool)
    requires multiset(a) == multiset(b)
    ensures multiset(Numbers(a, added)) == multiset(Numbers(b, added))
    decreases |a|
  {
    if a == [] {
      assert |b| == |multiset(b)| == 0;
    } else {
      hide Numbers;
      var front, last := a[..|a| - 1], a[|a| - 1];
      assert a == front + [last];
      assert last in multiset(b);
      var x, y := TakeOut(b, last);
      assert multiset(front + [last]) == multiset(front) + multiset{last};
      assert multiset(front) == multiset(a) - multiset{last};
      assert multiset(x + y) == multiset(b) - multiset{last};
      SameEditsSameLines(front, x + y, added);
      NumbersMove(x, last, y, added);
      NumbersMove(front, last, [], added);
      assert front + [last] + [] == a && front + [] == front;
    }
  }

  lemma TakeOut(b: seq<Edit>, e: Edit) returns (x: seq<Edit>, y: seq<Edit>)
    requires e in b
    ensures b == x + [e] + y && multiset(b) == multiset(x + y) + multiset{e}
  {
    var i :| 0 <= i < |b| && b[i] == e;
    x, y := b[..i], b[i + 1..];
    assert b == x + [e] + y;
  }

  lemma NumbersMove(x: seq<Edit>, e: Edit, y: seq<Edit>, added: bool)
    ensures multiset(Numbers(x + [e] + y, added))
         == multiset(Numbers(x + y, added)) + multiset(Numbers([e], added))
  {
    NumbersAppend(x + [e], y, added);
    NumbersAppend(x, [e], added);
    NumbersAppend(x, y, added);
    hide Numbers;
    var p, q, r := Numbers(x, added), Numbers([e], added), Numbers(y, added);
    assert multiset(p + q + r) == multiset(p) + multiset(q) + multiset(r);
    assert multiset(p + r) == multiset(p) + multiset(r);
  }
}
