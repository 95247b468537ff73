/** The declarations of a file, their identities, and which of them owns a line. */
module Owners {
  import opened Basics
  import opened Decimal
  import Identifiers

  datatype Element = Element(path: string, name: string, kind: string, firstLine: int, lastLine: int,
                             startByte: int, endByte: int)

  const NO_ELEMENT := Element("", "", "", 0, 0, 0, 0)

  function ElementID(e: Element): string {
    e.path + ":" + PrintInt(e.startByte) + ":" + PrintInt(e.endByte) + ":" + e.kind + ":" + e.name
  }

  /** Where paths and kinds hold no colon, an identity says all but the lines. */
  lemma IdentityShows(a: Element, b: Element)
    requires ':' !in a.path && ':' !in b.path && ':' !in a.kind && ':' !in b.kind
    ensures ElementID(a) == ElementID(b) <==>
      a.path == b.path && a.startByte == b.startByte && a.endByte == b.endByte && a.kind == b.kind && a.name == b.name
  {
    hide PrintInt;
    if ElementID(a) == ElementID(b) {
      var c, d := a.kind + ":" + a.name, b.kind + ":" + b.name;
      var ends, ends' := PrintInt(a.endByte) + (":" + c), PrintInt(b.endByte) + (":" + d);
      var starts, starts' := PrintInt(a.startByte) + (":" + ends), PrintInt(b.startByte) + (":" + ends');
      IdentityIs(a);
      IdentityIs(b);
      CutOnce(a.path, starts, b.path, starts', ':');
      PrintIntInjective(a.startByte, b.startByte, ":" + ends, ":" + ends');
      assert (":" + ends)[1..] == ends && (":" + ends')[1..] == ends';
      PrintIntInjective(a.endByte, b.endByte, ":" + c, ":" + d);
      assert (":" + c)[1..] == c && (":" + d)[1..] == d;
      CutOnce(a.kind, a.name, b.kind, b.name, ':');
    }
  }

  lemma IdentityIs(e: Element)
    ensures ElementID(e) == e.path + ":"
      + (PrintInt(e.startByte) + (":" + (PrintInt(e.endByte) + (":" + (e.kind + ":" + e.name)))))
  {
    hide PrintInt;
    var c := e.kind + ":" + e.name;
    assert ":" + c == ":" + e.kind + ":" + e.name;
  }

  /** The first occurrence of a mark splits a text in one way. */
  lemma CutOnce(a: string, b: string, a': string, b': string, mark: char)
    requires mark !in a && mark !in a' && a + [mark] + b == a' + [mark] + b'
    ensures a == a' && b == b'
  {
    var s, t := a + [mark] + b, a' + [mark] + b';
    assert s[|a|] == mark && t[|a'|] == mark;
    assert forall i :: 0 <= i < |a| ==> s[i] == a[i];
    assert forall i :: 0 <= i < |a'| ==> t[i] == a'[i];
    assert |a| == |a'|;
    assert s[..|a|] == a && s[|a| + 1..] == b;
    assert t[..|a|] == a' && t[|a| + 1..] == b';
  }

  // ---------- The owner of a line ----------

  /** The first element around a line. */
  function ElementAt(es: seq<Element>, line: int): Option<Element> {
    if es == [] then None
    else if es[0].firstLine <= line <= es[0].lastLine then Some(es[0])
    else ElementAt(es[1..], line)
  }

  /** `e` is the first of the elements whose lines hold the given one. */
  ghost predicate Owns(es: seq<Element>, line: int, e: Element) {
    exists i :: 0 <= i < |es| && es[i] == e && e.firstLine <= line <= e.lastLine
                && forall j :: 0 <= j < i ==> !(es[j].firstLine <= line <= es[j].lastLine)
  }

  lemma {:induction false} ElementAtOwns(es: seq<Element>, line: int, e: Element)
    ensures ElementAt(es, line) == Some(e) <==> Owns(es, line, e)
  {
    if es != [] {
      ElementAtOwns(es[1..], line, e);
      if es[0].firstLine <= line <= es[0].lastLine {
        if es[0] == e {
          assert Owns(es, line, e);
        }
      } else {
        OwnsLater(es, line, e);
      }
    }
  }

  lemma OwnsLater(es: seq<Element>, line: int, e: Element)
    requires es != [] && !(es[0].firstLine <= line <= es[0].lastLine)
    ensures Owns(es, line, e) <==> Owns(es[1..], line, e)
  {
    var rest := es[1..];
    assert forall j :: 0 <= j < |rest| ==> rest[j] == es[j + 1];
    if Owns(rest, line, e) {
      var i :| 0 <= i < |rest| && rest[i] == e
               && forall j :: 0 <= j < i ==> !(rest[j].firstLine <= line <= rest[j].lastLine);
      forall j | 0 <= j < i + 1 ensures !(es[j].firstLine <= line <= es[j].lastLine) {
        assert j > 0 ==> es[j] == rest[j - 1];
      }
      assert es[i + 1] == e;
    }
    if Owns(es, line, e) {
      var i :| 0 <= i < |es| && es[i] == e && e.firstLine <= line <= e.lastLine
               && forall j :: 0 <= j < i ==> !(es[j].firstLine <= line <= es[j].lastLine);
      assert i > 0 && rest[i - 1] == e;
    }
  }

  function OwnerKey(owner: Option<Element>): string {
    ElementID(if owner.Some? then owner.value else NO_ELEMENT)
  }

  // ---------- Lists of owners ----------

  /** An element with the same identity is in the list. */
  predicate Lists(es: seq<Element>, e: Element) {
    exists i :: 0 <= i < |es| && ElementID(es[i]) == ElementID(e)
  }

  function AppendElement(es: seq<Element>, e: Element): seq<Element> {
    if Lists(es, e) then es else es + [e]
  }

  /** No identity is listed twice. */
  ghost predicate Distinct(es: seq<Element>) {
    forall i, j :: 0 <= i < j < |es| ==> ElementID(es[i]) != ElementID(es[j])
  }

  lemma AppendGrows(es: seq<Element>, e: Element)
    ensures Lists(AppendElement(es, e), e)
    ensures forall x :: Lists(es, x) ==> Lists(AppendElement(es, e), x)
    ensures Distinct(es) ==> Distinct(AppendElement(es, e))
    ensures forall x :: x in AppendElement(es, e) ==> x in es || x == e
  {
    hide ElementID;
    var grown := AppendElement(es, e);
    if grown != es {
      assert ElementID(grown[|es|]) == ElementID(e);
    }
    forall x | Lists(es, x) ensures Lists(grown, x) {
      var i :| 0 <= i < |es| && ElementID(es[i]) == ElementID(x);
      assert grown[i] == es[i];
    }
  }

  function Ids(es: seq<Element>): seq<string> {
    if es == [] then [] else [ElementID(es[0])] + Ids(es[1..])
  }

  lemma {:induction false} IdsAre(es: seq<Element>)
    ensures |Ids(es)| == |es| && forall i :: 0 <= i < |es| ==> Ids(es)[i] == ElementID(es[i])
  {
    hide ElementID;
    if es != [] {
      IdsAre(es[1..]);
    }
  }

  /** Lists of the same identities list the same elements. */
  lemma SameIds(a: seq<Element>, b: seq<Element>)
    requires Ids(a) == Ids(b)
    ensures |a| == |b| && forall x :: Lists(a, x) ==> Lists(b, x)
    ensures forall i :: 0 <= i < |a| ==> ElementID(a[i]) == ElementID(b[i])
  {
    hide ElementID, Ids;
    IdsAre(a);
    IdsAre(b);
    assert forall i :: 0 <= i < |a| ==> ElementID(a[i]) == Ids(a)[i] == ElementID(b[i]);
  }

  /** Places an element by its identity. */
  function InsertElement(e: Element, es: seq<Element>): seq<Element> {
    if es == [] || Identifiers.Less(ElementID(e), ElementID(es[0])) then [e] + es
    else [es[0]] + InsertElement(e, es[1..])
  }

  /** `sortElements`. */
  function SortElements(es: seq<Element>): seq<Element> {
    if es == [] then [] else InsertElement(es[0], SortElements(es[1..]))
  }

  /** Sorted by identity. */
  ghost predicate Ordered(es: seq<Element>) {
    forall i, j :: 0 <= i < j < |es| ==> !Identifiers.Less(ElementID(es[j]), ElementID(es[i]))
  }

  lemma {:induction false} InsertKeeps(e: Element, es: seq<Element>)
    ensures multiset(InsertElement(e, es)) == multiset(es) + multiset{e}
  {
    if es != [] {
      InsertKeeps(e, es[1..]);
      assert es == [es[0]] + es[1..];
    }
  }

  lemma {:induction false} InsertOrders(e: Element, es: seq<Element>)
    requires Ordered(es)
    ensures Ordered(InsertElement(e, es))
  {
    hide ElementID, Identifiers.Less;
    if es == [] || Identifiers.Less(ElementID(e), ElementID(es[0])) {
      forall j | 0 < j < |es| + 1 ensures !Identifiers.Less(ElementID(([e] + es)[j]), ElementID(e)) {
        PlacedFirst(e, es, j - 1);
      }
    } else {
      var rest := es[1..];
      assert Ordered(rest) by {
        assert forall i :: 0 <= i < |rest| ==> rest[i] == es[i + 1];
      }
      InsertOrders(e, rest);
      InsertKeeps(e, rest);
      BehindFirst(e, es, InsertElement(e, rest));
    }
  }

  lemma BehindFirst(e: Element, es: seq<Element>, r: seq<Element>)
    requires es != [] && Ordered(es) && !Identifiers.Less(ElementID(e), ElementID(es[0]))
    requires multiset(r) == multiset(es[1..]) + multiset{e}
    ensures forall j :: 0 <= j < |r| ==> !Identifiers.Less(ElementID(r[j]), ElementID(es[0]))
  {
    hide ElementID, Identifiers.Less;
    var rest := es[1..];
    forall j | 0 <= j < |r| ensures !Identifiers.Less(ElementID(r[j]), ElementID(es[0])) {
      assert r[j] in multiset(r);
      assert r[j] == e || r[j] in rest;
      if r[j] != e {
        var i :| 0 <= i < |rest| && rest[i] == r[j];
        assert rest[i] == es[i + 1];
      }
    }
  }

  lemma PlacedFirst(e: Element, es: seq<Element>, j: nat)
    requires Ordered(es) && j < |es| && Identifiers.Less(ElementID(e), ElementID(es[0]))
    ensures !Identifiers.Less(ElementID(es[j]), ElementID(e))
  {
    hide ElementID;
    if Identifiers.Less(ElementID(es[j]), ElementID(e)) {
      Identifiers.LessTransitive(ElementID(es[j]), ElementID(e), ElementID(es[0]));
      Identifiers.LessTotal(ElementID(es[0]), ElementID(es[0]));
    }
  }

  /** Sorting keeps the elements and puts them in order. */
  lemma {:induction false} SortKeeps(es: seq<Element>)
    ensures multiset(SortElements(es)) == multiset(es) && Ordered(SortElements(es))
  {
    if es != [] {
      SortKeeps(es[1..]);
      InsertKeeps(es[0], SortElements(es[1..]));
      InsertOrders(es[0], SortElements(es[1..]));
      assert es == [es[0]] + es[1..];
    }
  }

  lemma {:induction false} InsertDistinct(e: Element, es: seq<Element>)
    ensures forall x :: Lists(InsertElement(e, es), x) <==> Lists(es, x) || ElementID(x) == ElementID(e)
    ensures Distinct(es) && !Lists(es, e) ==> Distinct(InsertElement(e, es))
  {
    hide ElementID, Identifiers.Less, Lists, Distinct;
    if es == [] || Identifiers.Less(ElementID(e), ElementID(es[0])) {
      ConsLists(e, es);
    } else {
      InsertDistinct(e, es[1..]);
      ConsLists(es[0], es[1..]);
      ConsLists(es[0], InsertElement(e, es[1..]));
      assert es == [es[0]] + es[1..];
    }
  }

  lemma ConsLists(e: Element, es: seq<Element>)
    ensures forall x :: Lists([e] + es, x) <==> Lists(es, x) || ElementID(x) == ElementID(e)
    ensures Distinct([e] + es) <==> Distinct(es) && !Lists(es, e)
  {
    hide Lists, Distinct;
    forall x ensures Lists([e] + es, x) <==> Lists(es, x) || ElementID(x) == ElementID(e) {
      ConsListsOne(e, es, x);
    }
    ConsDistinct(e, es);
  }

  lemma ConsListsOne(e: Element, es: seq<Element>, x: Element)
    ensures Lists([e] + es, x) <==> Lists(es, x) || ElementID(x) == ElementID(e)
  {
    hide ElementID;
    var all := [e] + es;
    assert forall i :: 0 <= i < |es| ==> all[i + 1] == es[i];
    if i :| 0 <= i < |es| && ElementID(es[i]) == ElementID(x) {
      assert ElementID(all[i + 1]) == ElementID(x);
    }
    if ElementID(x) == ElementID(e) {
      assert ElementID(all[0]) == ElementID(x);
    }
    if i :| 0 <= i < |all| && ElementID(all[i]) == ElementID(x) && i > 0 {
      assert ElementID(es[i - 1]) == ElementID(x);
    }
  }

  lemma ConsDistinct(e: Element, es: seq<Element>)
    ensures Distinct([e] + es) <==> Distinct(es) && !Lists(es, e)
  {
    hide ElementID;
    var all := [e] + es;
    assert all[0] == e && forall i :: 0 < i < |all| ==> all[i] == es[i - 1];
    if Distinct(all) {
      forall i, j | 0 <= i < j < |es| ensures ElementID(es[i]) != ElementID(es[j]) {
        assert ElementID(all[i + 1]) != ElementID(all[j + 1]);
      }
      forall i | 0 <= i < |es| ensures ElementID(es[i]) != ElementID(e) {
        assert ElementID(all[0]) != ElementID(all[i + 1]);
      }
    }
  }

  lemma AtMostOne(es: seq<Element>, key: string)
    requires Distinct(es) && forall x :: x in es ==> ElementID(x) == key
    ensures |es| <= 1
  {
    hide ElementID;
    assert es == [] || ElementID(es[0]) == ElementID(es[|es| - 1]);
  }

  lemma {:induction false} SortDistinct(es: seq<Element>)
    ensures forall x :: Lists(SortElements(es), x) <==> Lists(es, x)
    ensures Distinct(es) ==> Distinct(SortElements(es))
  {
    hide ElementID, Lists, Distinct;
    if es != [] {
      SortDistinct(es[1..]);
      ConsLists(es[0], es[1..]);
      InsertDistinct(es[0], SortElements(es[1..]));
      assert es == [es[0]] + es[1..];
    }
  }

  // ---------- Keys of owner lists ----------

  const NUL := [0 as char]

  function ElementKey(es: seq<Element>): string {
    Join(Ids(es), NUL)
  }

  function FragmentKey(before: seq<Element>, after: seq<Element>): string {
    ElementKey(before) + "|" + ElementKey(after)
  }

  ghost predicate Holds(s: string, part: string) {
    exists i :: 0 <= i <= |s| && part <= s[i..]
  }

  /** No identity could be read as two, or is that of no element. */
  ghost predicate Plain(es: seq<Element>) {
    forall e :: e in es ==>
      && '|' !in e.path && 0 as char !in ElementID(e) && ElementID(e) != ElementID(NO_ELEMENT)
      && forall x :: x in es ==> !Holds(ElementID(e), "|" + x.path + ":")
  }

  /** Plain owners can be told from their key. */
  lemma KeysTell(es: seq<Element>, before: seq<Element>, after: seq<Element>, before': seq<Element>,
                 after': seq<Element>)
    requires Plain(es) && forall e :: e in before + after + before' + after' ==> e in es
    requires FragmentKey(before, after) == FragmentKey(before', after')
    ensures Ids(before) == Ids(before') && Ids(after) == Ids(after')
  {
    hide ElementKey, ElementID, Plain;
    var all := before + after + before' + after';
    assert forall e :: e in before || e in after || e in before' || e in after' ==> e in all;
    if |ElementKey(before)| < |ElementKey(before')| {
      RunsIntoPath(es, before, after, before', after');
      KeyHoldsNo(es, before', after[0]);
      assert false;
    } else if |ElementKey(before')| < |ElementKey(before)| {
      RunsIntoPath(es, before', after', before, after);
      KeyHoldsNo(es, before, after'[0]);
      assert false;
    }
    var k, k' := FragmentKey(before, after), FragmentKey(before', after');
    assert ElementKey(before) == k[..|ElementKey(before)|] == ElementKey(before');
    assert ElementKey(after) == k[|ElementKey(before)| + 1..] == ElementKey(after');
    IdsFromKey(es, before, before');
    IdsFromKey(es, after, after');
  }

  /** A key that ends later runs into the path of an element. */
  lemma RunsIntoPath(es: seq<Element>, before: seq<Element>, after: seq<Element>, before': seq<Element>,
                     after': seq<Element>)
    requires Plain(es) && forall e :: e in after ==> e in es
    requires FragmentKey(before, after) == FragmentKey(before', after')
    requires |ElementKey(before)| < |ElementKey(before')|
    ensures after != [] && Holds(ElementKey(before'), "|" + after[0].path + ":")
  {
    var a, b, a', b' := ElementKey(before), ElementKey(after), ElementKey(before'), ElementKey(after');
    hide *;
    KeyIs(before, after);
    KeyIs(before', after');
    SplitLater(a, b, a', b', '|');
    assert after[0] in after;
    KeyStarts(after);
    NoBar(es, after[0]);
    StartsBefore(b, after[0].path + ":", a', |a|, '|');
    assert ['|'] + (after[0].path + ":") == "|" + after[0].path + ":";
  }

  lemma KeyIs(before: seq<Element>, after: seq<Element>)
    ensures FragmentKey(before, after) == ElementKey(before) + ['|'] + ElementKey(after)
    ensures after == [] ==> ElementKey(after) == ""
  {
    KeyParts(after);
    hide ElementKey;
  }

  lemma SplitLater(a: string, b: string, a': string, b': string, mark: char)
    requires a + [mark] + b == a' + [mark] + b' && |a| < |a'|
    ensures |a'| - |a| - 1 < |b| && b[|a'| - |a| - 1] == mark
    ensures a'[|a|] == mark && a'[|a| + 1..] == b[..|a'| - |a| - 1]
  {
    var k := a + [mark] + b;
    assert k[|a'|] == mark && k[..|a'|] == a' && k[|a| + 1..] == b;
  }

  /** What begins a text and holds no mark ends before its first one. */
  lemma StartsBefore(b: string, start: string, a: string, n: nat, mark: char)
    requires n < |a| && |a| - n - 1 < |b| && b[|a| - n - 1] == mark
    requires a[n] == mark && a[n + 1..] == b[..|a| - n - 1]
    requires start <= b && mark !in start
    ensures Holds(a, [mark] + start)
  {
    var m := |a| - n - 1;
    if m < |start| {
      Within(b, start, 0, m);
      assert false;
    }
    assert a[n..] == [mark] + b[..m];
    assert start <= b[..m];
    assert [mark] + start <= a[n..];
  }

  lemma NoBar(es: seq<Element>, e: Element)
    requires Plain(es) && e in es
    ensures '|' !in e.path + ":" && 0 as char !in ElementID(e)
  {}

  lemma KeyStarts(es: seq<Element>)
    requires es != []
    ensures es[0].path + ":" <= ElementKey(es)
  {
    KeyParts(es);
    hide ElementKey;
    assert es[0].path + ":" <= ElementID(es[0]);
    if |es| > 1 {
      assert ElementKey(es)[..|ElementID(es[0])|] == ElementID(es[0]);
    }
  }

  lemma {:induction false} KeyHoldsNo(es: seq<Element>, some: seq<Element>, x: Element)
    requires Plain(es) && x in es && forall e :: e in some ==> e in es
    ensures !Holds(ElementKey(some), "|" + x.path + ":")
  {
    var part := "|" + x.path + ":";
    KeyParts(some);
    if some != [] {
      var id := ElementID(some[0]);
      assert some[0] in some && !Holds(id, part);
      assert 0 as char !in part by {
        assert 0 as char !in ElementID(x);
        assert ElementID(x)[..|x.path|] == x.path;
      }
      hide ElementID, ElementKey, Plain;
      if |some| > 1 {
        assert forall e :: e in some[1..] ==> e in some;
        KeyHoldsNo(es, some[1..], x);
        HoldsBehind(id, ElementKey(some[1..]), part);
      }
    }
  }

  lemma Within(s: string, part: string, i: int, j: int)
    requires 0 <= i <= j < i + |part| && j < |s| && part <= s[i..]
    ensures s[j] in part
  {
    assert part[j - i] == s[i..][j - i] == s[j];
  }

  /** A text without the separator is held by one side of it. */
  lemma HoldsBehind(a: string, b: string, part: string)
    requires part != "" && 0 as char !in part
    ensures Holds(a + NUL + b, part) ==> Holds(a, part) || Holds(b, part)
  {
    var s := a + NUL + b;
    if i :| 0 <= i <= |s| && part <= s[i..] {
      assert forall k :: 0 <= k < |part| ==> part[k] == s[i + k];
      if i > |a| {
        assert s[i..] == b[i - |a| - 1..];
      } else {
        if i + |part| > |a| {
          Within(s, part, i, |a|);
          assert false;
        }
        assert part <= a[i..];
      }
    }
  }

  lemma {:induction false} IdsFromKey(es: seq<Element>, a: seq<Element>, b: seq<Element>)
    requires Plain(es) && (forall e :: e in a || e in b ==> e in es) && ElementKey(a) == ElementKey(b)
    ensures Ids(a) == Ids(b)
  {
    hide ElementKey, ElementID, Ids, Plain;
    KeyParts(a);
    KeyParts(b);
    if a == [] || b == [] {
      assert a == b == [];
    } else {
      NoBar(es, a[0]);
      NoBar(es, b[0]);
      var x, y := ElementID(a[0]), ElementID(b[0]);
      if |a| > 1 && |b| > 1 {
        CutOnce(x, ElementKey(a[1..]), y, ElementKey(b[1..]), NUL[0]);
        assert forall e :: e in a[1..] ==> e in a;
        assert forall e :: e in b[1..] ==> e in b;
        IdsFromKey(es, a[1..], b[1..]);
      }
      assert a == [a[0]] + a[1..] && b == [b[0]] + b[1..];
    }
  }

  lemma KeyParts(es: seq<Element>)
    ensures es == [] ==> ElementKey(es) == "" && Ids(es) == []
    ensures es != [] ==> ElementKey(es) != "" && Ids(es) == [ElementID(es[0])] + Ids(es[1..])
    ensures |es| == 1 ==> ElementKey(es) == ElementID(es[0]) && Ids(es[1..]) == []
    ensures |es| > 1 ==>
      ElementKey(es) == ElementID(es[0]) + NUL + ElementKey(es[1..]) && 0 as char in ElementKey(es)
  {
    IdsAre(es);
    if es != [] {
      assert ElementID(es[0])[|es[0].path|] == ':';
      IdsAre(es[1..]);
    }
    if |es| > 1 {
      assert (ElementID(es[0]) + NUL + ElementKey(es[1..]))[|ElementID(es[0])|] == 0 as char;
    }
    hide ElementID;
  }

  /** With a separator in a name, one owner and two owners can have the same key. */
  lemma KeysCollide(a: Element, b: Element)
    ensures var both := Element(a.path, a.name + "|" + ElementID(b), a.kind, a.firstLine, a.lastLine, a.startByte,
                                a.endByte);
      FragmentKey([both], []) == FragmentKey([a], [b.(name := b.name + "|")])
  {
    hide PrintInt;
    var both := a.(name := a.name + "|" + ElementID(b));
    var more := b.(name := b.name + "|");
    assert ElementID(both) == ElementID(a) + ("|" + ElementID(b));
    assert ElementID(more) == ElementID(b) + "|";
    KeyParts([both]);
    KeyParts([]);
    KeyParts([a]);
    KeyParts([more]);
    assert ElementID(a) + ("|" + ElementID(b)) + "|" + "" == ElementID(a) + "|" + (ElementID(b) + "|");
  }
}
