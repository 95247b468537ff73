/** Why fragments stand in one unit: a unit cannot be cut in two without cutting a reason. */
module UnitReasons {
  import opened Basics
  import opened Identifiers
  import opened MergeSteps
  import opened Grouping
  import NamespaceQueue

  /** What reasons are read off; files and namespaces count only once units are packed by
      them. */
  datatype Grounds = Grounds(fs: string -> Fragment, edges: seq<Edge>,
                             scopes: map<string, map<NamespaceQueue.Key, NamespaceQueue.Match>>,
                             files: bool, spaces: bool)

  // ---------- Reasons ----------

  /** Both edit one declaration of a file. */
  ghost predicate EditTogether(r: Grounds, x: string, y: string) {
    && r.fs(x).path == r.fs(y).path && r.fs(x).category == Declared && r.fs(y).category == Declared
    && exists key :: key in r.fs(x).owners && key in r.fs(y).owners
  }

  /** Both are left over in one file for the same want of a declaration. */
  predicate LeftTogether(r: Grounds, x: string, y: string) {
    r.fs(x).path == r.fs(y).path && r.fs(x).category == r.fs(y).category != Declared
  }

  /** A relation joins them that is structural, or does not concern imports. */
  predicate RelatedBy(r: Grounds, e: Edge, x: string, y: string) {
    && ((e.from == x && e.to == y) || (e.from == y && e.to == x))
    && (e.structural || (r.fs(x).category != ImportOnly && r.fs(y).category != ImportOnly))
  }

  ghost predicate Supported(r: Grounds, x: string, y: string) {
    exists e :: e in r.edges && RelatedBy(r, e, x, y)
  }

  predicate OneFile(r: Grounds, x: string, y: string) {
    r.files && r.fs(x).path == r.fs(y).path
  }

  ghost predicate OneSpace(r: Grounds, x: string, y: string) {
    r.spaces && x in r.scopes && y in r.scopes && exists k :: k in r.scopes[x] && k in r.scopes[y]
  }

  /** `x` carries `id`: they are the same, or `id` is an import of the file that a relation
      from `x`, or from an import `x` carries, leads to. */
  ghost predicate Carries(r: Grounds, x: string, id: string, n: nat)
    decreases n
  {
    id == x
    || (n > 0 && r.fs(id).category == ImportOnly && r.fs(id).path == r.fs(x).path
        && exists e :: e in r.edges && e.to == id && Carries(r, x, e.from, n - 1))
  }

  ghost predicate SpeaksFor(r: Grounds, x: string, id: string) {
    exists n: nat :: Carries(r, x, id, n)
  }

  /** A reason of its own, or a relation of what the two carry. */
  ghost predicate Reason(r: Grounds, x: string, y: string) {
    || EditTogether(r, x, y) || LeftTogether(r, x, y) || OneFile(r, x, y) || OneSpace(r, x, y)
    || exists a, b :: SpeaksFor(r, x, a) && SpeaksFor(r, y, b) && Supported(r, a, b)
  }

  // ---------- Units held together ----------

  predicate Cuts(n: set<string>, cut: set<string>) {
    (exists x :: x in n && x in cut) && (exists y :: y in n && y !in cut)
  }

  ghost predicate Crossed(r: Grounds, n: set<string>, cut: set<string>) {
    exists a, b :: a in n && b in n && a in cut && b !in cut && Reason(r, a, b)
  }

  /** Every cut through the fragments crosses a reason. */
  ghost predicate Uncut(r: Grounds, n: set<string>) {
    forall cut: set<string> :: Cuts(n, cut) ==> Crossed(r, n, cut)
  }

  /** `n` holds all of the group but imports. */
  ghost predicate Spans(r: Grounds, g: seq<string>, n: set<string>) {
    n <= Members(g) && forall id :: id in g && r.fs(id).category != ImportOnly ==> id in n
  }

  /** Every member is carried by one in `n`. */
  ghost predicate Carried(r: Grounds, g: seq<string>, n: set<string>) {
    forall id :: id in g ==> exists x :: x in n && SpeaksFor(r, x, id)
  }

  /** `n` holds all of the group but imports that others of it carry. */
  ghost predicate Core(r: Grounds, g: seq<string>, n: set<string>) {
    Spans(r, g, n) && Carried(r, g, n) && Uncut(r, n)
  }

  lemma Carrier(r: Grounds, g: seq<string>, n: set<string>, id: string) returns (x: string)
    requires Carried(r, g, n) && id in g
    ensures x in n && SpeaksFor(r, x, id)
  {
    hide SpeaksFor;
    x :| x in n && SpeaksFor(r, x, id);
  }

  /** The group, apart from imports that others carry, cannot be cut without cutting a reason. */
  ghost predicate Whole(r: Grounds, g: seq<string>) {
    exists n: set<string> :: Core(r, g, n)
  }

  ghost predicate AllWhole(r: Grounds, gs: Groups) {
    forall g :: g in gs ==> Whole(r, g)
  }

  lemma CarrierOf(r: Grounds, g: seq<string>, n: set<string>, h: seq<string>, m: set<string>, id: string)
    returns (x: string)
    requires Carried(r, g, n) && Carried(r, h, m) && (id in g || id in h)
    ensures x in n + m && SpeaksFor(r, x, id)
  {
    hide SpeaksFor, Carried;
    if id in g {
      x := Carrier(r, g, n, id);
    } else {
      x := Carrier(r, h, m, id);
    }
  }

  lemma SpeaksForItself(r: Grounds, x: string)
    ensures SpeaksFor(r, x, x)
  {
    assert Carries(r, x, x, 0);
  }

  lemma SpeaksNext(r: Grounds, x: string, e: Edge)
    requires SpeaksFor(r, x, e.from) && e in r.edges
    requires r.fs(e.to).category == ImportOnly && r.fs(e.to).path == r.fs(x).path
    ensures SpeaksFor(r, x, e.to)
  {
    var n: nat :| Carries(r, x, e.from, n);
    assert Carries(r, x, e.to, n + 1);
  }

  lemma SpeaksPath(r: Grounds, x: string, id: string)
    requires SpeaksFor(r, x, id)
    ensures r.fs(id).path == r.fs(x).path && (id == x || r.fs(id).category == ImportOnly)
  {}

  lemma ReasonCommutes(r: Grounds, x: string, y: string)
    ensures Reason(r, x, y) ==> Reason(r, y, x)
  {
    hide SpeaksFor;
    if a, b :| SpeaksFor(r, x, a) && SpeaksFor(r, y, b) && Supported(r, a, b) {
      assert Supported(r, b, a) by {
        var e :| e in r.edges && RelatedBy(r, e, a, b);
        assert RelatedBy(r, e, b, a);
      }
    }
  }

  lemma SingleWhole(r: Grounds, id: string)
    ensures Whole(r, [id])
  {
    SpeaksForItself(r, id);
    assert Core(r, [id], {id});
  }

  /** What is left over of a file. */
  lemma LeftoverWhole(r: Grounds, g: seq<string>, path: string, c: Category)
    requires c != Declared && forall id :: id in g ==> r.fs(id).path == path && r.fs(id).category == c
    ensures Whole(r, g)
  {
    hide SpeaksFor;
    var n := Members(g);
    forall cut: set<string> | Cuts(n, cut) ensures Crossed(r, n, cut) {
      var x :| x in n && x in cut;
      var y :| y in n && y !in cut;
      assert LeftTogether(r, x, y);
      assert Reason(r, x, y);
    }
    forall id | id in g ensures exists x :: x in n && SpeaksFor(r, x, id) {
      SpeaksForItself(r, id);
    }
    hide Uncut;
    assert Core(r, g, n);
  }

  lemma UncutUnion(r: Grounds, n: set<string>, m: set<string>, a: string, b: string)
    requires Uncut(r, n) && Uncut(r, m) && a in n && b in m && Reason(r, a, b)
    ensures Uncut(r, n + m)
  {
    hide Reason;
    forall cut: set<string> | Cuts(n + m, cut) ensures Crossed(r, n + m, cut) {
      if Cuts(n, cut) {
        assert Crossed(r, n, cut);
      } else if Cuts(m, cut) {
        assert Crossed(r, m, cut);
      } else if a in cut {
        assert b !in cut;
      } else {
        ReasonCommutes(r, a, b);
        assert b in cut;
      }
    }
  }

  /** Two members that share a reason by themselves. */
  ghost predicate Joint(r: Grounds, a: string, b: string) {
    EditTogether(r, a, b) || Supported(r, a, b) || OneFile(r, a, b)
  }

  lemma JointSpeaks(r: Grounds, x: string, a: string, y: string, b: string)
    requires SpeaksFor(r, x, a) && SpeaksFor(r, y, b) && Joint(r, a, b)
    ensures Reason(r, x, y)
  {
    SpeaksPath(r, x, a);
    SpeaksPath(r, y, b);
    hide SpeaksFor;
  }

  lemma CoreUnion(r: Grounds, g: seq<string>, h: seq<string>, n: set<string>, m: set<string>, x: string, y: string)
    requires Core(r, g, n) && Core(r, h, m) && x in n && y in m && Reason(r, x, y)
    ensures Core(r, Union(g, h), n + m)
  {
    UncutUnion(r, n, m, x, y);
    hide Union, Uncut, SpeaksFor, Reason, Carried, Spans;
    SpansUnion(r, g, h, n, m);
    CarriedUnion(r, g, h, n, m);
  }

  lemma SpansUnion(r: Grounds, g: seq<string>, h: seq<string>, n: set<string>, m: set<string>)
    requires Spans(r, g, n) && Spans(r, h, m)
    ensures Spans(r, Union(g, h), n + m)
  {
    hide Union;
    forall id ensures id in Union(g, h) <==> id in g || id in h {
      UnionMembers(g, h, id);
    }
  }

  lemma CarriedUnion(r: Grounds, g: seq<string>, h: seq<string>, n: set<string>, m: set<string>)
    requires Carried(r, g, n) && Carried(r, h, m)
    ensures Carried(r, Union(g, h), n + m)
  {
    hide Union, SpeaksFor;
    forall id | id in Union(g, h) ensures exists z :: z in n + m && SpeaksFor(r, z, id) {
      UnionMembers(g, h, id);
      var z := CarrierOf(r, g, n, h, m, id);
    }
  }

  lemma WholeMerge(r: Grounds, g: seq<string>, h: seq<string>, a: string, b: string)
    requires Whole(r, g) && Whole(r, h) && a in g && b in h && Joint(r, a, b)
    ensures Whole(r, Union(g, h))
  {
    hide Union, SpeaksFor, Joint, Uncut, Carried, Spans, Reason;
    var n: set<string> :| Core(r, g, n);
    var m: set<string> :| Core(r, h, m);
    var x := Carrier(r, g, n, a);
    var y := Carrier(r, h, m, b);
    JointSpeaks(r, x, a, y, b);
    CoreUnion(r, g, h, n, m, x, y);
  }

  lemma SpaceReason(r: Grounds, g: seq<string>, h: seq<string>, n: set<string>, m: set<string>,
                    k: NamespaceQueue.Key, x: string, y: string)
    requires r.spaces && Spans(r, g, n) && Spans(r, h, m) && x in n && y in m
    requires forall id :: id in g || id in h ==> id in r.scopes && k in r.scopes[id]
    ensures Reason(r, x, y)
  {
    assert x in g && y in h;
    assert OneSpace(r, x, y);
  }

  lemma CarriedMore(r: Grounds, g: seq<string>, n: set<string>, id: string, x: string)
    requires Carried(r, g, n) && x in n && SpeaksFor(r, x, id)
    ensures Carried(r, Union(g, [id]), n)
  {
    hide Union, SpeaksFor;
    forall i | i in Union(g, [id]) ensures exists z :: z in n && SpeaksFor(r, z, i) {
      UnionMembers(g, [id], i);
    }
  }

  /** Groups with a common namespace. */
  lemma WholeSpace(r: Grounds, g: seq<string>, h: seq<string>, k: NamespaceQueue.Key)
    requires r.spaces && Whole(r, g) && Whole(r, h) && g != [] && h != []
    requires forall id :: id in g || id in h ==> id in r.scopes && k in r.scopes[id]
    ensures Whole(r, Union(g, h))
  {
    hide Union, SpeaksFor, Uncut, Carried, Spans;
    var n: set<string> :| Core(r, g, n);
    var m: set<string> :| Core(r, h, m);
    assert g[0] in g && h[0] in h;
    var x := Carrier(r, g, n, g[0]);
    var y := Carrier(r, h, m, h[0]);
    SpaceReason(r, g, h, n, m, k, x, y);
    CoreUnion(r, g, h, n, m, x, y);
  }

  /** An import joins a group of its file that a relation to it leads from. */
  lemma WholeAttach(r: Grounds, g: seq<string>, e: Edge)
    requires Whole(r, g) && e in r.edges && e.from in g && r.fs(e.to).category == ImportOnly
    requires forall id :: id in g ==> r.fs(id).path == r.fs(e.to).path
    ensures Whole(r, Union(g, [e.to]))
  {
    hide Union, SpeaksFor, Uncut, Carried;
    var n: set<string> :| Core(r, g, n);
    var x := Carrier(r, g, n, e.from);
    SpeaksNext(r, x, e);
    forall id ensures id in Union(g, [e.to]) <==> id in g || id == e.to {
      UnionMembers(g, [e.to], id);
    }
    CarriedMore(r, g, n, e.to, x);
    assert Core(r, Union(g, [e.to]), n);
  }

  // ---------- Whole passes ----------

  /** The merge joins members that share a reason. */
  ghost function ForReason(r: Grounds): (Groups, nat, nat) -> bool {
    (gs: Groups, i: nat, j: nat) => i < j < |gs| && exists a, b :: a in gs[i] && b in gs[j] && Joint(r, a, b)
  }

  lemma {:induction false} ReplayWhole(r: Grounds, fits: Capacity, gs: Groups, trace: seq<(nat, nat)>)
    requires AllWhole(r, gs) && Replay(fits, gs, trace).Some? && Justified(gs, trace, ForReason(r))
    ensures AllWhole(r, Replay(fits, gs, trace).value)
    decreases |trace|
  {
    hide Whole, Joint, Union, MergeAt;
    if trace != [] {
      var (i, j) := trace[0];
      var a, b :| a in gs[i] && b in gs[j] && Joint(r, a, b);
      WholeMerge(r, gs[i], gs[j], a, b);
      MergedGroups(gs, i, j);
      ReplayWhole(r, fits, MergeAt(gs, i, j), trace[1..]);
    }
  }

  /** The namespace pass merges groups with a namespace in common. */
  lemma {:induction false} SpacesWhole(r: Grounds, c: NamespaceQueue.Input, gs: Groups,
                                       merges: seq<NamespaceQueue.Merge>, out: Groups)
    requires r.spaces && r.scopes == c.scopes && AllWhole(r, gs) && NamespaceQueue.Chosen(c, gs, merges, out)
    ensures AllWhole(r, out)
    decreases |merges|
  {
    hide Whole, Union, MergeAt;
    if merges != [] {
      var k := merges[0].key;
      var i: nat, j: nat :| i < j < |gs| && NamespaceQueue.Chooses(c, gs, i, j, k)
                            && NamespaceQueue.Chosen(c, MergeAt(gs, i, j), merges[1..], out);
      NamespaceQueue.ChoosesCommon(c, gs, i, j, k);
      WholeSpace(r, gs[i], gs[j], k);
      MergedGroups(gs, i, j);
      SpacesWhole(r, c, MergeAt(gs, i, j), merges[1..], out);
    }
  }

  /** Further grounds leave the reasons there are. */
  lemma MoreGrounds(r: Grounds, s: Grounds, gs: Groups)
    requires s.fs == r.fs && s.edges == r.edges && s.scopes == r.scopes
    requires (r.files ==> s.files) && (r.spaces ==> s.spaces) && AllWhole(r, gs)
    ensures AllWhole(s, gs)
  {
    hide Reason, SpeaksFor;
    forall x, id ensures SpeaksFor(s, x, id) <==> SpeaksFor(r, x, id) {
      SameSpeaks(r, s, x, id);
    }
    forall x, y | Reason(r, x, y) ensures Reason(s, x, y) {
      MoreReasons(r, s, x, y);
    }
    hide Whole;
    forall g | g in gs ensures Whole(s, g) {
      MoreWhole(r, s, g);
    }
  }

  lemma MoreWhole(r: Grounds, s: Grounds, g: seq<string>)
    requires s.fs == r.fs && Whole(r, g) && forall x, y :: Reason(r, x, y) ==> Reason(s, x, y)
    requires forall x, id :: SpeaksFor(s, x, id) <==> SpeaksFor(r, x, id)
    ensures Whole(s, g)
  {
    hide Reason, SpeaksFor, Carried, Uncut;
    var n: set<string> :| Core(r, g, n);
    MoreUncut(r, s, n);
    MoreCarried(r, s, g, n);
    assert Core(s, g, n);
  }

  lemma MoreUncut(r: Grounds, s: Grounds, n: set<string>)
    requires Uncut(r, n) && forall x, y :: Reason(r, x, y) ==> Reason(s, x, y)
    ensures Uncut(s, n)
  {
    hide Reason;
    forall cut: set<string> | Cuts(n, cut) ensures Crossed(s, n, cut) {
      assert Crossed(r, n, cut);
    }
  }

  lemma MoreCarried(r: Grounds, s: Grounds, g: seq<string>, n: set<string>)
    requires Carried(r, g, n) && forall x, id :: SpeaksFor(s, x, id) <==> SpeaksFor(r, x, id)
    ensures Carried(s, g, n)
  {
    hide SpeaksFor;
  }

  lemma MoreReasons(r: Grounds, s: Grounds, x: string, y: string)
    requires s.fs == r.fs && s.edges == r.edges && s.scopes == r.scopes
    requires (r.files ==> s.files) && (r.spaces ==> s.spaces) && Reason(r, x, y)
    ensures Reason(s, x, y)
  {
    forall x, id ensures SpeaksFor(s, x, id) <==> SpeaksFor(r, x, id) {
      SameSpeaks(r, s, x, id);
    }
    hide SpeaksFor;
    forall a, b | Supported(r, a, b) ensures Supported(s, a, b) {
      var e :| e in r.edges && RelatedBy(r, e, a, b);
      assert RelatedBy(s, e, a, b);
    }
  }

  lemma SameSpeaks(r: Grounds, s: Grounds, x: string, id: string)
    requires s.fs == r.fs && s.edges == r.edges
    ensures SpeaksFor(s, x, id) <==> SpeaksFor(r, x, id)
  {
    if n: nat :| Carries(r, x, id, n) {
      SameCarries(r, s, x, id, n);
    }
    if n: nat :| Carries(s, x, id, n) {
      SameCarries(s, r, x, id, n);
    }
  }

  lemma {:induction false} SameCarries(r: Grounds, s: Grounds, x: string, id: string, n: nat)
    requires s.fs == r.fs && s.edges == r.edges && Carries(r, x, id, n)
    ensures Carries(s, x, id, n)
    decreases n
  {
    if id != x {
      var e :| e in r.edges && e.to == id && Carries(r, x, e.from, n - 1);
      SameCarries(r, s, x, e.from, n - 1);
    }
  }
}
