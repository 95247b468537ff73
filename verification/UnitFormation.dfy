/** The whole grouping pipeline: local units of each file, relations between files,
    files, namespaces. Every fragment is kept, and only single fragments and leftover
    buckets of one file may exceed the capacity. */
module UnitFormation {
  import opened Basics
  import opened Identifiers
  import opened MergeSteps
  import opened Grouping
  import opened UnitReasons
  import NamespaceQueue
  import Sizes = Capacity

  // ---------- What units must be ----------

  function IsImport(fs: string -> Fragment, id: string): bool {
    fs(id).category == ImportOnly
  }

  /** Each identifier stands in some group, and outside imports in exactly one. */
  ghost predicate Covers(fs: string -> Fragment, ids: set<string>, gs: Groups) {
    forall id ::
      && (id in ids <==> Occ(gs, id) >= 1)
      && (id in ids && !IsImport(fs, id) ==> Occ(gs, id) == 1)
  }

  /** Members of one file that only import, or that no declaration owns. */
  ghost predicate Bucket(fs: string -> Fragment, g: seq<string>) {
    && ((forall id :: id in g ==> fs(id).category == ImportOnly)
        || (forall id :: id in g ==> fs(id).category == Unbound))
    && (forall x, y :: x in g && y in g ==> fs(x).path == fs(y).path)
  }

  predicate WellMade(g: seq<string>) {
    g != [] && forall i, j :: 0 <= i < j < |g| ==> Less(g[i], g[j])
  }

  /** Groups are nonempty and free of duplicates, and fit unless they had no choice. */
  ghost predicate Bounded(fits: Capacity, fs: string -> Fragment, gs: Groups) {
    forall g :: g in gs ==> WellMade(g) && (fits(g) || |g| == 1 || Bucket(fs, g))
  }

  ghost predicate Units(fits: Capacity, fs: string -> Fragment, ids: set<string>, gs: Groups) {
    Covers(fs, ids, gs) && Bounded(fits, fs, gs)
  }

  /** No run of fitting merges can lose this. */
  lemma CoarserKeepsCover(fits: Capacity, fs: string -> Fragment, ids: set<string>, before: Groups, after: Groups)
    requires Covers(fs, ids, before) && Coarser(fits, before, after)
    ensures Covers(fs, ids, after)
  {
    hide Occ;
    forall id
      ensures id in ids <==> Occ(after, id) >= 1
      ensures id in ids && !IsImport(fs, id) ==> Occ(after, id) == 1
    {
      assert Occ(after, id) <= Occ(before, id);
    }
  }

  lemma CoarserKeepsBounds(fits: Capacity, fs: string -> Fragment, before: Groups, after: Groups)
    requires Bounded(fits, fs, before) && Coarser(fits, before, after)
    ensures Bounded(fits, fs, after)
  {
    hide Occ, Bucket;
  }

  lemma ReplayKeepsUnits(fits: Capacity, fs: string -> Fragment, ids: set<string>, before: Groups,
                         trace: seq<(nat, nat)>, after: Groups)
    requires Units(fits, fs, ids, before) && Replay(fits, before, trace) == Some(after)
    ensures Units(fits, fs, ids, after)
  {
    hide *;
    ReplayCoarser(fits, before, trace);
    UnitsParts(fits, fs, ids, before);
    CoarserKeepsCover(fits, fs, ids, before, after);
    CoarserKeepsBounds(fits, fs, before, after);
    UnitsWhole(fits, fs, ids, after);
  }

  lemma UnitsParts(fits: Capacity, fs: string -> Fragment, ids: set<string>, gs: Groups)
    requires Units(fits, fs, ids, gs)
    ensures Covers(fs, ids, gs) && Bounded(fits, fs, gs)
  {
  }

  lemma UnitsWhole(fits: Capacity, fs: string -> Fragment, ids: set<string>, gs: Groups)
    requires Covers(fs, ids, gs) && Bounded(fits, fs, gs)
    ensures Units(fits, fs, ids, gs)
  {
  }

  /** Units of different identifiers side by side. */
  lemma UnitsAppend(fits: Capacity, fs: string -> Fragment, a: set<string>, b: set<string>, x: Groups, y: Groups)
    requires Units(fits, fs, a, x) && Units(fits, fs, b, y) && a !! b
    ensures Units(fits, fs, a + b, x + y)
  {
    hide Occ, Bucket;
    forall id
      ensures id in a + b <==> Occ(x + y, id) >= 1
      ensures id in a + b && !IsImport(fs, id) ==> Occ(x + y, id) == 1
    {
      OccAppend(x, y, id);
    }
  }

  lemma NoUnits(fits: Capacity, fs: string -> Fragment)
    ensures Units(fits, fs, {}, [])
  {
  }

  // ---------- Local units of one file ----------

  /** The identifiers of a category, in order. */
  function OfCategory(fs: string -> Fragment, ids: seq<string>, c: Category): (r: seq<string>)
    ensures forall id :: id in r <==> id in ids && fs(id).category == c
  {
    Filter(ids, id => fs(id).category == c)
  }

  lemma {:induction false} FilterIncreasing(fs: string -> Fragment, ids: seq<string>, c: Category)
    requires Increasing(ids)
    ensures Increasing(OfCategory(fs, ids, c))
  {
    if ids != [] {
      var n := |ids| - 1;
      FilterIncreasing(fs, ids[..n], c);
      var init := OfCategory(fs, ids[..n], c);
      forall k | 0 <= k < |init| ensures Less(init[k], ids[n]) {
        assert init[k] in ids[..n];
      }
    }
  }

  function Singles(ids: seq<string>): Groups {
    if ids == [] then [] else Singles(ids[..|ids| - 1]) + [[ids[|ids| - 1]]]
  }

  lemma {:induction false} SinglesUnits(fits: Capacity, fs: string -> Fragment, ids: seq<string>)
    requires Increasing(ids)
    ensures Units(fits, fs, Members(ids), Singles(ids))
  {
    hide Units;
    if ids == [] {
      NoUnits(fits, fs);
      assert Members(ids) == {};
    } else {
      var n := |ids| - 1;
      SinglesUnits(fits, fs, ids[..n]);
      OneGroup(fits, fs, [ids[n]]);
      forall k | 0 <= k < n ensures ids[k] != ids[n] {
        LessTotal(ids[k], ids[n]);
      }
      UnitsAppend(fits, fs, Members(ids[..n]), Members([ids[n]]), Singles(ids[..n]), [[ids[n]]]);
      assert Members(ids) == Members(ids[..n]) + Members([ids[n]]);
    }
  }

  lemma OneGroup(fits: Capacity, fs: string -> Fragment, g: seq<string>)
    requires WellMade(g) && (fits(g) || |g| == 1 || Bucket(fs, g))
    ensures Units(fits, fs, Members(g), [g])
  {
    hide Bucket;
    forall id ensures Occ([g], id) == if id in g then 1 else 0 {
      OccOne(g, id);
    }
  }

  /** What attaching imports may do: add imports to groups, within capacity. */
  ghost predicate Attached(fits: Capacity, before: Groups, after: Groups, added: set<string>) {
    && |after| == |before|
    && forall k :: 0 <= k < |before| ==>
         && (forall id :: id in after[k] ==> id in before[k] || id in added)
         && (forall id :: id in before[k] ==> id in after[k])
         && (after[k] == before[k] || (fits(after[k]) && WellMade(after[k])))
  }

  /** A group with an edge to the import, which still fits with it. */
  predicate Takes(fits: Capacity, g: seq<string>, id: string, edges: seq<Edge>) {
    (exists e :: e in edges && e.to == id && e.from in g) && fits(Union(g, [id]))
  }

  /** Groups with an edge to the import take it in, when they still fit, and no others. */
  method AttachImport(fits: Capacity, groups: Groups, id: string, edges: seq<Edge>)
    returns (out: Groups, attached: bool)
    ensures Attached(fits, groups, out, {id})
    ensures attached ==> exists k :: 0 <= k < |out| && id in out[k]
    ensures !attached ==> out == groups
    ensures forall k :: 0 <= k < |out| ==>
              out[k] == if Takes(fits, groups[k], id, edges) then Union(groups[k], [id]) else groups[k]
    ensures attached <==> exists k :: 0 <= k < |groups| && Takes(fits, groups[k], id, edges)
  {
    hide Union, WellMade, Takes;
    out, attached := groups, false;
    for i := 0 to |groups|
      invariant |out| == |groups| && Attached(fits, groups, out, {id})
      invariant forall k :: i <= k < |out| ==> out[k] == groups[k]
      invariant attached ==> exists k :: 0 <= k < i && id in out[k]
      invariant !attached ==> out == groups
      invariant forall k :: 0 <= k < i ==>
                  out[k] == if Takes(fits, groups[k], id, edges) then Union(groups[k], [id]) else groups[k]
      invariant attached <==> exists k :: 0 <= k < i && Takes(fits, groups[k], id, edges)
    {
      var taken := TakesImport(fits, groups[i], id, edges);
      if taken {
        var combined := Union(out[i], [id]);
        UnionWellMade(out[i], [id]);
        forall x ensures x in combined <==> x in out[i] || x in [id] {
          UnionMembers(out[i], [id], x);
        }
        assert fits(combined) by { TakenFits(fits, groups[i], id, edges); }
        assert id in [id];
        out := out[i := combined];
        attached := true;
        assert id in out[i];
      }
    }
  }

  lemma TakenFits(fits: Capacity, g: seq<string>, id: string, edges: seq<Edge>)
    requires Takes(fits, g, id, edges)
    ensures fits(Union(g, [id]))
  {}

  /** The edge loop for one group. */
  method TakesImport(fits: Capacity, g: seq<string>, id: string, edges: seq<Edge>) returns (taken: bool)
    ensures taken <==> Takes(fits, g, id, edges)
  {
    hide Union;
    for m := 0 to |edges|
      invariant forall k :: 0 <= k < m && edges[k].to == id && edges[k].from in g ==> !fits(Union(g, [id]))
    {
      var e := edges[m];
      if e.to == id && e.from in g && fits(Union(g, [id])) {
        return true;
      }
    }
    taken := false;
  }

  lemma UnionWellMade(a: seq<string>, b: seq<string>)
    requires b != []
    ensures WellMade(Union(a, b))
  {
    assert b[0] in Union(a, b);
  }

  lemma AttachedTwice(fits: Capacity, a: Groups, b: Groups, c: Groups, x: set<string>, y: set<string>)
    requires Attached(fits, a, b, x) && Attached(fits, b, c, y)
    ensures Attached(fits, a, c, x + y)
  {
    hide WellMade;
  }

  /** The import loop of `localGroups`. */
  method AttachImports(fits: Capacity, groups: Groups, imports: seq<string>, edges: seq<Edge>, ghost r: Grounds,
                       ghost path: string)
    returns (out: Groups, unattached: seq<string>)
    requires Increasing(imports) && r.edges == edges && OfPath(r, groups, path) && AllWhole(r, groups)
    requires forall id :: id in imports ==> r.fs(id).category == ImportOnly && r.fs(id).path == path
    ensures AllWhole(r, out)
    ensures DownwardClosed(fits) ==> AllAttracted(r.fs, fits, out, Members(imports), edges)
    ensures Attached(fits, groups, out, Members(imports))
    ensures Increasing(unattached) && forall id :: id in unattached ==> id in imports
    ensures forall id :: id in imports ==> id in unattached || exists k :: 0 <= k < |out| && id in out[k]
  {
    hide Attached, Takes, Union, OfPath, AllWhole, DownwardClosed, AllAttracted;
    NoneAttracted(r.fs, fits, groups, edges);
    out, unattached := groups, [];
    AttachedNone(fits, groups);
    assert Members(imports[..0]) == {};
    for n := 0 to |imports|
      invariant Attached(fits, groups, out, Members(imports[..n]))
      invariant Increasing(unattached) && forall id :: id in unattached ==> id in imports[..n]
      invariant forall id :: id in imports[..n] ==> id in unattached || exists k :: 0 <= k < |out| && id in out[k]
      invariant OfPath(r, out, path) && AllWhole(r, out)
      invariant DownwardClosed(fits) ==> AllAttracted(r.fs, fits, out, Members(imports[..n]), edges)
    {
      var id := imports[n];
      ghost var before := out;
      var attached;
      out, attached := AttachImport(fits, out, id, edges);
      AttachedTwice(fits, groups, before, out, Members(imports[..n]), {id});
      AttachedMembers(fits, before, out, {id});
      AttachWhole(r, fits, before, out, id, path);
      if DownwardClosed(fits) {
        AttachAttracts(r.fs, fits, before, out, id, Members(imports[..n]), edges);
      }
      assert Members(imports[..n + 1]) == Members(imports[..n]) + {id};
      if !attached {
        OneMoreIncreasing(imports, n, unattached);
        unattached := unattached + [id];
      }
    }
    assert imports[..|imports|] == imports;
  }

  /** No group that a declaration uses one of the imports from could take it in as well. */
  ghost predicate AllAttracted(fs: string -> Fragment, fits: Capacity, gs: Groups, imports: set<string>,
                               edges: seq<Edge>)
  {
    forall e :: e in edges && Drawn(fs, e) && e.to in imports ==> Attracted(fits, gs, e.from, e.to)
  }

  lemma NoneAttracted(fs: string -> Fragment, fits: Capacity, gs: Groups, edges: seq<Edge>)
    ensures AllAttracted(fs, fits, gs, {}, edges)
  {}

  lemma AttachAttracts(fs: string -> Fragment, fits: Capacity, before: Groups, after: Groups, id: string,
                       imports: set<string>, edges: seq<Edge>)
    requires DownwardClosed(fits) && AllAttracted(fs, fits, before, imports, edges) && |after| == |before|
    requires fs(id).category == ImportOnly
    requires forall k :: 0 <= k < |after| ==>
               after[k] == if Takes(fits, before[k], id, edges) then Union(before[k], [id]) else before[k]
    ensures AllAttracted(fs, fits, after, imports + {id}, edges)
  {
    hide Union, DownwardClosed;
    forall e, g | e in edges && Drawn(fs, e) && e.to in imports + {id} && g in after && e.from in g
      ensures e.to in g || !fits(Union(g, [e.to]))
    {
      var k :| 0 <= k < |after| && after[k] == g;
      forall x ensures x in Union(before[k], [id]) <==> x in before[k] || x == id {
        UnionMembers(before[k], [id], x);
      }
      if e.to in imports {
        assert before[k] in before && Attracted(fits, before, e.from, e.to);
        AttractedGroup(fits, before[k], g, e.to);
      }
    }
  }

  ghost predicate OfPath(r: Grounds, gs: Groups, path: string) {
    forall g, id :: g in gs && id in g ==> r.fs(id).path == path
  }

  /** Taking in an import leaves groups whole. */
  lemma AttachWhole(r: Grounds, fits: Capacity, before: Groups, after: Groups, id: string, path: string)
    requires AllWhole(r, before) && OfPath(r, before, path) && |after| == |before|
    requires r.fs(id).category == ImportOnly && r.fs(id).path == path
    requires forall k :: 0 <= k < |after| ==>
               after[k] == if Takes(fits, before[k], id, r.edges) then Union(before[k], [id]) else before[k]
    ensures AllWhole(r, after) && OfPath(r, after, path)
  {
    hide Union, Whole;
    forall g | g in after ensures Whole(r, g) && forall x :: x in g ==> r.fs(x).path == path {
      var k :| 0 <= k < |after| && after[k] == g;
      assert before[k] in before;
      if Takes(fits, before[k], id, r.edges) {
        var e :| e in r.edges && e.to == id && e.from in before[k];
        WholeAttach(r, before[k], e);
        forall x | x in g ensures r.fs(x).path == path {
          UnionMembers(before[k], [id], x);
        }
      }
    }
  }

  lemma OneMoreIncreasing(imports: seq<string>, n: nat, some: seq<string>)
    requires Increasing(imports) && n < |imports| && Increasing(some) && forall id :: id in some ==> id in imports[..n]
    ensures Increasing(some + [imports[n]])
  {
    forall k | 0 <= k < |some| ensures Less(some[k], imports[n]) {
      assert some[k] in imports[..n];
    }
  }

  lemma AttachedNone(fits: Capacity, gs: Groups)
    ensures Attached(fits, gs, gs, {})
  {
  }

  lemma AttachedMembers(fits: Capacity, before: Groups, after: Groups, added: set<string>)
    requires Attached(fits, before, after, added)
    ensures |after| == |before|
    ensures forall k, id :: 0 <= k < |before| && id in before[k] ==> id in after[k]
  {
  }

  lemma {:induction false} AttachedOcc(fits: Capacity, before: Groups, after: Groups, added: set<string>, id: string)
    requires Attached(fits, before, after, added)
    ensures Occ(before, id) <= Occ(after, id)
    ensures id !in added ==> Occ(after, id) == Occ(before, id)
    ensures (exists k :: 0 <= k < |after| && id in after[k]) <==> Occ(after, id) >= 1
    decreases |after|
  {
    hide WellMade;
    if after != [] {
      var n := |after| - 1;
      assert Attached(fits, before[..n], after[..n], added);
      AttachedOcc(fits, before[..n], after[..n], added, id);
    }
  }

  /** Attaching imports that stood nowhere keeps units, for the imports that found a place. */
  lemma AttachKeepsUnits(fits: Capacity, fs: string -> Fragment, ids: set<string>, before: Groups, after: Groups,
                         imports: set<string>, unattached: set<string>)
    requires Units(fits, fs, ids, before) && Attached(fits, before, after, imports) && ids !! imports
    requires forall id :: id in imports ==> IsImport(fs, id)
    requires forall id :: id in imports ==>
               (id in unattached || exists k :: 0 <= k < |after| && id in after[k])
    requires unattached <= imports
    ensures Bounded(fits, fs, after)
    ensures forall id :: id in ids && !IsImport(fs, id) ==> Occ(after, id) == 1
    ensures forall id :: id in ids || (id in imports && id !in unattached) ==> Occ(after, id) >= 1
    ensures forall id :: Occ(after, id) >= 1 ==> id in ids || id in imports
  {
    hide Occ, Bucket, WellMade;
    forall id
      ensures id in ids && !IsImport(fs, id) ==> Occ(after, id) == 1
      ensures id in ids || (id in imports && id !in unattached) ==> Occ(after, id) >= 1
      ensures Occ(after, id) >= 1 ==> id in ids || id in imports
    {
      AttachedOcc(fits, before, after, imports, id);
    }
    forall g | g in after ensures WellMade(g) && (fits(g) || |g| == 1 || Bucket(fs, g)) {
      var k :| 0 <= k < |after| && after[k] == g;
      assert before[k] in before;
    }
  }

  // ---------- What the local passes exhaust ----------

  /** The fragments of one file that edit a declaration. */
  ghost function EditingIn(fs: string -> Fragment, ids: set<string>, path: string, key: Owner): set<string> {
    set id | id in ids && fs(id).category == Declared && fs(id).path == path && key in fs(id).owners
  }

  /** Relations the local pass accepts. */
  function SameFileEdges(fs: string -> Fragment, strong: Edge -> bool): Edge -> bool {
    (e: Edge) => fs(e.from).path == fs(e.to).path && strong(e)
  }

  /** An accepted relation between declarations of one file. */
  predicate Inner(fs: string -> Fragment, strong: Edge -> bool, e: Edge) {
    SameFileEdges(fs, strong)(e) && fs(e.from).category == Declared && fs(e.to).category == Declared
  }

  /** No declaration of a file is edited from two groups that fit together, and no accepted
      relation inside a file joins two. */
  ghost predicate Settled(fits: Capacity, fs: string -> Fragment, ids: set<string>, gs: Groups, edges: seq<Edge>,
                           strong: Edge -> bool)
  {
    && (forall path, key :: Apart(fits, gs, EditingIn(fs, ids, path, key), EditingIn(fs, ids, path, key)))
    && (forall e :: e in edges && Inner(fs, strong, e) ==> Apart(fits, gs, {e.from}, {e.to}))
  }

  /** No group that uses an import of its file could take it in as well. */
  ghost predicate Served(fits: Capacity, fs: string -> Fragment, ids: set<string>, gs: Groups, edges: seq<Edge>) {
    forall e :: e in edges && Drawn(fs, e) && e.from in ids && e.to in ids ==> Attracted(fits, gs, e.from, e.to)
  }

  /** What the local passes exhaust. */
  ghost predicate Local(fits: Capacity, fs: string -> Fragment, ids: set<string>, gs: Groups, edges: seq<Edge>,
                        strong: Edge -> bool)
  {
    Settled(fits, fs, ids, gs, edges, strong) && Served(fits, fs, ids, gs, edges)
  }

  /** A relation from a declaration to an import of its file. */
  predicate Drawn(fs: string -> Fragment, e: Edge) {
    fs(e.from).path == fs(e.to).path && fs(e.from).category == Declared && fs(e.to).category == ImportOnly
  }

  /** Later merges and reorderings keep that. */
  lemma LocalReplays(fits: Capacity, fs: string -> Fragment, ids: set<string>, gs: Groups, trace: seq<(nat, nat)>,
                     mid: Groups, out: Groups, edges: seq<Edge>, strong: Edge -> bool)
    requires DownwardClosed(fits) && Replay(fits, gs, trace) == Some(mid) && multiset(mid) == multiset(out)
    requires Local(fits, fs, ids, gs, edges, strong)
    ensures Local(fits, fs, ids, out, edges, strong)
  {
    hide DownwardClosed, Apart, Replay, EditingIn;
    forall path, key ensures Apart(fits, out, EditingIn(fs, ids, path, key), EditingIn(fs, ids, path, key)) {
      var editing := EditingIn(fs, ids, path, key);
      ReplayApart(fits, gs, trace, editing, editing);
      ApartReordered(fits, mid, out, editing, editing);
    }
    forall e | e in edges && Inner(fs, strong, e) ensures Apart(fits, out, {e.from}, {e.to}) {
      ReplayApart(fits, gs, trace, {e.from}, {e.to});
      ApartReordered(fits, mid, out, {e.from}, {e.to});
    }
    forall e | e in edges && Drawn(fs, e) && e.from in ids && e.to in ids ensures Attracted(fits, out, e.from, e.to) {
      ReplayAttracted(fits, gs, trace, e.from, e.to);
      AttractedReordered(fits, mid, out, e.from, e.to);
    }
  }

  lemma AttractedReordered(fits: Capacity, gs: Groups, out: Groups, a: string, id: string)
    requires Attracted(fits, gs, a, id) && multiset(gs) == multiset(out)
    ensures Attracted(fits, out, a, id)
  {
    hide Union;
    forall g | g in out ensures g in gs {
      assert g in multiset(out);
    }
  }

  /** The local passes of one file, and what stands beside their groups in the end. */
  lemma LocalPasses(fits: Capacity, fs: string -> Fragment, ids: seq<string>, declared: seq<string>, owned: Groups,
                    related: seq<(nat, nat)>, joined: Groups, edges: seq<Edge>, strong: Edge -> bool)
    requires DownwardClosed(fits) && declared == OfCategory(fs, ids, Declared)
    requires forall key :: Apart(fits, owned, Editors(fs, Singles(declared), key), Editors(fs, Singles(declared), key))
    requires Replay(fits, owned, related) == Some(joined)
    requires Exhausted(fits, joined, edges, SameFileEdges(fs, strong))
    ensures Settled(fits, fs, Members(ids), joined, edges, strong)
  {
    hide DownwardClosed, Apart, Replay, Singles;
    forall path, key
      ensures Apart(fits, joined, EditingIn(fs, Members(ids), path, key), EditingIn(fs, Members(ids), path, key))
    {
      var editors := Editors(fs, Singles(declared), key);
      EditingEditors(fs, ids, declared, path, key);
      ReplayApart(fits, owned, related, editors, editors);
      ApartLess(fits, joined, editors, editors, EditingIn(fs, Members(ids), path, key),
                EditingIn(fs, Members(ids), path, key));
    }
  }

  lemma EditingEditors(fs: string -> Fragment, ids: seq<string>, declared: seq<string>, path: string, key: Owner)
    requires declared == OfCategory(fs, ids, Declared)
    ensures EditingIn(fs, Members(ids), path, key) <= Editors(fs, Singles(declared), key)
  {
    hide OfCategory;
    forall id | id in EditingIn(fs, Members(ids), path, key) ensures id in Editors(fs, Singles(declared), key) {
      SinglesHold(declared, id);
    }
  }

  lemma {:induction false} SinglesHold(ids: seq<string>, id: string)
    requires id in ids
    ensures [id] in Singles(ids)
  {
    var n := |ids| - 1;
    if ids[n] != id {
      assert id in ids[..n];
      SinglesHold(ids[..n], id);
    }
  }

  /** Attached imports and leftovers hold no declaration. */
  lemma LocalAttaches(fits: Capacity, fs: string -> Fragment, ids: set<string>, joined: Groups, attached: Groups,
                      imports: set<string>, more: Groups, edges: seq<Edge>, strong: Edge -> bool)
    requires DownwardClosed(fits) && Settled(fits, fs, ids, joined, edges, strong)
    requires forall e :: e in edges && Drawn(fs, e) && e.to in imports ==> Attracted(fits, attached, e.from, e.to)
    requires forall id :: id in ids && fs(id).category == ImportOnly ==> id in imports
    requires Attached(fits, joined, attached, imports)
    requires forall id :: id in imports ==> fs(id).category != Declared
    requires forall g, id :: g in more && id in g ==> fs(id).category != Declared
    ensures Local(fits, fs, ids, attached + more, edges, strong)
  {
    hide DownwardClosed, Apart, WellMade;
    forall path, key
      ensures Apart(fits, attached + more, EditingIn(fs, ids, path, key), EditingIn(fs, ids, path, key))
    {
      var editing := EditingIn(fs, ids, path, key);
      ApartGrown(fits, joined, attached, imports, editing, editing);
      ApartBeside(fits, attached, more, editing, editing);
    }
    forall e | e in edges && Inner(fs, strong, e) ensures Apart(fits, attached + more, {e.from}, {e.to}) {
      ApartGrown(fits, joined, attached, imports, {e.from}, {e.to});
      ApartBeside(fits, attached, more, {e.from}, {e.to});
    }
    hide Union, Attached, EditingIn;
  }

  /** Files side by side. */
  lemma LocalAppend(fits: Capacity, fs: string -> Fragment, a: set<string>, b: set<string>, x: Groups, y: Groups,
                    path: string, edges: seq<Edge>, strong: Edge -> bool)
    requires Local(fits, fs, a, x, edges, strong) && Local(fits, fs, b, y, edges, strong)
    requires Covers(fs, a, x) && Covers(fs, b, y)
    requires (forall id :: id in a ==> fs(id).path != path) && (forall id :: id in b ==> fs(id).path == path)
    ensures Local(fits, fs, a + b, x + y, edges, strong)
  {
    hide Apart, Hits, Covers;
    MembersCovered(fs, a, x);
    MembersCovered(fs, b, y);
    forall p, key ensures Apart(fits, x + y, EditingIn(fs, a + b, p, key), EditingIn(fs, a + b, p, key)) {
      var editing := EditingIn(fs, a + b, p, key);
      if p == path {
        assert editing == EditingIn(fs, b, p, key);
        assert forall id :: id in editing ==> fs(id).path == path;
        NoHits(x, a, editing);
        ApartBeside(fits, y, x, editing, editing);
      } else {
        assert editing == EditingIn(fs, a, p, key);
        NoHits(y, b, editing);
        ApartBeside(fits, x, y, editing, editing);
      }
    }
    forall e | e in edges && Inner(fs, strong, e) ensures Apart(fits, x + y, {e.from}, {e.to}) {
      if fs(e.from).path == path {
        NoHits(x, a, {e.from});
        NoHits(x, a, {e.to});
        ApartBeside(fits, y, x, {e.from}, {e.to});
      } else {
        NoHits(y, b, {e.from});
        NoHits(y, b, {e.to});
        ApartBeside(fits, x, y, {e.from}, {e.to});
      }
    }
    ServedAppend(fits, fs, a, b, x, y, path, edges);
  }

  lemma ServedAppend(fits: Capacity, fs: string -> Fragment, a: set<string>, b: set<string>, x: Groups, y: Groups,
                     path: string, edges: seq<Edge>)
    requires Served(fits, fs, a, x, edges) && Served(fits, fs, b, y, edges)
    requires (forall g, id :: g in x && id in g ==> id in a) && (forall g, id :: g in y && id in g ==> id in b)
    requires (forall id :: id in a ==> fs(id).path != path) && (forall id :: id in b ==> fs(id).path == path)
    ensures Served(fits, fs, a + b, x + y, edges)
  {
    hide Union;
    forall e | e in edges && Drawn(fs, e) && e.from in a + b && e.to in a + b
      ensures Attracted(fits, x + y, e.from, e.to)
    {
      if e.from in a {
        assert Attracted(fits, x, e.from, e.to);
      } else {
        assert Attracted(fits, y, e.from, e.to);
      }
    }
  }

  lemma MembersCovered(fs: string -> Fragment, ids: set<string>, gs: Groups)
    requires Covers(fs, ids, gs)
    ensures forall g, id :: g in gs && id in g ==> id in ids
  {
    hide Occ;
    forall g, id | g in gs && id in g ensures id in ids {
      var p :| 0 <= p < |gs| && gs[p] == g;
      InGroup(gs, p, id);
    }
  }

  lemma NoHits(gs: Groups, ids: set<string>, others: set<string>)
    requires (forall g, id :: g in gs && id in g ==> id in ids) && ids !! others
    ensures forall g :: g in gs ==> !Hits(g, others)
  {}

  lemma NothingLocal(fits: Capacity, fs: string -> Fragment, edges: seq<Edge>, strong: Edge -> bool)
    ensures Local(fits, fs, {}, [], edges, strong)
  {}

  function Leftover(g: seq<string>): Groups {
    if g == [] then [] else [g]
  }

  /** `localGroups`: the units of one file. */
  method LocalGroups(fits: Capacity, fs: string -> Fragment, ids: seq<string>, edges: seq<Edge>, ghost r: Grounds,
                     ghost path: string)
    returns (out: Groups)
    requires Increasing(ids) && forall x :: x in ids ==> fs(x).path == path
    requires r.fs == fs && r.edges == edges
    ensures Units(fits, fs, Members(ids), out) && AllWhole(r, out)
    ensures DownwardClosed(fits) ==> Local(fits, fs, Members(ids), out, edges, Strong(fs))
  {
    hide Units, Replay, Increasing, Attached, Singles, Local, Exhausted, DownwardClosed, Apart, Editors, Justified,
         AllWhole, OfPath, Strong;
    var declared := OfCategory(fs, ids, Declared);
    var imports := OfCategory(fs, ids, ImportOnly);
    var unknown := OfCategory(fs, ids, Unbound);
    FilterIncreasing(fs, ids, Declared);
    FilterIncreasing(fs, ids, ImportOnly);
    FilterIncreasing(fs, ids, Unbound);
    SinglesUnits(fits, fs, declared);
    ghost var merged, related;
    var owned, joined, attached, unattached;
    owned, merged := MergeOwners(fits, fs, Singles(declared));
    ReplayKeepsUnits(fits, fs, Members(declared), Singles(declared), merged, owned);
    joined, related := MergeEdges(fits, owned, edges, SameFileEdges(fs, Strong(fs)));
    ReplayKeepsUnits(fits, fs, Members(declared), owned, related, joined);
    LocalWhole(r, fits, declared, path, merged, owned, related, joined);
    attached, unattached := AttachImports(fits, joined, imports, edges, r, path);
    LeftoversWhole(r, attached, unattached, unknown, path);
    LocalUnits(fits, fs, ids, declared, imports, unknown, joined, attached, unattached);
    out := attached + Leftover(unattached) + Leftover(unknown);
    if DownwardClosed(fits) {
      LocalPasses(fits, fs, ids, declared, owned, related, joined, edges, Strong(fs));
      LocalAttaches(fits, fs, Members(ids), joined, attached, Members(imports),
                    Leftover(unattached) + Leftover(unknown), edges, Strong(fs));
      assert attached + (Leftover(unattached) + Leftover(unknown)) == out;
    }
  }

  lemma {:induction false} SinglesWhole(r: Grounds, ids: seq<string>, path: string)
    requires forall id :: id in ids ==> r.fs(id).path == path
    ensures AllWhole(r, Singles(ids)) && OfPath(r, Singles(ids), path)
    ensures forall g, id :: g in Singles(ids) && id in g ==> id in ids
  {
    hide Whole;
    if ids != [] {
      SinglesWhole(r, ids[..|ids| - 1], path);
      SingleWhole(r, ids[|ids| - 1]);
    }
  }

  /** The owner and relation passes only join what shares a reason. */
  lemma LocalWhole(r: Grounds, fits: Capacity, declared: seq<string>, path: string, merged: seq<(nat, nat)>,
                   owned: Groups, related: seq<(nat, nat)>, joined: Groups)
    requires forall id :: id in declared ==> r.fs(id).path == path && r.fs(id).category == Declared
    requires Replay(fits, Singles(declared), merged) == Some(owned)
    requires Justified(Singles(declared), merged, ForOwner(r.fs, Singles(declared)))
    requires Replay(fits, owned, related) == Some(joined)
    requires Justified(owned, related, ForEdge(fits, r.edges, SameFileEdges(r.fs, Strong(r.fs))))
    ensures AllWhole(r, joined) && OfPath(r, joined, path)
  {
    hide Replay, Justified, Singles, AllWhole, ForOwner, ForEdge, SameFileEdges, Strong, OfPath, Coarser;
    SinglesWhole(r, declared, path);
    OwnedWhole(r, fits, declared, path, merged, owned);
    StrongWhole(r, fits, owned, related, joined);
    ReplayCoarser(fits, Singles(declared), merged);
    ReplayCoarser(fits, owned, related);
    CoarserPath(r, fits, Singles(declared), owned, path);
    CoarserPath(r, fits, owned, joined, path);
  }

  lemma OwnedWhole(r: Grounds, fits: Capacity, declared: seq<string>, path: string, merged: seq<(nat, nat)>,
                   owned: Groups)
    requires forall id :: id in declared ==> r.fs(id).path == path && r.fs(id).category == Declared
    requires Replay(fits, Singles(declared), merged) == Some(owned)
    requires Justified(Singles(declared), merged, ForOwner(r.fs, Singles(declared)))
    ensures AllWhole(r, owned)
  {
    hide Replay, Justified, Singles, Joint, AllWhole, Editors;
    SinglesWhole(r, declared, path);
    forall gs, i, j | ForOwner(r.fs, Singles(declared))(gs, i, j) ensures ForReason(r)(gs, i, j) {
      OwnersJoint(r, declared, path, gs, i, j);
    }
    JustifiedBy(Singles(declared), merged, ForOwner(r.fs, Singles(declared)), ForReason(r));
    ReplayWhole(r, fits, Singles(declared), merged);
  }

  lemma StrongWhole(r: Grounds, fits: Capacity, owned: Groups, related: seq<(nat, nat)>, joined: Groups)
    requires AllWhole(r, owned) && Replay(fits, owned, related) == Some(joined)
    requires Justified(owned, related, ForEdge(fits, r.edges, SameFileEdges(r.fs, Strong(r.fs))))
    ensures AllWhole(r, joined)
  {
    hide Replay, Justified, Joint, AllWhole;
    forall gs, i, j | ForEdge(fits, r.edges, SameFileEdges(r.fs, Strong(r.fs)))(gs, i, j)
      ensures ForReason(r)(gs, i, j)
    {
      EdgesJoint(r, fits, SameFileEdges(r.fs, Strong(r.fs)), gs, i, j);
    }
    JustifiedBy(owned, related, ForEdge(fits, r.edges, SameFileEdges(r.fs, Strong(r.fs))), ForReason(r));
    ReplayWhole(r, fits, owned, related);
  }

  lemma OwnersJoint(r: Grounds, declared: seq<string>, path: string, gs: Groups, i: nat, j: nat)
    requires forall id :: id in declared ==> r.fs(id).path == path && r.fs(id).category == Declared
    requires forall g, id :: g in Singles(declared) && id in g ==> id in declared
    requires ForOwner(r.fs, Singles(declared))(gs, i, j)
    ensures ForReason(r)(gs, i, j)
  {
    hide Singles, Supported, OneFile, EditTogether, Editors;
    var key :| Touching(Editors(r.fs, Singles(declared), key))(gs, i, j);
    var editors := Editors(r.fs, Singles(declared), key);
    var a :| 0 <= a < |gs[i]| && gs[i][a] in editors;
    var b :| 0 <= b < |gs[j]| && gs[j][b] in editors;
    EditorsTogether(r, declared, path, key, gs[i][a], gs[j][b]);
    assert gs[i][a] in gs[i] && gs[j][b] in gs[j] && Joint(r, gs[i][a], gs[j][b]);
  }

  lemma EditorsTogether(r: Grounds, declared: seq<string>, path: string, key: Owner, x: string, y: string)
    requires forall id :: id in declared ==> r.fs(id).path == path && r.fs(id).category == Declared
    requires forall g, id :: g in Singles(declared) && id in g ==> id in declared
    requires x in Editors(r.fs, Singles(declared), key) && y in Editors(r.fs, Singles(declared), key)
    ensures EditTogether(r, x, y)
  {
    hide Singles;
  }

  lemma EdgesJoint(r: Grounds, fits: Capacity, accept: Edge -> bool, gs: Groups, i: nat, j: nat)
    requires ForEdge(fits, r.edges, accept)(gs, i, j) && forall e :: accept(e) ==> RelationStrength(r.fs, e) < 2
    ensures ForReason(r)(gs, i, j)
  {
    hide Union;
    var e :| e in r.edges && accept(e) && Joining(fits, e)(gs, i, j);
    var a, b := if e.from in gs[i] && e.to in gs[j] then e.from else e.to,
                if e.from in gs[i] && e.to in gs[j] then e.to else e.from;
    assert RelatedBy(r, e, a, b);
    assert a in gs[i] && b in gs[j] && Joint(r, a, b);
  }

  /** Merged groups hold nothing new. */
  lemma CoarserPath(r: Grounds, fits: Capacity, before: Groups, after: Groups, path: string)
    requires Coarser(fits, before, after) && OfPath(r, before, path)
    ensures OfPath(r, after, path)
  {
    forall g, id | g in after && id in g ensures r.fs(id).path == path {
      var p :| 0 <= p < |after| && after[p] == g;
      InGroup(after, p, id);
      var q := Occurs(before, id);
      assert before[q] in before;
    }
  }

  lemma {:induction false} Occurs(gs: Groups, id: string) returns (p: nat)
    requires Occ(gs, id) >= 1
    ensures p < |gs| && id in gs[p]
  {
    p := |gs| - 1;
    if id !in gs[p] {
      p := Occurs(gs[..p], id);
    }
  }

  lemma LeftoversWhole(r: Grounds, attached: Groups, unattached: seq<string>, unknown: seq<string>, path: string)
    requires AllWhole(r, attached)
    requires forall id :: id in unattached ==> r.fs(id).path == path && r.fs(id).category == ImportOnly
    requires forall id :: id in unknown ==> r.fs(id).path == path && r.fs(id).category == Unbound
    ensures AllWhole(r, attached + Leftover(unattached) + Leftover(unknown))
  {
    hide Whole;
    LeftoverWhole(r, unattached, path, ImportOnly);
    LeftoverWhole(r, unknown, path, Unbound);
  }

  /** The pieces of a file make up its units. */
  lemma LocalUnits(fits: Capacity, fs: string -> Fragment, ids: seq<string>, declared: seq<string>,
                   imports: seq<string>, unknown: seq<string>, joined: Groups, attached: Groups,
                   unattached: seq<string>)
    requires forall x, y :: x in ids && y in ids ==> fs(x).path == fs(y).path
    requires declared == OfCategory(fs, ids, Declared) && imports == OfCategory(fs, ids, ImportOnly)
    requires unknown == OfCategory(fs, ids, Unbound) && Increasing(unknown) && Increasing(unattached)
    requires Units(fits, fs, Members(declared), joined) && Attached(fits, joined, attached, Members(imports))
    requires forall id :: id in unattached ==> id in imports
    requires forall id :: id in imports ==> id in unattached || exists k :: 0 <= k < |attached| && id in attached[k]
    ensures Units(fits, fs, Members(ids), attached + Leftover(unattached) + Leftover(unknown))
  {
    hide Units, Attached, Occ, Bucket, Filter, WellMade;
    AttachKeepsUnits(fits, fs, Members(declared), joined, attached, Members(imports), Members(unattached));
    LeftoverBounded(fits, fs, unattached, ImportOnly);
    LeftoverBounded(fits, fs, unknown, Unbound);
    var out := attached + Leftover(unattached) + Leftover(unknown);
    assert Bounded(fits, fs, out);
    forall id
      ensures id in Members(ids) <==> Occ(out, id) >= 1
      ensures id in Members(ids) && !IsImport(fs, id) ==> Occ(out, id) == 1
    {
      OccAppend(attached + Leftover(unattached), Leftover(unknown), id);
      OccAppend(attached, Leftover(unattached), id);
      LeftoverOcc(unattached, id);
      LeftoverOcc(unknown, id);
    }
    UnitsWhole(fits, fs, Members(ids), out);
  }

  lemma LeftoverOcc(g: seq<string>, id: string)
    ensures Occ(Leftover(g), id) == if id in g then 1 else 0
  {
    if g != [] {
      OccOne(g, id);
    }
  }

  lemma LeftoverBounded(fits: Capacity, fs: string -> Fragment, g: seq<string>, c: Category)
    requires Increasing(g) && (c == ImportOnly || c == Unbound)
    requires forall id :: id in g ==> fs(id).category == c
    requires forall x, y :: x in g && y in g ==> fs(x).path == fs(y).path
    ensures Bounded(fits, fs, Leftover(g))
  {
  }

  // ---------- All files ----------

  /** `canonicalize`: the list of groups in the order of their joined members. */
  function Place(g: seq<string>, gs: Groups): Groups {
    if gs == [] || Less(Join(g, [0 as char]), Join(gs[0], [0 as char])) then [g] + gs else [gs[0]] + Place(g, gs[1..])
  }

  function Canonicalize(gs: Groups): Groups {
    if gs == [] then [] else Place(gs[0], Canonicalize(gs[1..]))
  }

  /** In the order of the joined members. */
  ghost predicate Ordered(gs: Groups) {
    forall i, j :: 0 <= i < j < |gs| ==> !Less(Join(gs[j], [0 as char]), Join(gs[i], [0 as char]))
  }

  lemma {:induction false} PlaceOrders(g: seq<string>, gs: Groups)
    requires Ordered(gs)
    ensures Ordered(Place(g, gs))
  {
    hide Less, Join;
    if gs == [] || Less(Join(g, [0 as char]), Join(gs[0], [0 as char])) {
      forall j | 0 <= j < |gs| ensures !Less(Join(gs[j], [0 as char]), Join(g, [0 as char])) {
        if Less(Join(gs[j], [0 as char]), Join(g, [0 as char])) {
          LessTransitive(Join(gs[j], [0 as char]), Join(g, [0 as char]), Join(gs[0], [0 as char]));
          LessTotal(Join(gs[0], [0 as char]), Join(gs[0], [0 as char]));
        }
      }
    } else {
      var rest := gs[1..];
      assert forall i :: 0 <= i < |rest| ==> rest[i] == gs[i + 1];
      PlaceOrders(g, rest);
      PlacePermutes(g, rest);
      FirstStays(g, gs, Place(g, rest));
    }
  }

  lemma FirstStays(g: seq<string>, gs: Groups, r: Groups)
    requires gs != [] && Ordered(gs) && Ordered(r) && multiset(r) == multiset(gs[1..]) + multiset{g}
    requires !Less(Join(g, [0 as char]), Join(gs[0], [0 as char]))
    ensures Ordered([gs[0]] + r)
  {
    hide Less, Join;
    forall j | 0 <= j < |r| ensures !Less(Join(r[j], [0 as char]), Join(gs[0], [0 as char])) {
      assert r[j] in multiset(r);
      if r[j] != g {
        assert r[j] in gs[1..];
        var i :| 0 <= i < |gs| - 1 && gs[1..][i] == r[j];
        assert gs[i + 1] == r[j];
      }
    }
  }

  lemma {:induction false} CanonicalizeOrders(gs: Groups)
    ensures Ordered(Canonicalize(gs))
  {
    hide Place, Less, Join;
    if gs != [] {
      CanonicalizeOrders(gs[1..]);
      PlaceOrders(gs[0], Canonicalize(gs[1..]));
    }
  }

  lemma {:induction false} PlaceOcc(g: seq<string>, gs: Groups, id: string)
    ensures Occ(Place(g, gs), id) == Occ(gs, id) + if id in g then 1 else 0
    ensures forall x :: x in Place(g, gs) <==> x == g || x in gs
  {
    hide Occ;
    OccOne(g, id);
    if gs == [] || Less(Join(g, [0 as char]), Join(gs[0], [0 as char])) {
      OccAppend([g], gs, id);
    } else {
      PlaceOcc(g, gs[1..], id);
      OccAppend([gs[0]], Place(g, gs[1..]), id);
      OccAppend([gs[0]], gs[1..], id);
      assert gs == [gs[0]] + gs[1..];
    }
  }

  lemma {:induction false} CanonicalizeOcc(gs: Groups, id: string)
    ensures Occ(Canonicalize(gs), id) == Occ(gs, id)
    ensures forall x :: x in Canonicalize(gs) <==> x in gs
  {
    hide Occ, Place;
    if gs != [] {
      CanonicalizeOcc(gs[1..], id);
      PlaceOcc(gs[0], Canonicalize(gs[1..]), id);
      OccOne(gs[0], id);
      OccAppend([gs[0]], gs[1..], id);
      assert gs == [gs[0]] + gs[1..];
    }
  }

  lemma CanonicalizeUnits(fits: Capacity, fs: string -> Fragment, ids: set<string>, gs: Groups)
    ensures Units(fits, fs, ids, gs) ==> Units(fits, fs, ids, Canonicalize(gs))
    ensures Covers(fs, ids, gs) ==> Covers(fs, ids, Canonicalize(gs))
    ensures forall x :: x in Canonicalize(gs) <==> x in gs
  {
    hide Occ, Bucket, Canonicalize, WellMade;
    CanonicalizeOcc(gs, "");
    forall id ensures Occ(Canonicalize(gs), id) == Occ(gs, id) {
      CanonicalizeOcc(gs, id);
    }
  }

  function OfFile(fs: string -> Fragment, ids: seq<string>, path: string): (r: seq<string>)
    ensures forall id :: id in r <==> id in ids && fs(id).path == path
  {
    if ids == [] then []
    else OfFile(fs, ids[..|ids| - 1], path) + if fs(ids[|ids| - 1]).path == path then [ids[|ids| - 1]] else []
  }

  lemma {:induction false} OfFileIncreasing(fs: string -> Fragment, ids: seq<string>, path: string)
    requires Increasing(ids)
    ensures Increasing(OfFile(fs, ids, path))
  {
    if ids != [] {
      var n := |ids| - 1;
      OfFileIncreasing(fs, ids[..n], path);
      var init := OfFile(fs, ids[..n], path);
      forall k | 0 <= k < |init| ensures Less(init[k], ids[n]) {
        assert init[k] in ids[..n];
      }
    }
  }

  /** The groups every file starts with: its local units, or all of it as one group. */
  method StartGroups(fits: Capacity, fs: string -> Fragment, ids: seq<string>, edges: seq<Edge>, fileOnly: bool,
                     ghost r: Grounds)
    returns (groups: Groups)
    requires Increasing(ids) && r.fs == fs && r.edges == edges
    ensures !fileOnly ==> Units(fits, fs, Members(ids), groups) && AllWhole(r, groups)
    ensures !fileOnly && DownwardClosed(fits) ==> Local(fits, fs, Members(ids), groups, edges, Strong(fs))
    ensures fileOnly ==> Covers(fs, Members(ids), groups)
                         && forall g :: g in groups ==> exists x :: x in ids && g == OfFile(fs, ids, fs(x).path)
  {
    hide Units, Covers, Increasing, Local, DownwardClosed, Whole, Strong;
    var paths := Identifiers.SortKeys(set id | id in ids :: fs(id).path);
    groups := [];
    ghost var done: set<string> := {};
    NoUnits(fits, fs);
    NoCover(fs);
    NothingLocal(fits, fs, edges, Strong(fs));
    for k := 0 to |paths|
      invariant done == set id | id in ids && fs(id).path in paths[..k]
      invariant !fileOnly ==> Units(fits, fs, done, groups) && AllWhole(r, groups)
      invariant !fileOnly && DownwardClosed(fits) ==> Local(fits, fs, done, groups, edges, Strong(fs))
      invariant fileOnly ==> Covers(fs, done, groups)
                             && forall g :: g in groups ==> exists x :: x in ids && g == OfFile(fs, ids, fs(x).path)
    {
      var members := OfFile(fs, ids, paths[k]);
      OfFileIncreasing(fs, ids, paths[k]);
      assert paths[..k + 1] == paths[..k] + [paths[k]];
      assert done !! Members(members) by { PathsDiffer(paths, k); }
      if fileOnly {
        assert paths[k] in paths;
        var x :| x in ids && fs(x).path == paths[k];
        FileCover(fs, done, groups, members);
        groups := groups + [members];
      } else {
        var local := LocalGroups(fits, fs, members, edges, r, paths[k]);
        assert paths[k] !in paths[..k] by { PathsDiffer(paths, k); }
        NextFile(fits, fs, done, Members(members), groups, local, paths[k], edges);
        assert AllWhole(r, groups + local);
        groups := groups + local;
      }
      done := done + Members(members);
    }
    assert paths[..|paths|] == paths;
    assert done == Members(ids);
  }

  lemma NextFile(fits: Capacity, fs: string -> Fragment, done: set<string>, members: set<string>, groups: Groups,
                 local: Groups, path: string, edges: seq<Edge>)
    requires Units(fits, fs, done, groups) && Units(fits, fs, members, local)
    requires (forall id :: id in done ==> fs(id).path != path) && (forall id :: id in members ==> fs(id).path == path)
    requires DownwardClosed(fits) ==>
      Local(fits, fs, done, groups, edges, Strong(fs)) && Local(fits, fs, members, local, edges, Strong(fs))
    ensures Units(fits, fs, done + members, groups + local)
    ensures DownwardClosed(fits) ==> Local(fits, fs, done + members, groups + local, edges, Strong(fs))
  {
    hide *;
    UnitsAppend(fits, fs, done, members, groups, local);
    UnitsParts(fits, fs, done, groups);
    UnitsParts(fits, fs, members, local);
    if DownwardClosed(fits) {
      LocalAppend(fits, fs, done, members, groups, local, path, edges, Strong(fs));
    }
  }

  lemma NoCover(fs: string -> Fragment)
    ensures Covers(fs, {}, [])
  {
  }

  lemma PathsDiffer(paths: seq<string>, k: nat)
    requires k < |paths| && Increasing(paths)
    ensures paths[k] !in paths[..k]
  {
    forall m | 0 <= m < k ensures paths[m] != paths[k] {
      LessTotal(paths[m], paths[k]);
    }
  }

  lemma FileCover(fs: string -> Fragment, done: set<string>, groups: Groups, members: seq<string>)
    requires Covers(fs, done, groups) && done !! Members(members)
    ensures Covers(fs, done + Members(members), groups + [members])
  {
    hide Occ;
    forall id ensures Occ(groups + [members], id) == Occ(groups, id) + if id in members then 1 else 0 {
      OccAppend(groups, [members], id);
      OccOne(members, id);
    }
  }

  // ---------- Namespaces ----------

  /** The namespace pass, too, only makes merges that fit. */
  lemma {:induction false} RescanReplays(c: NamespaceQueue.Input, gs: Groups) returns (trace: seq<(nat, nat)>)
    ensures Replay(c.fits, gs, trace) == Some(NamespaceQueue.Rescan(c, gs).0)
    decreases |gs|
  {
    hide Union, NamespaceQueue.BestShared;
    trace := [];
    if |gs| > c.limit {
      NamespaceQueue.ScanFinds(c, gs, 0, 1, None);
      match NamespaceQueue.Scan(c, gs, 0, 1, None)
      case None =>
      case Some(p) =>
        assert NamespaceQueue.IsPair(c, gs, p);
        var rest := RescanReplays(c, MergeAt(gs, p.left, p.right));
        trace := [(p.left, p.right)] + rest;
        assert trace[1..] == rest;
    }
  }

  // ---------- The pipeline ----------

  /** The identifiers of one file. */
  ghost function InFile(fs: string -> Fragment, ids: set<string>, path: string): set<string> {
    set id | id in ids && fs(id).path == path
  }

  /** No two groups that share a file could still be merged. */
  ghost predicate Packed(fits: Capacity, fs: string -> Fragment, ids: set<string>, gs: Groups) {
    forall path :: Apart(fits, gs, InFile(fs, ids, path), InFile(fs, ids, path))
  }

  ghost predicate FilesPacked(fits: Capacity, fs: string -> Fragment, gs: Groups) {
    forall p, q :: 0 <= p < q < |gs| && SameFile(fs, gs[p], gs[q]) ==> !fits(Union(gs[p], gs[q]))
  }

  lemma PackedMeans(fits: Capacity, fs: string -> Fragment, ids: set<string>, gs: Groups)
    requires Covers(fs, ids, gs) && Packed(fits, fs, ids, gs)
    ensures FilesPacked(fits, fs, gs)
  {
    hide Union, Occ;
    forall p, q | 0 <= p < q < |gs| && SameFile(fs, gs[p], gs[q]) ensures !fits(Union(gs[p], gs[q])) {
      var x, y :| x in gs[p] && y in gs[q] && fs(x).path == fs(y).path;
      InGroup(gs, p, x);
      InGroup(gs, q, y);
      var i :| 0 <= i < |gs[p]| && gs[p][i] == x;
      var j :| 0 <= j < |gs[q]| && gs[q][j] == y;
      assert Hits(gs[p], InFile(fs, ids, fs(x).path)) && Hits(gs[q], InFile(fs, ids, fs(x).path));
    }
  }

  lemma InGroup(gs: Groups, p: nat, x: string)
    requires p < |gs| && x in gs[p]
    ensures Occ(gs, x) >= 1
  {
    OccSplit(gs, p, x);
  }

  lemma PackedFiles(fits: Capacity, fs: string -> Fragment, ids: set<string>, gs: Groups)
    requires forall p, q :: 0 <= p < q < |gs| && SameFile(fs, gs[p], gs[q]) ==> !fits(Union(gs[p], gs[q]))
    ensures Packed(fits, fs, ids, gs)
  {
    hide Union;
    forall path, p, q | 0 <= p < |gs| && 0 <= q < |gs| && p != q && Hits(gs[p], InFile(fs, ids, path))
                        && Hits(gs[q], InFile(fs, ids, path))
      ensures !fits(Union(gs[p], gs[q]))
    {
      UnionCommutes(gs[p], gs[q]);
      var a :| 0 <= a < |gs[p]| && gs[p][a] in InFile(fs, ids, path);
      var b :| 0 <= b < |gs[q]| && gs[q][b] in InFile(fs, ids, path);
      assert gs[p][a] in gs[p] && gs[q][b] in gs[q];
      assert SameFile(fs, gs[p], gs[q]) && SameFile(fs, gs[q], gs[p]);
    }
  }

  /** Two equal elements of a list stand at two places. */
  lemma {:induction false} TwoPlaces(gs: Groups, g: seq<string>) returns (p: nat, q: nat)
    requires multiset(gs)[g] >= 2
    ensures p < q < |gs| && gs[p] == g && gs[q] == g
  {
    var n := |gs| - 1;
    assert gs == gs[..n] + [gs[n]];
    if gs[n] == g {
      assert g in multiset(gs[..n]);
      p :| 0 <= p < n && gs[..n][p] == g;
      q := n;
    } else {
      p, q := TwoPlaces(gs[..n], g);
    }
  }

  lemma PairKept(gs: Groups, i: nat, j: nat)
    requires i < |gs| && j < |gs| && i != j && gs[i] == gs[j]
    ensures multiset(gs)[gs[i]] >= 2
  {
    var a, b := if i < j then i else j, if i < j then j else i;
    assert gs == gs[..a] + [gs[a]] + gs[a + 1..b] + [gs[b]] + gs[b + 1..];
  }

  /** Reordering the groups changes nothing about which of them could be merged. */
  lemma ApartReordered(fits: Capacity, gs: Groups, out: Groups, left: set<string>, right: set<string>)
    requires multiset(gs) == multiset(out) && Apart(fits, gs, left, right)
    ensures Apart(fits, out, left, right)
  {
    hide Union, Hits;
    forall i, j | 0 <= i < |out| && 0 <= j < |out| && i != j && Hits(out[i], left) && Hits(out[j], right)
      ensures !fits(Union(out[i], out[j]))
    {
      assert out[i] in multiset(gs) && out[j] in multiset(gs);
      if out[i] == out[j] {
        PairKept(out, i, j);
        var p, q := TwoPlaces(gs, out[i]);
      } else {
        var p :| 0 <= p < |gs| && gs[p] == out[i];
        var q :| 0 <= q < |gs| && gs[q] == out[j];
      }
    }
  }

  lemma {:induction false} PlacePermutes(g: seq<string>, gs: Groups)
    ensures multiset(Place(g, gs)) == multiset(gs) + multiset{g}
  {
    if gs != [] && !Less(Join(g, [0 as char]), Join(gs[0], [0 as char])) {
      PlacePermutes(g, gs[1..]);
      assert gs == [gs[0]] + gs[1..];
    }
  }

  lemma {:induction false} CanonicalizePermutes(gs: Groups)
    ensures multiset(Canonicalize(gs)) == multiset(gs)
  {
    if gs != [] {
      CanonicalizePermutes(gs[1..]);
      PlacePermutes(gs[0], Canonicalize(gs[1..]));
      assert gs == [gs[0]] + gs[1..];
    }
  }

  /** What a pass leaves exhausted stays so through later merges and reorderings. */
  lemma StaysExhausted(fits: Capacity, fs: string -> Fragment, gs: Groups, trace: seq<(nat, nat)>, mid: Groups,
                       out: Groups, edges: seq<Edge>, accept: Edge -> bool, ids: set<string>)
    requires DownwardClosed(fits) && Replay(fits, gs, trace) == Some(mid) && multiset(mid) == multiset(out)
    ensures Exhausted(fits, gs, edges, accept) ==> Exhausted(fits, out, edges, accept)
    ensures Packed(fits, fs, ids, gs) ==> Packed(fits, fs, ids, out)
  {
    hide DownwardClosed, Apart, Replay;
    if Exhausted(fits, gs, edges, accept) {
      forall e | e in edges && accept(e) ensures Apart(fits, out, {e.from}, {e.to}) {
        ReplayApart(fits, gs, trace, {e.from}, {e.to});
        ApartReordered(fits, mid, out, {e.from}, {e.to});
      }
    }
    if Packed(fits, fs, ids, gs) {
      forall path ensures Apart(fits, out, InFile(fs, ids, path), InFile(fs, ids, path)) {
        ReplayApart(fits, gs, trace, InFile(fs, ids, path), InFile(fs, ids, path));
        ApartReordered(fits, mid, out, InFile(fs, ids, path), InFile(fs, ids, path));
      }
    }
  }

  /** `MaxUnits` zero leaves files and namespaces unpacked. */
  datatype Plan = Plan(fileOnly: bool, maxUnits: nat, edges: seq<Edge>,
                       scopes: map<string, map<NamespaceQueue.Key, NamespaceQueue.Match>>,
                       heights: map<NamespaceQueue.Key, int>)

  /** What reasons a plan gives; files count with a unit target, namespaces when more groups
      than it are left. */
  ghost function GroundsOf(fs: string -> Fragment, plan: Plan, files: bool, spaces: bool): Grounds {
    Grounds(fs, plan.edges, plan.scopes, files, spaces)
  }

  function CrossFile(fs: string -> Fragment, plan: Plan): Edge -> bool {
    (e: Edge) => fs(e.from).path != fs(e.to).path && RelationStrength(fs, e) < 2
  }

  /** The passes after the local one. */
  method Pack(fits: Capacity, fs: string -> Fragment, ghost ids: set<string>, groups: Groups, plan: Plan)
    returns (out: Groups, ghost crowd: nat)
    requires Units(fits, fs, ids, groups) && AllWhole(GroundsOf(fs, plan, false, false), groups)
    requires DownwardClosed(fits) ==> Local(fits, fs, ids, groups, plan.edges, Strong(fs))
    ensures Units(fits, fs, ids, out)
    ensures DownwardClosed(fits) ==>
              && Local(fits, fs, ids, out, plan.edges, Strong(fs))
              && Exhausted(fits, out, plan.edges, CrossFile(fs, plan))
              && (plan.maxUnits > 0 ==> Packed(fits, fs, ids, out))
    ensures plan.maxUnits > 0 ==> |out| <= plan.maxUnits || Separate(Spaces(fits, plan), out)
    ensures Reasoned(fs, plan, out, crowd)
  {
    hide *;
    ghost var trace;
    out, trace := MergeEdges(fits, groups, plan.edges, CrossFile(fs, plan));
    ReplayKeepsUnits(fits, fs, ids, groups, trace, out);
    RelatedWhole(fits, fs, plan, groups, trace, out);
    crowd := |out|;
    if DownwardClosed(fits) {
      LocalReplays(fits, fs, ids, groups, trace, out, out, plan.edges, Strong(fs));
    }
    if plan.maxUnits > 0 {
      ghost var related := out;
      out, trace := CoalesceFiles(fits, fs, out);
      ReplayKeepsUnits(fits, fs, ids, related, trace, out);
      if DownwardClosed(fits) {
        StaysExhausted(fits, fs, related, trace, out, out, plan.edges, CrossFile(fs, plan), ids);
        LocalReplays(fits, fs, ids, related, trace, out, out, plan.edges, Strong(fs));
      }
      PackedFiles(fits, fs, ids, out);
      FilesWhole(fits, fs, plan, related, trace, out);
      ghost var packed := out;
      crowd := |out|;
      if |out| > plan.maxUnits {
        var c := Spaces(fits, plan);
        SpacesAre(fits, plan);
        var merges;
        out, merges := NamespaceQueue.MergeNamespaceGroups(c, out);
        SpacedWhole(fits, fs, plan, packed, merges, out);
        trace := RescanReplays(c, packed);
        RescanSeparates(c, packed);
        ReplayKeepsUnits(fits, fs, ids, packed, trace, out);
        if DownwardClosed(fits) {
          StaysExhausted(fits, fs, packed, trace, out, out, plan.edges, CrossFile(fs, plan), ids);
          LocalReplays(fits, fs, ids, packed, trace, out, out, plan.edges, Strong(fs));
        }
      }
    }
    assert Reasoned(fs, plan, out, crowd) by { ReasonedIs(fs, plan, out, crowd); }
  }

  /** Units are whole on the grounds of the plan. `crowd` groups were left before namespaces
      were looked at, which never leads below the target. */
  ghost predicate Reasoned(fs: string -> Fragment, plan: Plan, units: Groups, crowd: nat) {
    var spaces := plan.maxUnits > 0 && crowd > plan.maxUnits;
    && AllWhole(GroundsOf(fs, plan, plan.maxUnits > 0, spaces), units)
    && (if spaces then plan.maxUnits <= |units| <= crowd else |units| == crowd)
  }

  lemma ReasonedIs(fs: string -> Fragment, plan: Plan, units: Groups, crowd: nat)
    requires AllWhole(GroundsOf(fs, plan, plan.maxUnits > 0, plan.maxUnits > 0 && crowd > plan.maxUnits), units)
    requires if plan.maxUnits > 0 && crowd > plan.maxUnits then plan.maxUnits <= |units| <= crowd else |units| == crowd
    ensures Reasoned(fs, plan, units, crowd)
  {
    hide AllWhole;
  }

  lemma RelatedWhole(fits: Capacity, fs: string -> Fragment, plan: Plan, groups: Groups, trace: seq<(nat, nat)>,
                     out: Groups)
    requires AllWhole(GroundsOf(fs, plan, false, false), groups) && Replay(fits, groups, trace) == Some(out)
    requires Justified(groups, trace, ForEdge(fits, plan.edges, CrossFile(fs, plan)))
    ensures AllWhole(GroundsOf(fs, plan, false, false), out)
  {
    var r := GroundsOf(fs, plan, false, false);
    hide Replay, Justified, Joint, AllWhole;
    forall gs, i, j | ForEdge(fits, plan.edges, CrossFile(fs, plan))(gs, i, j) ensures ForReason(r)(gs, i, j) {
      EdgesJoint(r, fits, CrossFile(fs, plan), gs, i, j);
    }
    JustifiedBy(groups, trace, ForEdge(fits, plan.edges, CrossFile(fs, plan)), ForReason(r));
    ReplayWhole(r, fits, groups, trace);
  }

  lemma FilesWhole(fits: Capacity, fs: string -> Fragment, plan: Plan, groups: Groups, trace: seq<(nat, nat)>,
                   out: Groups)
    requires AllWhole(GroundsOf(fs, plan, false, false), groups) && Replay(fits, groups, trace) == Some(out)
    requires Justified(groups, trace, Closest(fits, fs))
    ensures AllWhole(GroundsOf(fs, plan, true, false), out)
  {
    var r := GroundsOf(fs, plan, true, false);
    MoreGrounds(GroundsOf(fs, plan, false, false), r, groups);
    hide Replay, Justified, Joint, AllWhole;
    forall gs, i, j | Closest(fits, fs)(gs, i, j) ensures ForReason(r)(gs, i, j) {
      ClosestJoint(r, fits, gs, i, j);
    }
    JustifiedBy(groups, trace, Closest(fits, fs), ForReason(r));
    ReplayWhole(r, fits, groups, trace);
  }

  lemma ClosestJoint(r: Grounds, fits: Capacity, gs: Groups, i: nat, j: nat)
    requires r.files && Closest(fits, r.fs)(gs, i, j)
    ensures ForReason(r)(gs, i, j)
  {
    hide Union, AsNear;
    assert SameFile(r.fs, gs[i], gs[j]);
    var x, y :| x in gs[i] && y in gs[j] && r.fs(x).path == r.fs(y).path;
    assert Joint(r, x, y);
  }

  lemma SpacedWhole(fits: Capacity, fs: string -> Fragment, plan: Plan, groups: Groups,
                    merges: seq<NamespaceQueue.Merge>, out: Groups)
    requires AllWhole(GroundsOf(fs, plan, true, false), groups) && |groups| > plan.maxUnits
    requires NamespaceQueue.Chosen(Spaces(fits, plan), groups, merges, out)
    ensures AllWhole(GroundsOf(fs, plan, true, true), out) && plan.maxUnits <= |out| <= |groups|
  {
    MoreGrounds(GroundsOf(fs, plan, true, false), GroundsOf(fs, plan, true, true), groups);
    SpacesWhole(GroundsOf(fs, plan, true, true), Spaces(fits, plan), groups, merges, out);
    NamespaceQueue.ChosenCount(Spaces(fits, plan), groups, merges, out);
  }

  /** What the namespace pass works with. */
  function Spaces(fits: Capacity, plan: Plan): NamespaceQueue.Input {
    NamespaceQueue.Input(plan.scopes, plan.heights, fits, plan.maxUnits)
  }

  lemma SpacesAre(fits: Capacity, plan: Plan)
    ensures Spaces(fits, plan).fits == fits && Spaces(fits, plan).limit == plan.maxUnits
  {}

  /** No two units that fit together lie in one namespace. */
  ghost predicate Separate(c: NamespaceQueue.Input, gs: Groups) {
    forall i, j, k :: 0 <= i < j < |gs| ==> !NamespaceQueue.Common(c, gs[i], gs[j], k)
  }

  lemma RescanSeparates(c: NamespaceQueue.Input, gs: Groups)
    ensures var out := NamespaceQueue.Rescan(c, gs).0; |out| <= c.limit || Separate(c, out)
  {
    hide NamespaceQueue.Common, NamespaceQueue.Rescan, NamespaceQueue.Chosen;
    var (out, merges) := NamespaceQueue.Rescan(c, gs);
    NamespaceQueue.RescanChooses(c, gs);
    NamespaceQueue.ChosenEnds(c, gs, merges, out);
  }

  lemma CommonCommutes(c: NamespaceQueue.Input, a: seq<string>, b: seq<string>, k: NamespaceQueue.Key)
    ensures NamespaceQueue.Common(c, a, b, k) ==> NamespaceQueue.Common(c, b, a, k)
  {
    UnionCommutes(a, b);
    hide Union;
  }

  /** The order of the units does not matter to that. */
  lemma SeparateReordered(c: NamespaceQueue.Input, gs: Groups, out: Groups)
    requires multiset(gs) == multiset(out) && Separate(c, gs)
    ensures Separate(c, out)
  {
    hide NamespaceQueue.Common;
    forall i, j, k | 0 <= i < j < |out| ensures !NamespaceQueue.Common(c, out[i], out[j], k) {
      assert out[i] in multiset(gs) && out[j] in multiset(gs);
      if out[i] == out[j] {
        PairKept(out, i, j);
        var p, q := TwoPlaces(gs, out[i]);
      } else {
        var p :| 0 <= p < |gs| && gs[p] == out[i];
        var q :| 0 <= q < |gs| && gs[q] == out[j];
        CommonCommutes(c, out[i], out[j], k);
      }
    }
  }

  // ---------- Nothing is left to merge ----------

  /** Two fragments whose units are merged whenever they fit together: both edit one
      declaration of a file; a relation joins them that is structural or does not concern
      imports, across files or between declarations; or they are of one file, where that
      counts. */
  ghost predicate Bonded(r: Grounds, x: string, y: string) {
    || EditTogether(r, x, y) || OneFile(r, x, y)
    || exists e :: e in r.edges && RelatedBy(r, e, x, y)
                   && (r.fs(x).path != r.fs(y).path || (r.fs(x).category == Declared && r.fs(y).category == Declared))
  }

  ghost predicate NoneLeft(fits: Capacity, r: Grounds, gs: Groups) {
    forall i, j, x, y :: 0 <= i < j < |gs| && x in gs[i] && y in gs[j] && Bonded(r, x, y) ==>
      !fits(Union(gs[i], gs[j]))
  }

  lemma NothingIsLeft(fits: Capacity, fs: string -> Fragment, plan: Plan, ids: set<string>, gs: Groups)
    requires Local(fits, fs, ids, gs, plan.edges, Strong(fs)) && Covers(fs, ids, gs)
    requires Exhausted(fits, gs, plan.edges, CrossFile(fs, plan))
    requires plan.maxUnits > 0 ==> FilesPacked(fits, fs, gs)
    ensures NoneLeft(fits, GroundsOf(fs, plan, plan.maxUnits > 0, false), gs)
  {
    var r := GroundsOf(fs, plan, plan.maxUnits > 0, false);
    forall i, j, x, y | 0 <= i < j < |gs| && x in gs[i] && y in gs[j] && Bonded(r, x, y)
      ensures !fits(Union(gs[i], gs[j]))
    {
      OccSplit(gs, i, x);
      OccSplit(gs, j, y);
      BondHolds(fits, fs, plan, ids, gs, i, j, x, y);
    }
  }

  lemma BondHolds(fits: Capacity, fs: string -> Fragment, plan: Plan, ids: set<string>, gs: Groups, i: nat, j: nat,
                  x: string, y: string)
    requires Local(fits, fs, ids, gs, plan.edges, Strong(fs)) && Exhausted(fits, gs, plan.edges, CrossFile(fs, plan))
    requires plan.maxUnits > 0 ==> FilesPacked(fits, fs, gs)
    requires i < j < |gs| && x in gs[i] && y in gs[j] && x in ids && y in ids
    requires Bonded(GroundsOf(fs, plan, plan.maxUnits > 0, false), x, y)
    ensures !fits(Union(gs[i], gs[j]))
  {
    hide Union, Apart, Hits;
    var r := GroundsOf(fs, plan, plan.maxUnits > 0, false);
    if EditTogether(r, x, y) {
      var key :| key in fs(x).owners && key in fs(y).owners;
      var editing := EditingIn(fs, ids, fs(x).path, key);
      ApartPair(fits, gs, editing, editing, i, j, x, y);
    } else if OneFile(r, x, y) {
      assert SameFile(fs, gs[i], gs[j]);
    } else {
      var e :| e in plan.edges && RelatedBy(r, e, x, y)
               && (fs(x).path != fs(y).path || (fs(x).category == Declared && fs(y).category == Declared));
      assert Apart(fits, gs, {e.from}, {e.to});
      if e.from == x && e.to == y {
        ApartPair(fits, gs, {e.from}, {e.to}, i, j, x, y);
      } else {
        ApartPair(fits, gs, {e.from}, {e.to}, j, i, y, x);
        UnionCommutes(gs[i], gs[j]);
      }
    }
  }

  lemma LocalServes(fits: Capacity, fs: string -> Fragment, ids: set<string>, gs: Groups, plan: Plan)
    requires Local(fits, fs, ids, gs, plan.edges, Strong(fs))
    ensures Served(fits, fs, ids, gs, plan.edges)
  {}

  lemma ApartPair(fits: Capacity, gs: Groups, left: set<string>, right: set<string>, i: nat, j: nat, x: string,
                  y: string)
    requires Apart(fits, gs, left, right) && i < |gs| && j < |gs| && i != j
    requires x in gs[i] && x in left && y in gs[j] && y in right
    ensures !fits(Union(gs[i], gs[j]))
  {
    hide Union;
    assert Hits(gs[i], left) && Hits(gs[j], right);
  }

  /** `Group`: repeated fragments are refused; otherwise every fragment is kept.
      Outside `FileOnly`, units are bounded, and none that fit together edit one declaration
      of a file, are joined by an accepted relation between declarations or between files,
      or, with a unit target, share a file; and the target is met or no two share a
      namespace and fit together. */
  method Group(fits: Capacity, fs: string -> Fragment, fragments: seq<string>, plan: Plan)
    returns (units: Option<Groups>, ghost crowd: nat)
    ensures units.None? <==> exists i, j :: 0 <= i < j < |fragments| && fragments[i] == fragments[j]
    ensures units.Some? ==> Ordered(units.value)
    ensures units.Some? && !plan.fileOnly ==> Reasoned(fs, plan, units.value, crowd)
    ensures units.Some? ==> Covers(fs, Members(fragments), units.value)
    ensures units.Some? && plan.fileOnly ==>
              forall g :: g in units.value ==> forall id :: id in fragments ==>
                (id in g <==> exists x :: x in g && fs(x).path == fs(id).path)
    ensures units.Some? && !plan.fileOnly ==> Bounded(fits, fs, units.value)
    ensures units.Some? && !plan.fileOnly && plan.maxUnits > 0 ==>
              |units.value| <= plan.maxUnits || Separate(Spaces(fits, plan), units.value)
    ensures units.Some? && !plan.fileOnly && DownwardClosed(fits) ==>
              && NoneLeft(fits, GroundsOf(fs, plan, plan.maxUnits > 0, false), units.value)
              && Served(fits, fs, Members(fragments), units.value, plan.edges)
  {
    var repeated := HasRepeat(fragments);
    if repeated {
      return None, 0;
    }
    hide *;
    var ids := Unique(fragments);
    ghost var r := GroundsOf(fs, plan, false, false);
    GroundsAre(fs, plan);
    SameMembers(fragments);
    var groups := StartGroups(fits, fs, ids, plan.edges, plan.fileOnly, r);
    if plan.fileOnly {
      crowd := |groups|;
      CanonicalizeUnits(fits, fs, Members(ids), groups);
      CanonicalizeUnits(fits, fs, Members(ids), Canonicalize(groups));
      CanonicalizeOrders(Canonicalize(groups));
      groups := Canonicalize(Canonicalize(groups));
      WholeFiles(fs, fragments, ids, groups);
    } else {
      groups, crowd := Form(fits, fs, Members(ids), groups, plan);
      UnitsParts(fits, fs, Members(ids), groups);
      if DownwardClosed(fits) {
        NothingIsLeft(fits, fs, plan, Members(ids), groups);
        LocalServes(fits, fs, Members(ids), groups, plan);
      }
    }
    units := Some(groups);
  }

  /** The passes over the local units of all files. */
  method Form(fits: Capacity, fs: string -> Fragment, ghost ids: set<string>, local: Groups, plan: Plan)
    returns (units: Groups, ghost crowd: nat)
    requires Units(fits, fs, ids, local) && AllWhole(GroundsOf(fs, plan, false, false), local)
    requires DownwardClosed(fits) ==> Local(fits, fs, ids, local, plan.edges, Strong(fs))
    ensures Units(fits, fs, ids, units) && Reasoned(fs, plan, units, crowd) && Ordered(units)
    ensures plan.maxUnits > 0 ==> |units| <= plan.maxUnits || Separate(Spaces(fits, plan), units)
    ensures DownwardClosed(fits) ==>
              && Local(fits, fs, ids, units, plan.edges, Strong(fs))
              && Exhausted(fits, units, plan.edges, CrossFile(fs, plan))
              && (plan.maxUnits > 0 ==> FilesPacked(fits, fs, units))
  {
    hide *;
    CanonicalizeUnits(fits, fs, ids, local);
    CanonicalizePermutes(local);
    if DownwardClosed(fits) {
      NoMerges(fits, local);
      LocalReplays(fits, fs, ids, local, [], local, Canonicalize(local), plan.edges, Strong(fs));
    }
    WholeReordered(GroundsOf(fs, plan, false, false), local, Canonicalize(local));
    var packed;
    packed, crowd := Pack(fits, fs, ids, Canonicalize(local), plan);
    units := Canonicalize(packed);
    CanonicalizeOrders(packed);
    CanonicalizeUnits(fits, fs, ids, packed);
    CanonicalizePermutes(packed);
    UnitsParts(fits, fs, ids, units);
    SameCount(packed, units);
    ReasonedReordered(fs, plan, packed, units, crowd);
    if plan.maxUnits > 0 && |packed| > plan.maxUnits {
      SeparateReordered(Spaces(fits, plan), packed, units);
    }
    if DownwardClosed(fits) {
      NoMerges(fits, packed);
      LocalReplays(fits, fs, ids, packed, [], packed, units, plan.edges, Strong(fs));
      Reordered(fits, fs, ids, packed, units, plan);
    }
  }

  lemma GroundsAre(fs: string -> Fragment, plan: Plan)
    ensures var r := GroundsOf(fs, plan, false, false); r.fs == fs && r.edges == plan.edges
  {}

  lemma WholeReordered(r: Grounds, gs: Groups, out: Groups)
    requires AllWhole(r, gs) && forall g :: g in out ==> g in gs
    ensures AllWhole(r, out)
  {
    hide Whole;
  }

  lemma ReasonedReordered(fs: string -> Fragment, plan: Plan, gs: Groups, out: Groups, crowd: nat)
    requires Reasoned(fs, plan, gs, crowd) && |out| == |gs| && forall g :: g in out ==> g in gs
    ensures Reasoned(fs, plan, out, crowd)
  {
    hide Whole;
  }

  lemma SameCount(a: Groups, b: Groups)
    requires multiset(a) == multiset(b)
    ensures |a| == |b|
  {
    assert |a| == |multiset(a)| == |multiset(b)| == |b|;
  }

  /** The limits a caller asks for; zero stands for the default. */
  datatype Asked = Asked(maxUnits: int, maxFiles: int, maxChangedLines: int, maxDiffSize: int)

  /** `Group` with the default size of a diff: negative limits are refused as well, and as
      the default capacity is downward closed, everything the passes set out to merge is
      exhausted. */
  method GroupByLength(of: string -> Sizes.Patch, asked: Asked, fs: string -> Fragment, fragments: seq<string>,
                       plan: Plan) returns (units: Option<Groups>, ghost crowd: nat)
    ensures units.None? <==>
              || asked.maxUnits < 0 || asked.maxFiles < 0 || asked.maxChangedLines < 0 || asked.maxDiffSize < 0
              || exists i, j :: 0 <= i < j < |fragments| && fragments[i] == fragments[j]
    ensures units.Some? ==> Covers(fs, Members(fragments), units.value) && Ordered(units.value)
    ensures units.Some? && plan.fileOnly ==>
              forall g :: g in units.value ==> forall id :: id in fragments ==>
                (id in g <==> exists x :: x in g && fs(x).path == fs(id).path)
    ensures units.Some? && !plan.fileOnly ==>
              var limits := Sizes.Limits(
                if asked.maxFiles == 0 then 5 else asked.maxFiles,
                if asked.maxChangedLines == 0 then 300 else asked.maxChangedLines,
                if asked.maxDiffSize == 0 then 32000 else asked.maxDiffSize);
              var p, fits := plan.(maxUnits := asked.maxUnits), Sizes.Default(of, limits);
              && Bounded(fits, fs, units.value) && Reasoned(fs, p, units.value, crowd)
              && NoneLeft(fits, GroundsOf(fs, p, p.maxUnits > 0, false), units.value)
              && Served(fits, fs, Members(fragments), units.value, p.edges)
              && (p.maxUnits > 0 ==> |units.value| <= p.maxUnits || Separate(Spaces(fits, p), units.value))
  {
    if asked.maxUnits < 0 || asked.maxFiles < 0 || asked.maxChangedLines < 0 || asked.maxDiffSize < 0 {
      return None, 0;
    }
    hide *;
    var files, lines, size := asked.maxFiles, asked.maxChangedLines, asked.maxDiffSize;
    if files == 0 {
      files := 5;
    }
    if lines == 0 {
      lines := 300;
    }
    if size == 0 {
      size := 32000;
    }
    var limits := Sizes.Limits(files, lines, size);
    Sizes.FitsDownwardClosed(of, limits);
    units, crowd := Group(Sizes.Default(of, limits), fs, fragments, plan.(maxUnits := asked.maxUnits));
  }

  method HasRepeat(fragments: seq<string>) returns (repeated: bool)
    ensures repeated <==> exists i, j :: 0 <= i < j < |fragments| && fragments[i] == fragments[j]
  {
    var seen: set<string> := {};
    for k := 0 to |fragments|
      invariant seen == set id | id in fragments[..k]
      invariant forall i, j :: 0 <= i < j < k ==> fragments[i] != fragments[j]
    {
      if fragments[k] in seen {
        return true;
      }
      seen := seen + {fragments[k]};
    }
    repeated := false;
  }

  lemma SameMembers(fragments: seq<string>)
    ensures Members(Unique(fragments)) == Members(fragments) && Increasing(Unique(fragments))
    ensures forall id :: id in Unique(fragments) <==> id in fragments
  {
  }

  lemma WholeFiles(fs: string -> Fragment, fragments: seq<string>, ids: seq<string>, groups: Groups)
    requires forall id :: id in ids <==> id in fragments
    requires forall g :: g in groups ==> exists x :: x in ids && g == OfFile(fs, ids, fs(x).path)
    ensures forall g :: g in groups ==> forall id :: id in fragments ==>
              (id in g <==> exists x :: x in g && fs(x).path == fs(id).path)
  {
  }

  lemma Reordered(fits: Capacity, fs: string -> Fragment, ids: set<string>, packed: Groups, out: Groups, plan: Plan)
    requires DownwardClosed(fits) && multiset(packed) == multiset(out) && Covers(fs, ids, out)
    requires Exhausted(fits, packed, plan.edges, CrossFile(fs, plan))
    requires plan.maxUnits > 0 ==> Packed(fits, fs, ids, packed)
    ensures Exhausted(fits, out, plan.edges, CrossFile(fs, plan))
    ensures plan.maxUnits > 0 ==> FilesPacked(fits, fs, out)
  {
    hide DownwardClosed, Exhausted, Packed, Covers, CrossFile, FilesPacked;
    NoMerges(fits, packed);
    StaysExhausted(fits, fs, packed, [], packed, out, plan.edges, CrossFile(fs, plan), ids);
    if plan.maxUnits > 0 {
      PackedMeans(fits, fs, ids, out);
    }
  }
}
