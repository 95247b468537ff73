/** Greedy formation of units: edits of one declaration, supported relations, imports,
    files. Every pass only merges groups that fit, and each exhausts what it set out
    to merge although it visits every key or relation once. */
module Grouping {
  import opened Basics
  import opened Identifiers
  import opened MergeSteps

  /** A version-specific declaration that a fragment edits. */
  datatype Owner = Owner(before: bool, snapshot: string, element: string)

  datatype Category = ImportOnly | Unbound | Declared

  datatype Span = Span(first: int, last: int)

  /** What grouping needs to know of a fragment. */
  datatype Fragment = Fragment(path: string, category: Category, owners: seq<Owner>, before: seq<Span>,
                               after: seq<Span>)

  /** A relation between fragments; `structural` when one declaration encloses the other. */
  datatype Edge = Edge(from: string, to: string, structural: bool)

  // ---------- Relations ----------

  /** `relationStrength`: enclosing declarations bind strongest, imports weakest. */
  function RelationStrength(fs: string -> Fragment, e: Edge): nat {
    if e.structural then 0
    else if fs(e.from).category == ImportOnly || fs(e.to).category == ImportOnly then 2
    else 1
  }

  /** The relations that merge groups. */
  function Strong(fs: string -> Fragment): Edge -> bool {
    (e: Edge) => RelationStrength(fs, e) < 2
  }

  /** The edge joins the two groups, in either direction. */
  predicate Related(e: Edge, a: seq<string>, b: seq<string>) {
    (e.from in a && e.to in b) || (e.from in b && e.to in a)
  }

  /** The first pair in scan order that is related and fits. */
  method FindPair(fits: Capacity, gs: Groups, e: Edge) returns (found: bool, i: nat, j: nat)
    ensures found ==> FirstPair(fits, gs, e, i, j)
    ensures !found ==> Apart(fits, gs, {e.from}, {e.to})
  {
    hide Union, Apart, Hits;
    i := 0;
    while i < |gs|
      invariant forall p, q :: 0 <= p < i && p < q < |gs| && Related(e, gs[p], gs[q]) ==> !fits(Union(gs[p], gs[q]))
    {
      j := i + 1;
      while j < |gs|
        invariant i < j
        invariant forall q :: i < q < j && q < |gs| && Related(e, gs[i], gs[q]) ==> !fits(Union(gs[i], gs[q]))
      {
        if Related(e, gs[i], gs[j]) && fits(Union(gs[i], gs[j])) {
          return true, i, j;
        }
        j := j + 1;
      }
      i := i + 1;
    }
    NoPairIsApart(fits, gs, e);
    found, j := false, 0;
  }

  lemma UnionCommutes(a: seq<string>, b: seq<string>)
    ensures Union(a, b) == Union(b, a)
  {
    IncreasingUnique(Union(a, b), Union(b, a));
  }

  lemma NoPairIsApart(fits: Capacity, gs: Groups, e: Edge)
    requires forall p, q :: 0 <= p < q < |gs| && Related(e, gs[p], gs[q]) ==> !fits(Union(gs[p], gs[q]))
    ensures Apart(fits, gs, {e.from}, {e.to})
  {
    hide Union;
    forall p, q | 0 <= p < |gs| && 0 <= q < |gs| && p != q && Hits(gs[p], {e.from}) && Hits(gs[q], {e.to})
      ensures !fits(Union(gs[p], gs[q]))
    {
      UnionCommutes(gs[p], gs[q]);
      if p < q {
        assert Related(e, gs[p], gs[q]);
      } else {
        assert Related(e, gs[q], gs[p]);
      }
    }
  }

  /** No accepted edge among `edges` joins two groups whose union fits. */
  ghost predicate Exhausted(fits: Capacity, gs: Groups, edges: seq<Edge>, accept: Edge -> bool) {
    forall e :: e in edges && accept(e) ==> Apart(fits, gs, {e.from}, {e.to})
  }

  /** The pair is the first in scan order that the edge joins and that fits. */
  ghost predicate FirstPair(fits: Capacity, gs: Groups, e: Edge, i: nat, j: nat) {
    && i < j < |gs| && Related(e, gs[i], gs[j]) && fits(Union(gs[i], gs[j]))
    && forall p, q :: 0 <= p < q < |gs| && (p < i || (p == i && q < j)) && Related(e, gs[p], gs[q]) ==>
         !fits(Union(gs[p], gs[q]))
  }

  /** Merged as the first pair an edge joins. */
  ghost function Joining(fits: Capacity, e: Edge): (Groups, nat, nat) -> bool {
    (gs: Groups, i: nat, j: nat) => FirstPair(fits, gs, e, i, j)
  }

  /** Merged for an accepted edge. */
  ghost function ForEdge(fits: Capacity, edges: seq<Edge>, accept: Edge -> bool): (Groups, nat, nat) -> bool {
    (gs: Groups, i: nat, j: nat) => exists e :: e in edges && accept(e) && Joining(fits, e)(gs, i, j)
  }

  /** One edge: merges until it joins no pair that fits. */
  method MergeEdge(fits: Capacity, groups: Groups, e: Edge) returns (out: Groups, ghost trace: seq<(nat, nat)>)
    ensures Replay(fits, groups, trace) == Some(out) && Justified(groups, trace, Joining(fits, e))
    ensures Apart(fits, out, {e.from}, {e.to})
  {
    hide Replay, Apart, Union, MergeAt, Justified, Related;
    out, trace := groups, [];
    NoMerges(fits, groups);
    while true
      invariant Replay(fits, groups, trace) == Some(out) && Justified(groups, trace, Joining(fits, e))
      decreases |out|
    {
      var found, i, j := FindPair(fits, out, e);
      if !found {
        return;
      }
      ReplayOne(fits, groups, trace, out, i, j);
      JustifiedOne(fits, groups, trace, out, i, j, Joining(fits, e));
      MergeShrinks(out, i, j);
      out, trace := MergeAt(out, i, j), trace + [(i, j)];
    }
  }

  /** `mergeEdges`: only merges that fit and that an accepted edge calls for, until no
      accepted edge has one left. */
  method MergeEdges(fits: Capacity, groups: Groups, edges: seq<Edge>, accept: Edge -> bool)
    returns (out: Groups, ghost trace: seq<(nat, nat)>)
    ensures Replay(fits, groups, trace) == Some(out)
    ensures Justified(groups, trace, ForEdge(fits, edges, accept))
    ensures DownwardClosed(fits) ==> Exhausted(fits, out, edges, accept)
  {
    hide Replay, DownwardClosed, Apart, Justified;
    out, trace := groups, [];
    NoMerges(fits, groups);
    for k := 0 to |edges|
      invariant Replay(fits, groups, trace) == Some(out)
      invariant Justified(groups, trace, ForEdge(fits, edges, accept))
      invariant DownwardClosed(fits) ==> Exhausted(fits, out, edges[..k], accept)
    {
      assert edges[..k + 1] == edges[..k] + [edges[k]];
      if accept(edges[k]) {
        ghost var before, more := out, [];
        out, more := MergeEdge(fits, out, edges[k]);
        ReplayAppend(fits, groups, trace, more);
        JoiningEdge(fits, before, more, edges, accept, edges[k]);
        JustifiedAppend(fits, groups, trace, before, more, ForEdge(fits, edges, accept));
        if DownwardClosed(fits) {
          ReplayExhausted(fits, before, more, edges[..k], accept);
        }
        trace := trace + more;
      }
    }
    assert edges[..|edges|] == edges;
  }

  lemma JoiningEdge(fits: Capacity, gs: Groups, trace: seq<(nat, nat)>, edges: seq<Edge>, accept: Edge -> bool, e: Edge)
    requires Justified(gs, trace, Joining(fits, e)) && e in edges && accept(e)
    ensures Justified(gs, trace, ForEdge(fits, edges, accept))
  {
    JustifiedBy(gs, trace, Joining(fits, e), ForEdge(fits, edges, accept));
  }

  /** Whatever is merged later, exhausted edges stay exhausted. */
  lemma ReplayExhausted(fits: Capacity, gs: Groups, trace: seq<(nat, nat)>, edges: seq<Edge>, accept: Edge -> bool)
    requires DownwardClosed(fits) && Replay(fits, gs, trace).Some? && Exhausted(fits, gs, edges, accept)
    ensures Exhausted(fits, Replay(fits, gs, trace).value, edges, accept)
  {
    hide DownwardClosed, Apart, Replay;
    forall e | e in edges && accept(e) ensures Apart(fits, Replay(fits, gs, trace).value, {e.from}, {e.to}) {
      ReplayApart(fits, gs, trace, {e.from}, {e.to});
    }
  }

  lemma NoMerges(fits: Capacity, gs: Groups)
    ensures Replay(fits, gs, []) == Some(gs)
    ensures forall why :: Justified(gs, [], why)
  {
  }

  lemma MergeShrinks(gs: Groups, i: nat, j: nat)
    requires i < j < |gs|
    ensures |MergeAt(gs, i, j)| == |gs| - 1
  {
  }

  // ---------- Owners ----------

  /** Among groups that hold one of `ids`, those before `i`, and `i` itself with those
      before `j`, have no later partner that fits. */
  ghost predicate Front(fits: Capacity, gs: Groups, ids: set<string>, i: nat, j: nat) {
    forall p, q :: 0 <= p < q < |gs| && (p < i || (p == i && q < j)) && Hits(gs[p], ids) && Hits(gs[q], ids) ==>
      !fits(Union(gs[p], gs[q]))
  }

  lemma FrontMerge(fits: Capacity, gs: Groups, ids: set<string>, i: nat, j: nat)
    requires DownwardClosed(fits) && i < j < |gs| && Front(fits, gs, ids, i, j)
    requires Hits(gs[i], ids) && Hits(gs[j], ids)
    ensures Front(fits, MergeAt(gs, i, j), ids, i, j)
  {
    hide DownwardClosed, Union, Hits;
    var after := MergeAt(gs, i, j);
    forall p, q | 0 <= p < q < |after| && (p < i || (p == i && q < j)) && Hits(after[p], ids) && Hits(after[q], ids)
      ensures !fits(Union(after[p], after[q]))
    {
      var b := if q < j then q else q + 1;
      assert p != i ==> after[p] == gs[p];
      assert q != i ==> after[q] == gs[b];
      assert !fits(Union(gs[p], gs[b]));
      if fits(Union(after[p], after[q])) {
        forall id | id in gs[p] || id in gs[b] ensures id in after[p] || id in after[q] {
          UnionMembers(gs[i], gs[j], id);
        }
        SmallerUnionFits(fits, gs[p], gs[b], after[p], after[q]);
      }
    }
  }

  /** Merged because both groups hold one of the identifiers. */
  ghost function Touching(ids: set<string>): (Groups, nat, nat) -> bool {
    (gs: Groups, i: nat, j: nat) => i < j < |gs| && Hits(gs[i], ids) && Hits(gs[j], ids)
  }

  /** One owner key: each touching group absorbs the later ones that fit. */
  method MergeKey(fits: Capacity, groups: Groups, ids: set<string>) returns (out: Groups, ghost trace: seq<(nat, nat)>)
    ensures Replay(fits, groups, trace) == Some(out) && Justified(groups, trace, Touching(ids))
    ensures DownwardClosed(fits) ==> Apart(fits, out, ids, ids)
  {
    hide Replay, DownwardClosed, Apart, Union, MergeAt, Hits, Front, Justified;
    out, trace := groups, [];
    NoMerges(fits, groups);
    FrontNone(fits, out, ids);
    var i := 0;
    while i < |out|
      invariant Replay(fits, groups, trace) == Some(out) && Justified(groups, trace, Touching(ids))
      invariant DownwardClosed(fits) ==> Front(fits, out, ids, i, i + 1)
      decreases |out| - i
    {
      var j := i + 1;
      ghost var n := |out|;
      if Hits(out[i], ids) {
        while j < |out|
          invariant i < j && i < |out| <= n && Hits(out[i], ids)
          invariant Replay(fits, groups, trace) == Some(out) && Justified(groups, trace, Touching(ids))
          invariant DownwardClosed(fits) ==> Front(fits, out, ids, i, j)
          decreases |out| - j
        {
          if Hits(out[j], ids) && fits(Union(out[i], out[j])) {
            ReplayOne(fits, groups, trace, out, i, j);
            JustifiedOne(fits, groups, trace, out, i, j, Touching(ids));
            if DownwardClosed(fits) {
              FrontMerge(fits, out, ids, i, j);
            }
            MergeShrinks(out, i, j);
            MergedHits(out, i, j, ids);
            out, trace := MergeAt(out, i, j), trace + [(i, j)];
          } else {
            if DownwardClosed(fits) {
              FrontNext(fits, out, ids, i, j);
            }
            j := j + 1;
          }
        }
      }
      if DownwardClosed(fits) {
        FrontRow(fits, out, ids, i, j);
      }
      i := i + 1;
    }
    if DownwardClosed(fits) {
      FrontIsApart(fits, out, ids, i);
    }
  }

  lemma FrontNone(fits: Capacity, gs: Groups, ids: set<string>)
    ensures Front(fits, gs, ids, 0, 1)
  {
    hide Union, Hits;
  }

  lemma FrontNext(fits: Capacity, gs: Groups, ids: set<string>, i: nat, j: nat)
    requires i < j < |gs| && Front(fits, gs, ids, i, j) && !(Hits(gs[j], ids) && fits(Union(gs[i], gs[j])))
    ensures Front(fits, gs, ids, i, j + 1)
  {
    hide Union, Hits;
  }

  lemma FrontRow(fits: Capacity, gs: Groups, ids: set<string>, i: nat, j: nat)
    requires i < |gs| && Front(fits, gs, ids, i, j) && (!Hits(gs[i], ids) || |gs| <= j)
    ensures Front(fits, gs, ids, i + 1, i + 2)
  {
    hide Union, Hits;
  }

  lemma MergedHits(gs: Groups, i: nat, j: nat, ids: set<string>)
    requires i < j < |gs| && Hits(gs[i], ids)
    ensures |MergeAt(gs, i, j)| > i && Hits(MergeAt(gs, i, j)[i], ids)
  {
    hide Hits;
    HitsUnion(gs[i], gs[j], ids);
  }

  lemma FrontIsApart(fits: Capacity, gs: Groups, ids: set<string>, i: nat)
    requires |gs| <= i && Front(fits, gs, ids, i, i + 1)
    ensures Apart(fits, gs, ids, ids)
  {
    hide Union, Hits;
    forall p, q | 0 <= p < |gs| && 0 <= q < |gs| && p != q && Hits(gs[p], ids) && Hits(gs[q], ids)
      ensures !fits(Union(gs[p], gs[q]))
    {
      UnionCommutes(gs[p], gs[q]);
    }
  }

  /** No key's identifiers stand in two groups whose union fits. */
  ghost predicate Reunited(fits: Capacity, gs: Groups, keys: seq<set<string>>) {
    forall k :: k in keys ==> Apart(fits, gs, k, k)
  }

  /** Merged because both groups hold identifiers of one key. */
  ghost function TouchingOne(keys: seq<set<string>>): (Groups, nat, nat) -> bool {
    (gs: Groups, i: nat, j: nat) => exists ids :: ids in keys && Touching(ids)(gs, i, j)
  }

  /** The key loop of `mergeOwners`. */
  method MergeKeys(fits: Capacity, groups: Groups, keys: seq<set<string>>)
    returns (out: Groups, ghost trace: seq<(nat, nat)>)
    ensures Replay(fits, groups, trace) == Some(out) && Justified(groups, trace, TouchingOne(keys))
    ensures DownwardClosed(fits) ==> Reunited(fits, out, keys)
  {
    hide Replay, DownwardClosed, Apart, Justified;
    out, trace := groups, [];
    NoMerges(fits, groups);
    for k := 0 to |keys|
      invariant Replay(fits, groups, trace) == Some(out) && Justified(groups, trace, TouchingOne(keys))
      invariant DownwardClosed(fits) ==> Reunited(fits, out, keys[..k])
    {
      assert keys[..k + 1] == keys[..k] + [keys[k]];
      ghost var before := out;
      ghost var more;
      out, more := MergeKey(fits, out, keys[k]);
      ReplayAppend(fits, groups, trace, more);
      TouchingKey(before, more, keys, keys[k]);
      JustifiedAppend(fits, groups, trace, before, more, TouchingOne(keys));
      if DownwardClosed(fits) {
        forall x | x in keys[..k] ensures Apart(fits, out, x, x) {
          ReplayApart(fits, before, more, x, x);
        }
      }
      trace := trace + more;
    }
    assert keys[..|keys|] == keys;
  }

  lemma TouchingKey(gs: Groups, trace: seq<(nat, nat)>, keys: seq<set<string>>, ids: set<string>)
    requires Justified(gs, trace, Touching(ids)) && ids in keys
    ensures Justified(gs, trace, TouchingOne(keys))
  {
    JustifiedBy(gs, trace, Touching(ids), TouchingOne(keys));
  }

  /** The identifiers in the groups whose fragments edit `key`. */
  ghost function Editors(fs: string -> Fragment, gs: Groups, key: Owner): set<string> {
    set g, id | g in gs && id in g && key in fs(id).owners :: id
  }

  /** `owners` lists, for each key that occurs, the members seen so far that edit it. */
  ghost predicate Indexed(fs: string -> Fragment, seen: set<string>, owners: map<Owner, set<string>>) {
    forall key :: (key in owners ==> owners[key] == Editing(fs, seen, key))
                  && (key !in owners ==> Editing(fs, seen, key) == {})
  }

  function Editing(fs: string -> Fragment, ids: set<string>, key: Owner): set<string> {
    set id | id in ids && key in fs(id).owners
  }

  /** The index that `mergeOwners` builds first. */
  method IndexOwners(fs: string -> Fragment, gs: Groups) returns (owners: map<Owner, set<string>>)
    ensures Indexed(fs, set g, id | g in gs && id in g :: id, owners)
  {
    owners := map[];
    ghost var seen: set<string> := {};
    for i := 0 to |gs|
      invariant Indexed(fs, seen, owners) && seen == set g, id | g in gs[..i] && id in g :: id
    {
      assert gs[..i + 1] == gs[..i] + [gs[i]];
      for j := 0 to |gs[i]|
        invariant Indexed(fs, seen, owners)
        invariant seen == (set g, id | g in gs[..i] && id in g :: id) + (set id | id in gs[i][..j])
      {
        assert gs[i][..j + 1] == gs[i][..j] + [gs[i][j]];
        owners := IndexOne(fs, gs[i][j], seen, owners);
        seen := seen + {gs[i][j]};
      }
      assert gs[i][..|gs[i]|] == gs[i];
    }
    assert gs[..|gs|] == gs;
  }

  method IndexOne(fs: string -> Fragment, id: string, ghost seen: set<string>, owners0: map<Owner, set<string>>)
    returns (owners: map<Owner, set<string>>)
    requires Indexed(fs, seen, owners0)
    ensures Indexed(fs, seen + {id}, owners)
  {
    owners := owners0;
    var keys := fs(id).owners;
    for k := 0 to |keys|
      invariant forall key :: key in owners <==> key in owners0 || key in keys[..k]
      invariant forall key :: key in owners ==>
                  owners[key] == (if key in owners0 then owners0[key] else {}) + (if key in keys[..k] then {id} else {})
    {
      var key := keys[k];
      assert keys[..k + 1] == keys[..k] + [key];
      owners := owners[key := (if key in owners then owners[key] else {}) + {id}];
    }
    assert keys[..|keys|] == keys;
    forall key
      ensures key in owners ==> owners[key] == Editing(fs, seen + {id}, key)
      ensures key !in owners ==> Editing(fs, seen + {id}, key) == {}
    {
      EditingMore(fs, seen, id, key);
    }
  }

  lemma EditingMore(fs: string -> Fragment, seen: set<string>, id: string, key: Owner)
    ensures Editing(fs, seen + {id}, key) == Editing(fs, seen, key) + if key in fs(id).owners then {id} else {}
  {}

  /** Merged because both groups hold fragments that edit one declaration. */
  ghost function ForOwner(fs: string -> Fragment, groups: Groups): (Groups, nat, nat) -> bool {
    (gs: Groups, i: nat, j: nat) => exists key :: Touching(Editors(fs, groups, key))(gs, i, j)
  }

  /** `mergeOwners`: only groups that edit one declaration are merged, and afterwards no
      declaration is edited from two groups that fit together. */
  method MergeOwners(fits: Capacity, fs: string -> Fragment, groups: Groups)
    returns (out: Groups, ghost trace: seq<(nat, nat)>)
    ensures Replay(fits, groups, trace) == Some(out) && Justified(groups, trace, ForOwner(fs, groups))
    ensures DownwardClosed(fits) ==> forall key :: Apart(fits, out, Editors(fs, groups, key), Editors(fs, groups, key))
  {
    hide Replay, DownwardClosed, Apart, Reunited, Justified;
    var owners := IndexOwners(fs, groups);
    var keys := KeyOrder(owners);
    out, trace := MergeKeys(fits, groups, keys);
    TouchingOwner(fs, groups, trace, owners, keys);
    if DownwardClosed(fits) {
      forall key ensures Apart(fits, out, Editors(fs, groups, key), Editors(fs, groups, key)) {
        EditorsApart(fits, fs, groups, out, owners, keys, key);
      }
    }
  }

  /** The keys in some order: the source sorts them, and nothing promised depends on how. */
  method KeyOrder(owners: map<Owner, set<string>>) returns (keys: seq<set<string>>)
    ensures forall key :: key in owners ==> owners[key] in keys
    ensures forall ids :: ids in keys ==> exists key :: key in owners && owners[key] == ids
  {
    keys := [];
    var rest := owners.Keys;
    while rest != {}
      invariant rest <= owners.Keys
      invariant forall ids :: ids in keys ==> exists key :: key in owners && owners[key] == ids
      invariant forall key :: key in owners && key !in rest ==> owners[key] in keys
      decreases |rest|
    {
      var key :| key in rest;
      rest := rest - {key};
      keys := keys + [owners[key]];
    }
  }

  lemma TouchingOwner(fs: string -> Fragment, groups: Groups, trace: seq<(nat, nat)>,
                      owners: map<Owner, set<string>>, keys: seq<set<string>>)
    requires Indexed(fs, set g, id | g in groups && id in g :: id, owners)
    requires forall ids :: ids in keys ==> exists key :: key in owners && owners[key] == ids
    requires Justified(groups, trace, TouchingOne(keys))
    ensures Justified(groups, trace, ForOwner(fs, groups))
  {
    forall gs, i, j | TouchingOne(keys)(gs, i, j) ensures ForOwner(fs, groups)(gs, i, j) {
      var ids :| ids in keys && Touching(ids)(gs, i, j);
      var key :| key in owners && owners[key] == ids;
      EditorsAre(fs, groups, key);
      assert Touching(Editors(fs, groups, key))(gs, i, j);
    }
    JustifiedBy(groups, trace, TouchingOne(keys), ForOwner(fs, groups));
  }

  lemma EditorsAre(fs: string -> Fragment, gs: Groups, key: Owner)
    ensures Editors(fs, gs, key) == Editing(fs, set g, id | g in gs && id in g :: id, key)
  {
  }

  lemma EditorsApart(fits: Capacity, fs: string -> Fragment, groups: Groups, out: Groups,
                     owners: map<Owner, set<string>>, keys: seq<set<string>>, key: Owner)
    requires Indexed(fs, set g, id | g in groups && id in g :: id, owners)
    requires forall k :: k in owners ==> owners[k] in keys
    requires Reunited(fits, out, keys)
    ensures Apart(fits, out, Editors(fs, groups, key), Editors(fs, groups, key))
  {
    hide Union;
    var members := set g, id | g in groups && id in g :: id;
    assert Editors(fs, groups, key) == Editing(fs, members, key);
    if key !in owners {
      assert forall g :: !Hits(g, {});
    }
  }

  // ---------- Files ----------

  const FAR: int := 0x7FFF_FFFF_FFFF_FFFF

  function SpanDistance(a: Span, b: Span): int {
    Max(0, Max(a.first - b.last, b.first - a.last))
  }

  /** The least distance between spans of one side, or what it was before. */
  function SideDistance(a: seq<Span>, b: seq<Span>, best: int): int
    decreases |a|, |b|
  {
    if a == [] then best else SideDistance(a[1..], b, SpanTo(a[0], b, best))
  }

  function SpanTo(a: Span, b: seq<Span>, best: int): int {
    if b == [] then best else SpanTo(a, b[1..], Min(best, SpanDistance(a, b[0])))
  }

  /** `groupFileDistance`: nothing unless some members share a file. */
  function GroupDistance(fs: string -> Fragment, a: seq<string>, b: seq<string>, best: Option<int>): Option<int> {
    if a == [] then best else GroupDistance(fs, a[1..], b, MemberDistance(fs, a[0], b, best))
  }

  function MemberDistance(fs: string -> Fragment, x: string, b: seq<string>, best: Option<int>): Option<int> {
    if b == [] then best
    else if fs(x).path != fs(b[0]).path then MemberDistance(fs, x, b[1..], best)
    else
      var d := if best.Some? then best.value else FAR;
      var d1 := SideDistance(fs(x).before, fs(b[0]).before, d);
      MemberDistance(fs, x, b[1..], Some(SideDistance(fs(x).after, fs(b[0]).after, d1)))
  }

  predicate SameFile(fs: string -> Fragment, a: seq<string>, b: seq<string>) {
    exists x, y :: x in a && y in b && fs(x).path == fs(y).path
  }

  /** All distances between spans of one side. */
  ghost function SpanDistances(a: seq<Span>, b: seq<Span>): set<int> {
    set l, r | l in a && r in b :: SpanDistance(l, r)
  }

  /** All distances between two fragments of one file; sides are not mixed. */
  ghost function MemberDistances(fs: string -> Fragment, x: string, y: string): set<int> {
    if fs(x).path != fs(y).path then {}
    else SpanDistances(fs(x).before, fs(y).before) + SpanDistances(fs(x).after, fs(y).after)
  }

  ghost function GroupDistances(fs: string -> Fragment, a: seq<string>, b: seq<string>): set<int> {
    set x, y, d | x in a && y in b && d in MemberDistances(fs, x, y) :: d
  }

  /** The least of some numbers, or `best` when none of them is smaller. */
  ghost predicate Least(ds: set<int>, best: int, least: int) {
    least <= best && (forall d :: d in ds ==> least <= d) && (least == best || least in ds)
  }

  lemma {:induction false} SpanToIsLeast(a: Span, b: seq<Span>, best: int)
    ensures Least(SpanDistances([a], b), best, SpanTo(a, b, best))
  {
    if b != [] {
      SpanToIsLeast(a, b[1..], Min(best, SpanDistance(a, b[0])));
      assert SpanDistances([a], b) == {SpanDistance(a, b[0])} + SpanDistances([a], b[1..]) by {
        assert a in [a];
        assert forall r :: r in b <==> r == b[0] || r in b[1..];
      }
    }
  }

  lemma {:induction false} SideIsLeast(a: seq<Span>, b: seq<Span>, best: int)
    ensures Least(SpanDistances(a, b), best, SideDistance(a, b, best))
  {
    if a != [] {
      SpanToIsLeast(a[0], b, best);
      SideIsLeast(a[1..], b, SpanTo(a[0], b, best));
      assert SpanDistances(a, b) == SpanDistances([a[0]], b) + SpanDistances(a[1..], b) by {
        assert a[0] in [a[0]];
        assert forall l :: l in a <==> l == a[0] || l in a[1..];
      }
    }
  }

  function OrFar(best: Option<int>): int {
    if best.Some? then best.value else FAR
  }

  lemma NoMember(fs: string -> Fragment, x: string)
    ensures GroupDistances(fs, [x], []) == {}
  {
  }

  lemma NextMember(fs: string -> Fragment, x: string, b: seq<string>)
    requires b != []
    ensures GroupDistances(fs, [x], b) == MemberDistances(fs, x, b[0]) + GroupDistances(fs, [x], b[1..])
  {
    hide MemberDistances;
    assert forall z :: z in [x] <==> z == x;
    assert forall y :: y in b <==> y == b[0] || y in b[1..];
    forall d ensures d in GroupDistances(fs, [x], b)
                 <==> d in MemberDistances(fs, x, b[0]) || d in GroupDistances(fs, [x], b[1..])
    {
      if d in MemberDistances(fs, x, b[0]) {
        assert x in [x] && b[0] in b;
      }
    }
  }

  lemma {:induction false} MemberIsLeast(fs: string -> Fragment, x: string, b: seq<string>, best: Option<int>)
    ensures var r := MemberDistance(fs, x, b, best);
      && (r.Some? <==> best.Some? || SameFile(fs, [x], b))
      && Least(GroupDistances(fs, [x], b), OrFar(best), OrFar(r))
  {
    hide SpanDistances, SideDistance, GroupDistances;
    assert x in [x];
    if b == [] {
      NoMember(fs, x);
    } else {
      var y := b[0];
      assert forall z :: z in b <==> z == y || z in b[1..];
      NextMember(fs, x, b);
      if fs(x).path != fs(y).path {
        MemberIsLeast(fs, x, b[1..], best);
      } else {
        var d := SideDistance(fs(x).before, fs(y).before, OrFar(best));
        SideIsLeast(fs(x).before, fs(y).before, OrFar(best));
        SideIsLeast(fs(x).after, fs(y).after, d);
        MemberIsLeast(fs, x, b[1..], Some(SideDistance(fs(x).after, fs(y).after, d)));
      }
    }
  }

  lemma {:induction false} GroupIsLeast(fs: string -> Fragment, a: seq<string>, b: seq<string>, best: Option<int>)
    ensures var r := GroupDistance(fs, a, b, best);
      && (r.Some? <==> best.Some? || SameFile(fs, a, b))
      && Least(GroupDistances(fs, a, b), OrFar(best), OrFar(r))
  {
    hide MemberDistance, MemberDistances;
    if a != [] {
      MemberIsLeast(fs, a[0], b, best);
      GroupIsLeast(fs, a[1..], b, MemberDistance(fs, a[0], b, best));
      assert a[0] in [a[0]];
      assert forall x :: x in a <==> x == a[0] || x in a[1..];
      assert GroupDistances(fs, a, b) == GroupDistances(fs, [a[0]], b) + GroupDistances(fs, a[1..], b);
    }
  }

  /** Groups have a distance exactly when they share a file, and it is the least one
      between their spans in a file, or the farthest when no spans can be compared. */
  lemma DistanceMeaning(fs: string -> Fragment, a: seq<string>, b: seq<string>)
    ensures var r := GroupDistance(fs, a, b, None);
      && (r.Some? <==> SameFile(fs, a, b))
      && (r.Some? ==> Least(GroupDistances(fs, a, b), FAR, r.value))
  {
    GroupIsLeast(fs, a, b, None);
  }

  /** Some spans of one file and side have no more than `n` lines from one to the other; so
      far apart that it cannot be counted is any pair. */
  ghost predicate Within(fs: string -> Fragment, a: seq<string>, b: seq<string>, n: nat) {
    n >= 0x7FFF_FFFF_FFFF_FFFF
    || exists x, y, l, r :: x in a && y in b && fs(x).path == fs(y).path && OneSide(fs, x, y, l, r)
                            && l.first <= r.last + n && r.first <= l.last + n
  }

  ghost predicate OneSide(fs: string -> Fragment, x: string, y: string, l: Span, r: Span) {
    (l in fs(x).before && r in fs(y).before) || (l in fs(x).after && r in fs(y).after)
  }

  lemma WithinMeans(fs: string -> Fragment, a: seq<string>, b: seq<string>, n: nat)
    ensures var r := GroupDistance(fs, a, b, None);
      (r.Some? <==> SameFile(fs, a, b)) && (r.Some? ==> (r.value <= n <==> Within(fs, a, b, n)))
  {
    DistanceMeaning(fs, a, b);
    hide SameFile;
    var r := GroupDistance(fs, a, b, None);
    if r.Some? {
      var ds := GroupDistances(fs, a, b);
      if r.value <= n < FAR {
        assert r.value in ds;
        DistanceWithin(fs, a, b, r.value, n);
      }
      if x, y, l, m :| x in a && y in b && fs(x).path == fs(y).path && OneSide(fs, x, y, l, m)
                       && l.first <= m.last + n && m.first <= l.last + n
      {
        assert SpanDistance(l, m) in MemberDistances(fs, x, y);
        assert SpanDistance(l, m) in ds;
      }
    }
  }

  lemma DistanceWithin(fs: string -> Fragment, a: seq<string>, b: seq<string>, d: int, n: nat)
    requires d in GroupDistances(fs, a, b) && d <= n
    ensures Within(fs, a, b, n)
  {
    var x, y :| x in a && y in b && d in MemberDistances(fs, x, y);
    var l, r :| OneSide(fs, x, y, l, r) && d == SpanDistance(l, r);
  }

  ghost predicate AsNear(fs: string -> Fragment, a: seq<string>, b: seq<string>, c: seq<string>, d: seq<string>) {
    forall n: nat :: Within(fs, c, d, n) ==> Within(fs, a, b, n)
  }

  /** The pair fits and shares a file, and is as near as every other such pair; of those
      that are equally near it is the first. */
  ghost function Closest(fits: Capacity, fs: string -> Fragment): (Groups, nat, nat) -> bool {
    (gs: Groups, i: nat, j: nat) =>
      && i < j < |gs| && fits(Union(gs[i], gs[j])) && SameFile(fs, gs[i], gs[j])
      && forall p, q :: 0 <= p < q < |gs| && fits(Union(gs[p], gs[q])) && SameFile(fs, gs[p], gs[q]) ==>
           && AsNear(fs, gs[i], gs[j], gs[p], gs[q])
           && (AsNear(fs, gs[p], gs[q], gs[i], gs[j]) ==> i < p || (i == p && j <= q))
  }

  lemma NearestIsClosest(fits: Capacity, fs: string -> Fragment, gs: Groups, i: nat, j: nat)
    requires Nearest(fits, fs)(gs, i, j)
    ensures Closest(fits, fs)(gs, i, j)
  {
    hide Union, SameFile, GroupDistance, Within;
    WithinMeans(fs, gs[i], gs[j], 0);
    forall p: nat, q: nat | p < q < |gs| && fits(Union(gs[p], gs[q])) && SameFile(fs, gs[p], gs[q])
      ensures AsNear(fs, gs[i], gs[j], gs[p], gs[q])
      ensures AsNear(fs, gs[p], gs[q], gs[i], gs[j]) ==> i < p || (i == p && j <= q)
    {
      assert !Nearer(fs, gs, p, q, i, j);
      AsNearMeans(fs, gs[i], gs[j], gs[p], gs[q]);
      AsNearMeans(fs, gs[p], gs[q], gs[i], gs[j]);
    }
  }

  lemma AsNearMeans(fs: string -> Fragment, a: seq<string>, b: seq<string>, c: seq<string>, d: seq<string>)
    requires SameFile(fs, a, b) && SameFile(fs, c, d)
    ensures var x, y := GroupDistance(fs, a, b, None), GroupDistance(fs, c, d, None);
      x.Some? && y.Some? && (AsNear(fs, a, b, c, d) <==> x.value <= y.value)
  {
    hide SameFile, GroupDistance, Within;
    WithinMeans(fs, a, b, 0);
    WithinMeans(fs, c, d, 0);
    var x, y := GroupDistance(fs, a, b, None).value, GroupDistance(fs, c, d, None).value;
    forall n: nat ensures (Within(fs, a, b, n) <==> x <= n) && (Within(fs, c, d, n) <==> y <= n) {
      WithinMeans(fs, a, b, n);
      WithinMeans(fs, c, d, n);
    }
    assert y >= 0 by { DistancePositive(fs, c, d); }
    assert Within(fs, c, d, y);
  }

  lemma DistancePositive(fs: string -> Fragment, a: seq<string>, b: seq<string>)
    ensures var r := GroupDistance(fs, a, b, None); r.Some? ==> r.value >= 0
  {
    DistanceMeaning(fs, a, b);
  }

  /** The pair fits and shares a file, and no pair before it in the order of distance fits. */
  ghost function Nearest(fits: Capacity, fs: string -> Fragment): (Groups, nat, nat) -> bool {
    (gs: Groups, i: nat, j: nat) =>
      && i < j < |gs| && fits(Union(gs[i], gs[j])) && GroupDistance(fs, gs[i], gs[j], None).Some?
      && forall p, q :: 0 <= p < q < |gs| && fits(Union(gs[p], gs[q])) ==> !Nearer(fs, gs, p, q, i, j)
  }

  /** The nearest pair of one file that fits, the first of several. */
  method FindNearest(fits: Capacity, fs: string -> Fragment, gs: Groups) returns (best: Option<(nat, nat)>)
    ensures best.None? ==> forall p, q :: 0 <= p < q < |gs| && SameFile(fs, gs[p], gs[q]) ==> !fits(Union(gs[p], gs[q]))
    ensures best.Some? ==> Nearest(fits, fs)(gs, best.value.0, best.value.1)
  {
    hide Union, SameFile, GroupDistance;
    best := None;
    var i := 0;
    while i < |gs|
      invariant i <= |gs|
      invariant NearestSoFar(fits, fs, gs, i, i + 1, best)
    {
      var j := i + 1;
      while j < |gs|
        invariant i < j && NearestSoFar(fits, fs, gs, i, j, best)
      {
        var d := GroupDistance(fs, gs[i], gs[j], None);
        if d.Some? && fits(Union(gs[i], gs[j])) {
          if best.None? || d.value < GroupDistance(fs, gs[best.value.0], gs[best.value.1], None).value {
            best := Some((i, j));
          }
        }
        j := j + 1;
      }
      i := i + 1;
    }
    forall p, q | 0 <= p < q < |gs| && SameFile(fs, gs[p], gs[q]) ensures best.None? ==> !fits(Union(gs[p], gs[q])) {
      DistanceMeaning(fs, gs[p], gs[q]);
    }
  }

  /** The pair (p, q) comes before (i, j) among the candidates sorted by distance. */
  predicate Nearer(fs: string -> Fragment, gs: Groups, p: nat, q: nat, i: nat, j: nat)
    requires p < |gs| && q < |gs| && i < |gs| && j < |gs|
  {
    var d, e := GroupDistance(fs, gs[p], gs[q], None), GroupDistance(fs, gs[i], gs[j], None);
    d.Some? && (e.None? || d.value < e.value || (d.value == e.value && (p < i || (p == i && q < j))))
  }

  ghost predicate NearestSoFar(fits: Capacity, fs: string -> Fragment, gs: Groups, i: nat, j: nat,
                               best: Option<(nat, nat)>)
  {
    && (best.Some? ==> var (a, b) := best.value;
          a < b < |gs| && fits(Union(gs[a], gs[b])) && GroupDistance(fs, gs[a], gs[b], None).Some?
          && (a < i || (a == i && b < j)))
    && forall p, q :: 0 <= p < q < |gs| && (p < i || (p == i && q < j)) && fits(Union(gs[p], gs[q]))
                      && GroupDistance(fs, gs[p], gs[q], None).Some? ==>
         best.Some? && !Nearer(fs, gs, p, q, best.value.0, best.value.1)
  }

  /** `coalesceFiles`: always the nearest pair that fits, until no two groups of one file
      fit together. */
  method CoalesceFiles(fits: Capacity, fs: string -> Fragment, groups: Groups)
    returns (out: Groups, ghost trace: seq<(nat, nat)>)
    ensures Replay(fits, groups, trace) == Some(out) && Justified(groups, trace, Closest(fits, fs))
    ensures forall p, q :: 0 <= p < q < |out| && SameFile(fs, out[p], out[q]) ==> !fits(Union(out[p], out[q]))
  {
    hide Replay, Union, MergeAt, SameFile, GroupDistance, Nearer, Justified, AsNear;
    out, trace := groups, [];
    NoMerges(fits, groups);
    while true
      invariant Replay(fits, groups, trace) == Some(out) && Justified(groups, trace, Closest(fits, fs))
      decreases |out|
    {
      var best := FindNearest(fits, fs, out);
      if best.None? {
        return;
      }
      var (i, j) := best.value;
      ReplayOne(fits, groups, trace, out, i, j);
      NearestIsClosest(fits, fs, out, i, j);
      JustifiedOne(fits, groups, trace, out, i, j, Closest(fits, fs));
      MergeShrinks(out, i, j);
      out, trace := MergeAt(out, i, j), trace + [(i, j)];
    }
  }
}
