/** What every greedy grouping pass does: replace two groups by their union, when the
    union fits. Properties of single steps are lifted to whole runs here. */
module MergeSteps {
  import opened Basics
  import opened Identifiers

  type Groups = seq<seq<string>>

  type Capacity = seq<string> -> bool

  function Remove<T>(s: seq<T>, i: nat): seq<T>
    requires i < |s|
  {
    s[..i] + s[i + 1..]
  }

  function MergeAt(gs: Groups, i: nat, j: nat): Groups
    requires i < j < |gs|
  {
    Remove(gs[i := Union(gs[i], gs[j])], j)
  }

  /** The groups after a list of merges, each of which must fit. */
  ghost function Replay(fits: Capacity, gs: Groups, trace: seq<(nat, nat)>): Option<Groups>
    decreases |trace|
  {
    if trace == [] then Some(gs)
    else
      var (i, j) := trace[0];
      if i < j < |gs| && fits(Union(gs[i], gs[j])) then Replay(fits, MergeAt(gs, i, j), trace[1..]) else None
  }

  lemma {:induction false} ReplayAppend(fits: Capacity, gs: Groups, trace: seq<(nat, nat)>, more: seq<(nat, nat)>)
    requires Replay(fits, gs, trace).Some?
    ensures Replay(fits, gs, trace + more) == Replay(fits, Replay(fits, gs, trace).value, more)
    decreases |trace|
  {
    if trace == [] {
      assert trace + more == more;
    } else {
      var (i, j) := trace[0];
      assert (trace + more)[1..] == trace[1..] + more;
      ReplayAppend(fits, MergeAt(gs, i, j), trace[1..], more);
    }
  }

  lemma ReplayOne(fits: Capacity, gs: Groups, trace: seq<(nat, nat)>, now: Groups, i: nat, j: nat)
    requires Replay(fits, gs, trace) == Some(now)
    requires i < j < |now| && fits(Union(now[i], now[j]))
    ensures Replay(fits, gs, trace + [(i, j)]) == Some(MergeAt(now, i, j))
  {
    ReplayAppend(fits, gs, trace, [(i, j)]);
    assert [(i, j)][1..] == [];
  }

  /** Each merge of a trace has a reason in the groups it found. */
  ghost predicate Justified(gs: Groups, trace: seq<(nat, nat)>, why: (Groups, nat, nat) -> bool)
    decreases |trace|
  {
    trace == []
    || (var (i, j) := trace[0];
        i < j < |gs| && why(gs, i, j) && Justified(MergeAt(gs, i, j), trace[1..], why))
  }

  lemma {:induction false} JustifiedAppend(fits: Capacity, gs: Groups, trace: seq<(nat, nat)>, now: Groups,
                                           more: seq<(nat, nat)>, why: (Groups, nat, nat) -> bool)
    requires Replay(fits, gs, trace) == Some(now) && Justified(gs, trace, why) && Justified(now, more, why)
    ensures Justified(gs, trace + more, why)
    decreases |trace|
  {
    if trace == [] {
      assert trace + more == more;
    } else {
      var (i, j) := trace[0];
      assert (trace + more)[1..] == trace[1..] + more;
      JustifiedAppend(fits, MergeAt(gs, i, j), trace[1..], now, more, why);
    }
  }

  lemma JustifiedOne(fits: Capacity, gs: Groups, trace: seq<(nat, nat)>, now: Groups, i: nat, j: nat,
                     why: (Groups, nat, nat) -> bool)
    requires Replay(fits, gs, trace) == Some(now) && Justified(gs, trace, why)
    requires i < j < |now| && why(now, i, j)
    ensures Justified(gs, trace + [(i, j)], why)
  {
    assert Justified(now, [(i, j)], why) by {
      assert [(i, j)][1..] == [];
    }
    JustifiedAppend(fits, gs, trace, now, [(i, j)], why);
  }

  /** A reason that implies another one. */
  lemma {:induction false} JustifiedBy(gs: Groups, trace: seq<(nat, nat)>, a: (Groups, nat, nat) -> bool,
                                       b: (Groups, nat, nat) -> bool)
    requires Justified(gs, trace, a) && forall g, i, j :: a(g, i, j) ==> b(g, i, j)
    ensures Justified(gs, trace, b)
    decreases |trace|
  {
    if trace != [] {
      var (i, j) := trace[0];
      JustifiedBy(MergeAt(gs, i, j), trace[1..], a, b);
    }
  }

  // ---------- Keeping every member ----------

  /** In how many groups an identifier stands. */
  ghost function Occ(gs: Groups, id: string): nat {
    if gs == [] then 0 else Occ(gs[..|gs| - 1], id) + if id in gs[|gs| - 1] then 1 else 0
  }

  lemma {:induction false} OccAppend(a: Groups, b: Groups, id: string)
    ensures Occ(a + b, id) == Occ(a, id) + Occ(b, id)
  {
    if b == [] {
      assert a + b == a;
    } else {
      assert (a + b)[..|a + b| - 1] == a + b[..|b| - 1];
      OccAppend(a, b[..|b| - 1], id);
    }
  }

  lemma OccOne(g: seq<string>, id: string)
    ensures Occ([g], id) == if id in g then 1 else 0
  {
    assert [g][..0] == [];
  }

  lemma OccSplit(gs: Groups, i: nat, id: string)
    requires i < |gs|
    ensures Occ(gs, id) == Occ(gs[..i], id) + (if id in gs[i] then 1 else 0) + Occ(gs[i + 1..], id)
  {
    assert gs == (gs[..i] + [gs[i]]) + gs[i + 1..];
    OccAppend(gs[..i] + [gs[i]], gs[i + 1..], id);
    OccAppend(gs[..i], [gs[i]], id);
    OccOne(gs[i], id);
  }

  lemma OccUpdate(gs: Groups, i: nat, g: seq<string>, id: string)
    requires i < |gs|
    ensures Occ(gs[i := g], id) == Occ(gs, id) - (if id in gs[i] then 1 else 0) + (if id in g then 1 else 0)
  {
    OccSplit(gs, i, id);
    OccSplit(gs[i := g], i, id);
    assert gs[i := g][..i] == gs[..i] && gs[i := g][i + 1..] == gs[i + 1..];
  }

  lemma OccRemove(gs: Groups, j: nat, id: string)
    requires j < |gs|
    ensures Occ(Remove(gs, j), id) == Occ(gs, id) - if id in gs[j] then 1 else 0
  {
    OccSplit(gs, j, id);
    OccAppend(gs[..j], gs[j + 1..], id);
  }

  /** A merge drops one occurrence of what both groups shared, and nothing else. */
  lemma OccMerge(gs: Groups, i: nat, j: nat, id: string)
    requires i < j < |gs|
    ensures Occ(MergeAt(gs, i, j), id) == Occ(gs, id) - if id in gs[i] && id in gs[j] then 1 else 0
    ensures id in gs[i] && id in gs[j] ==> Occ(gs, id) >= 2
  {
    hide Occ, Union;
    var u := Union(gs[i], gs[j]);
    assert id in u <==> id in gs[i] || id in gs[j] by { UnionMembers(gs[i], gs[j], id); }
    OccUpdate(gs, i, u, id);
    OccRemove(gs[i := u], j, id);
    OccTwice(gs, i, j, id);
  }

  lemma UnionMembers(a: seq<string>, b: seq<string>, id: string)
    ensures id in Union(a, b) <==> id in a || id in b
    ensures Increasing(Union(a, b))
  {
  }

  lemma OccTwice(gs: Groups, i: nat, j: nat, id: string)
    requires i < j < |gs|
    ensures id in gs[i] && id in gs[j] ==> Occ(gs, id) >= 2
  {
    OccSplit(gs, j, id);
    OccSplit(gs[..j], i, id);
  }

  ghost predicate Within(g: seq<string>, h: seq<string>) {
    forall id :: id in g ==> id in h
  }

  /** What any run of fitting merges keeps. */
  ghost predicate Coarser(fits: Capacity, before: Groups, after: Groups) {
    && (forall id :: Occ(after, id) <= Occ(before, id) && (Occ(before, id) >= 1 ==> Occ(after, id) >= 1))
    && (forall g :: g in after ==> g in before || (fits(g) && Increasing(g)))
    && (forall g :: g in before ==> exists h :: h in after && Within(g, h))
    && ([] in after ==> [] in before)
  }

  lemma CoarserReflexive(fits: Capacity, gs: Groups)
    ensures Coarser(fits, gs, gs)
  {
    hide Occ;
    forall g | g in gs ensures exists h :: h in gs && Within(g, h) {
      assert Within(g, g);
    }
  }

  lemma CoarserTransitive(fits: Capacity, a: Groups, b: Groups, c: Groups)
    requires Coarser(fits, a, b) && Coarser(fits, b, c)
    ensures Coarser(fits, a, c)
  {
    hide Occ;
    forall g | g in a ensures exists h :: h in c && Within(g, h) {
      var m :| m in b && Within(g, m);
      var h :| h in c && Within(m, h);
      assert Within(g, h);
    }
  }

  /** Every group after a merge is a group from before or the union. */
  lemma MergedGroups(gs: Groups, i: nat, j: nat)
    requires i < j < |gs|
    ensures forall g :: g in MergeAt(gs, i, j) ==> g in gs || g == Union(gs[i], gs[j])
    ensures Union(gs[i], gs[j]) in MergeAt(gs, i, j)
    ensures forall k :: 0 <= k < |gs| && k != i && k != j ==> gs[k] in MergeAt(gs, i, j)
  {
    hide Union;
    var after := MergeAt(gs, i, j);
    assert after[i] == Union(gs[i], gs[j]);
    forall g | g in after ensures g in gs || g == Union(gs[i], gs[j]) {
      var k :| 0 <= k < |after| && after[k] == g;
      assert k == i || g == gs[if k < j then k else k + 1];
    }
    forall k | 0 <= k < |gs| && k != i && k != j ensures gs[k] in after {
      assert after[if k < j then k else k - 1] == gs[k];
    }
  }

  lemma UnionNonempty(a: seq<string>, b: seq<string>)
    ensures Union(a, b) == [] ==> a == []
  {
    if a != [] {
      assert a[0] in Union(a, b);
    }
  }

  lemma CoarserStep(fits: Capacity, gs: Groups, i: nat, j: nat)
    requires i < j < |gs| && fits(Union(gs[i], gs[j]))
    ensures Coarser(fits, gs, MergeAt(gs, i, j))
  {
    hide Occ, Union, MergeAt, Increasing;
    var after := MergeAt(gs, i, j);
    var u := Union(gs[i], gs[j]);
    forall id ensures Occ(after, id) <= Occ(gs, id) && (Occ(gs, id) >= 1 ==> Occ(after, id) >= 1) {
      OccMerge(gs, i, j, id);
    }
    MergedGroups(gs, i, j);
    UnionMembers(gs[i], gs[j], "");
    UnionNonempty(gs[i], gs[j]);
    forall g | g in gs ensures exists h :: h in after && Within(g, h) {
      var k :| 0 <= k < |gs| && gs[k] == g;
      if k == i || k == j {
        forall id | id in g ensures id in u { UnionMembers(gs[i], gs[j], id); }
        assert u in after && Within(g, u);
      } else {
        assert g in after && Within(g, g);
      }
    }
  }

  lemma {:induction false} ReplayCoarser(fits: Capacity, gs: Groups, trace: seq<(nat, nat)>)
    requires Replay(fits, gs, trace).Some?
    ensures Coarser(fits, gs, Replay(fits, gs, trace).value)
    decreases |trace|
  {
    hide Coarser, Union;
    if trace == [] {
      CoarserReflexive(fits, gs);
    } else {
      var (i, j) := trace[0];
      CoarserStep(fits, gs, i, j);
      ReplayCoarser(fits, MergeAt(gs, i, j), trace[1..]);
      CoarserTransitive(fits, gs, MergeAt(gs, i, j), Replay(fits, gs, trace).value);
    }
  }

  // ---------- Staying apart ----------

  /** Smaller groups fit wherever larger ones do. */
  ghost predicate DownwardClosed(fits: Capacity) {
    forall a, b :: Increasing(a) && Increasing(b) && Members(a) <= Members(b) && fits(b) ==> fits(a)
  }

  predicate Hits(g: seq<string>, ids: set<string>) {
    exists i :: 0 <= i < |g| && g[i] in ids
  }

  /** No two groups, one with a member in `left` and one in `right`, could be merged. */
  ghost predicate Apart(fits: Capacity, gs: Groups, left: set<string>, right: set<string>) {
    forall i, j :: 0 <= i < |gs| && 0 <= j < |gs| && i != j && Hits(gs[i], left) && Hits(gs[j], right) ==>
      !fits(Union(gs[i], gs[j]))
  }

  lemma HitsUnion(a: seq<string>, b: seq<string>, ids: set<string>)
    ensures Hits(Union(a, b), ids) <==> Hits(a, ids) || Hits(b, ids)
  {
    var u := Union(a, b);
    if Hits(u, ids) {
      var i :| 0 <= i < |u| && u[i] in ids;
      assert u[i] in u;
    }
    if Hits(a, ids) {
      var i :| 0 <= i < |a| && a[i] in ids;
      assert a[i] in u;
    }
    if Hits(b, ids) {
      var i :| 0 <= i < |b| && b[i] in ids;
      assert b[i] in u;
    }
  }

  lemma SmallerUnionFits(fits: Capacity, a: seq<string>, b: seq<string>, c: seq<string>, d: seq<string>)
    requires DownwardClosed(fits) && fits(Union(c, d))
    requires forall id :: id in a || id in b ==> id in c || id in d
    ensures fits(Union(a, b))
  {
    var u, v := Union(a, b), Union(c, d);
    forall id | id in Members(u) ensures id in Members(v) {
      assert id in a || id in b;
    }
  }

  /** Where a group of the merged list comes from, given a member that matters. */
  lemma Origin(gs: Groups, i: nat, j: nat, p: nat, ids: set<string>) returns (o: nat)
    requires i < j < |gs| && p < |MergeAt(gs, i, j)| && Hits(MergeAt(gs, i, j)[p], ids)
    ensures o < |gs| && Hits(gs[o], ids) && forall id :: id in gs[o] ==> id in MergeAt(gs, i, j)[p]
    ensures p == i ==> o == i || o == j
    ensures p != i ==> o != i && o != j && o == if p < j then p else p + 1
  {
    hide Hits;
    if p == i {
      HitsUnion(gs[i], gs[j], ids);
      o := if Hits(gs[i], ids) then i else j;
    } else {
      o := if p < j then p else p + 1;
    }
  }

  /** Merging anything never brings back an opportunity that was exhausted. */
  lemma ApartStep(fits: Capacity, gs: Groups, i: nat, j: nat, left: set<string>, right: set<string>)
    requires DownwardClosed(fits) && i < j < |gs| && Apart(fits, gs, left, right)
    ensures Apart(fits, MergeAt(gs, i, j), left, right)
  {
    hide DownwardClosed, Union, Hits, MergeAt;
    var after := MergeAt(gs, i, j);
    forall p, q | 0 <= p < |after| && 0 <= q < |after| && p != q && Hits(after[p], left) && Hits(after[q], right)
      ensures !fits(Union(after[p], after[q]))
    {
      var a := Origin(gs, i, j, p, left);
      var b := Origin(gs, i, j, q, right);
      assert !fits(Union(gs[a], gs[b]));
      if fits(Union(after[p], after[q])) {
        SmallerUnionFits(fits, gs[a], gs[b], after[p], after[q]);
      }
    }
  }

  lemma {:induction false} ReplayApart(fits: Capacity, gs: Groups, trace: seq<(nat, nat)>, left: set<string>,
                                       right: set<string>)
    requires DownwardClosed(fits) && Replay(fits, gs, trace).Some? && Apart(fits, gs, left, right)
    ensures Apart(fits, Replay(fits, gs, trace).value, left, right)
    decreases |trace|
  {
    hide DownwardClosed, Apart, Union;
    if trace != [] {
      var (i, j) := trace[0];
      ApartStep(fits, gs, i, j, left, right);
      ReplayApart(fits, MergeAt(gs, i, j), trace[1..], left, right);
    }
  }

  lemma ApartLess(fits: Capacity, gs: Groups, left: set<string>, right: set<string>, l: set<string>, r: set<string>)
    requires Apart(fits, gs, left, right) && l <= left && r <= right
    ensures Apart(fits, gs, l, r)
  {
    hide Union;
    forall i, j | 0 <= i < |gs| && 0 <= j < |gs| && i != j && Hits(gs[i], l) && Hits(gs[j], r)
      ensures !fits(Union(gs[i], gs[j]))
    {
      assert Hits(gs[i], left) && Hits(gs[j], right);
    }
  }

  /** Groups that hold none of the identifiers change nothing, on either side. */
  lemma ApartBeside(fits: Capacity, gs: Groups, more: Groups, left: set<string>, right: set<string>)
    requires Apart(fits, gs, left, right)
    requires forall g :: g in more ==> !Hits(g, left) && !Hits(g, right)
    ensures Apart(fits, gs + more, left, right) && Apart(fits, more + gs, left, right)
  {
    hide Union, Hits;
    forall k | |gs| <= k < |gs + more| ensures (gs + more)[k] in more {
      assert (gs + more)[k] == more[k - |gs|];
    }
    forall k | 0 <= k < |more| ensures (more + gs)[k] in more {
      assert (more + gs)[k] == more[k];
    }
    forall i, j | 0 <= i < |gs + more| && 0 <= j < |gs + more| && i != j
                  && Hits((gs + more)[i], left) && Hits((gs + more)[j], right)
      ensures !fits(Union((gs + more)[i], (gs + more)[j]))
    {
    }
    forall i, j | 0 <= i < |more + gs| && 0 <= j < |more + gs| && i != j
                  && Hits((more + gs)[i], left) && Hits((more + gs)[j], right)
      ensures !fits(Union((more + gs)[i], (more + gs)[j]))
    {
      assert !fits(Union(gs[i - |more|], gs[j - |more|]));
    }
  }

  /** Groups that only gain other identifiers stay apart. */
  lemma ApartGrown(fits: Capacity, before: Groups, after: Groups, added: set<string>, left: set<string>,
                   right: set<string>)
    requires DownwardClosed(fits) && Apart(fits, before, left, right) && |after| == |before|
    requires left !! added && right !! added
    requires forall k, id :: 0 <= k < |before| && id in before[k] ==> id in after[k]
    requires forall k, id :: 0 <= k < |before| && id in after[k] ==> id in before[k] || id in added
    ensures Apart(fits, after, left, right)
  {
    hide DownwardClosed, Union;
    forall i, j | 0 <= i < |after| && 0 <= j < |after| && i != j && Hits(after[i], left) && Hits(after[j], right)
      ensures !fits(Union(after[i], after[j]))
    {
      HitsBefore(before[i], after[i], added, left);
      HitsBefore(before[j], after[j], added, right);
      if fits(Union(after[i], after[j])) {
        SmallerUnionFits(fits, before[i], before[j], after[i], after[j]);
      }
    }
  }

  lemma HitsBefore(before: seq<string>, after: seq<string>, added: set<string>, ids: set<string>)
    requires Hits(after, ids) && ids !! added && forall id :: id in after ==> id in before || id in added
    ensures Hits(before, ids)
  {
    var k :| 0 <= k < |after| && after[k] in ids;
    assert after[k] in before;
    var m :| 0 <= m < |before| && before[m] == after[k];
  }

  // ---------- Being taken in ----------

  /** Every group with the member `a` holds `id`, or has no room for it. */
  ghost predicate Attracted(fits: Capacity, gs: Groups, a: string, id: string) {
    forall g :: g in gs && a in g ==> id in g || !fits(Union(g, [id]))
  }

  lemma AttractedGroup(fits: Capacity, g: seq<string>, h: seq<string>, id: string)
    requires DownwardClosed(fits) && (id in g || !fits(Union(g, [id]))) && forall x :: x in g ==> x in h
    ensures id in h || !fits(Union(h, [id]))
  {
    if id !in h && fits(Union(h, [id])) {
      SmallerUnionFits(fits, g, [id], h, [id]);
    }
  }

  lemma {:induction false} ReplayAttracted(fits: Capacity, gs: Groups, trace: seq<(nat, nat)>, a: string, id: string)
    requires DownwardClosed(fits) && Replay(fits, gs, trace).Some? && Attracted(fits, gs, a, id)
    ensures Attracted(fits, Replay(fits, gs, trace).value, a, id)
    decreases |trace|
  {
    hide DownwardClosed, Union, MergeAt;
    if trace != [] {
      var (i, j) := trace[0];
      var after := MergeAt(gs, i, j);
      MergedGroups(gs, i, j);
      forall g | g in after && a in g ensures id in g || !fits(Union(g, [id])) {
        if g !in gs {
          UnionMembers(gs[i], gs[j], a);
          var h := if a in gs[i] then gs[i] else gs[j];
          forall x | x in h ensures x in g { UnionMembers(gs[i], gs[j], x); }
          AttractedGroup(fits, h, g, id);
        }
      }
      ReplayAttracted(fits, after, trace[1..], a, id);
    }
  }
}
