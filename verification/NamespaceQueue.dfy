/** Namespace packing of fragment groups. The source keeps a heap of candidate
    pairs over stable slots and recognises stale entries by generation; here that
    fast form is proved to produce the merges of an exhaustive rescan over the
    shrinking list of groups. */
module NamespaceQueue {
  import opened Basics
  import opened Identifiers
  import opened MergeSteps

  datatype Key = Key(snapshot: string, id: string)

  /** `namespaceKeyLess`. */
  predicate KeyLess(a: Key, b: Key) {
    if a.snapshot != b.snapshot then Less(a.snapshot, b.snapshot) else Less(a.id, b.id)
  }

  datatype Match = Match(depth: int, paths: seq<string>)

  type Depths = map<Key, int>

  /** What a packing pass is given: the namespaces around each fragment, the height
      of each namespace, the capacity test, and the number of groups wanted. */
  datatype Input = Input(scopes: map<string, map<Key, Match>>, heights: map<Key, int>,
                         fits: Capacity, limit: int)

  datatype Merge = Merge(key: Key, ids: seq<string>, proofs: seq<string>)

  // ---------- Namespaces shared by a group ----------

  function Scope(c: Input, id: string): map<Key, Match> {
    if id in c.scopes then c.scopes[id] else map[]
  }

  function Height(c: Input, k: Key): int {
    if k in c.heights then c.heights[k] else 0
  }

  /** `intersectNamespaceDepths`. */
  function Meet(a: Depths, b: Depths): Depths {
    map k | k in a && k in b :: Max(a[k], b[k])
  }

  function ScopeDepths(c: Input, id: string): Depths {
    var scope := Scope(c, id);
    map k | k in scope :: scope[k].depth
  }

  /** The namespaces around every member of a group, at their greatest depth. */
  function GroupDepths(c: Input, ids: seq<string>): Depths {
    if ids == [] then map[]
    else if |ids| == 1 then ScopeDepths(c, ids[0])
    else Meet(GroupDepths(c, ids[..|ids| - 1]), ScopeDepths(c, ids[|ids| - 1]))
  }

  /** `d` is the greatest depth of `k` over the members of `ids`, all inside `k`. */
  ghost predicate Deepest(c: Input, ids: seq<string>, k: Key, d: int) {
    && (forall id :: id in ids ==> k in Scope(c, id) && Scope(c, id)[k].depth <= d)
    && (exists id :: id in ids && k in Scope(c, id) && Scope(c, id)[k].depth == d)
  }

  lemma {:induction false} GroupDepthsMeaning(c: Input, ids: seq<string>, k: Key)
    ensures k in GroupDepths(c, ids) <==> ids != [] && forall id :: id in ids ==> k in Scope(c, id)
    ensures k in GroupDepths(c, ids) ==> Deepest(c, ids, k, GroupDepths(c, ids)[k])
  {
    if |ids| == 1 {
      assert ids[0] in ids;
    } else if |ids| > 1 {
      var init, last := ids[..|ids| - 1], ids[|ids| - 1];
      assert ids == init + [last];
      GroupDepthsMeaning(c, init, k);
      assert init[0] in ids && last in ids;
    }
  }

  /** Meeting the depths of two groups gives the depths of their union. */
  lemma MeetIsUnion(c: Input, a: seq<string>, b: seq<string>)
    requires a != [] && b != []
    ensures Meet(GroupDepths(c, a), GroupDepths(c, b)) == GroupDepths(c, Union(a, b))
  {
    hide Union, GroupDepths;
    forall k
      ensures k in Meet(GroupDepths(c, a), GroupDepths(c, b)) <==> k in GroupDepths(c, Union(a, b))
      ensures k in GroupDepths(c, Union(a, b)) ==>
        Meet(GroupDepths(c, a), GroupDepths(c, b))[k] == GroupDepths(c, Union(a, b))[k]
    {
      MeetAt(c, a, b, k);
    }
  }

  lemma MeetAt(c: Input, a: seq<string>, b: seq<string>, k: Key)
    requires a != [] && b != []
    ensures var m, u := Meet(GroupDepths(c, a), GroupDepths(c, b)), GroupDepths(c, Union(a, b));
      (k in m <==> k in u) && (k in u ==> m[k] == u[k])
  {
    var u := Union(a, b);
    assert forall id :: id in u <==> id in a || id in b;
    assert a[0] in u;
    GroupDepthsMeaning(c, a, k);
    GroupDepthsMeaning(c, b, k);
    GroupDepthsMeaning(c, u, k);
    hide Union, GroupDepths, Scope;
    if k in GroupDepths(c, u) {
      assert k in GroupDepths(c, a) && k in GroupDepths(c, b);
      DeepestUnion(c, a, b, k, GroupDepths(c, a)[k], GroupDepths(c, b)[k], GroupDepths(c, u)[k]);
    }
  }

  lemma DeepestUnion(c: Input, a: seq<string>, b: seq<string>, k: Key, d: int, e: int, m: int)
    requires Deepest(c, a, k, d) && Deepest(c, b, k, e) && Deepest(c, Union(a, b), k, m)
    ensures m == Max(d, e)
  {
    hide Scope, Union;
    assert forall id :: id in Union(a, b) <==> id in a || id in b;
  }

  // ---------- Scoring a pair of groups ----------

  datatype Score = Score(key: Key, depth: int, height: int)

  /** The preference among namespaces shared by one pair. */
  predicate Preferred(a: Score, b: Score) {
    a.height > b.height
    || (a.height == b.height && (a.depth < b.depth || (a.depth == b.depth && KeyLess(a.key, b.key))))
  }

  predicate Shares(c: Input, a: Depths, b: Depths, s: Score) {
    s.key in a && s.key in b && s.depth == Max(a[s.key], b[s.key]) && s.height == Height(c, s.key)
  }

  /** `s` is the most preferred namespace the two groups share. */
  ghost predicate BestShared(c: Input, a: Depths, b: Depths, s: Score) {
    Shares(c, a, b, s) && forall t :: Shares(c, a, b, t) && t != s ==> Preferred(s, t)
  }

  lemma KeyOrder(a: Key, b: Key)
    ensures KeyLess(a, b) || a == b || KeyLess(b, a)
    ensures !(KeyLess(a, b) && KeyLess(b, a)) && !KeyLess(a, a)
  {
    LessTotal(a.snapshot, b.snapshot);
    LessTotal(a.id, b.id);
    LessTotal(a.id, a.id);
  }

  lemma PreferredTransitive(a: Score, b: Score, d: Score)
    requires Preferred(a, b) && Preferred(b, d)
    ensures Preferred(a, d)
  {
    if a.height == b.height == d.height && a.depth == b.depth == d.depth {
      if a.key.snapshot != b.key.snapshot && b.key.snapshot != d.key.snapshot {
        LessTransitive(a.key.snapshot, b.key.snapshot, d.key.snapshot);
        LessTotal(a.key.snapshot, b.key.snapshot);
      } else if a.key.snapshot == b.key.snapshot == d.key.snapshot {
        LessTransitive(a.key.id, b.key.id, d.key.id);
      }
    }
  }

  lemma PreferredTotal(a: Score, b: Score)
    ensures Preferred(a, b) || Preferred(b, a) || (a.key == b.key && a.height == b.height && a.depth == b.depth)
    ensures !(Preferred(a, b) && Preferred(b, a))
  {
    KeyOrder(a.key, b.key);
  }

  lemma BestSharedUnique(c: Input, a: Depths, b: Depths, s: Score, t: Score)
    requires BestShared(c, a, b, s) && BestShared(c, a, b, t)
    ensures s == t
  {
    PreferredTotal(s, t);
  }

  /** The key loop of `candidate`: any order of the map gives the best shared key. */
  method FindShared(c: Input, a: Depths, b: Depths) returns (best: Option<Score>)
    ensures best.Some? ==> BestShared(c, a, b, best.value)
    ensures best.None? ==> forall s :: !Shares(c, a, b, s)
  {
    best := None;
    var rest := a.Keys;
    while rest != {}
      invariant rest <= a.Keys
      invariant best.Some? ==> Shares(c, a, b, best.value) && best.value.key !in rest
      invariant forall t :: Shares(c, a, b, t) && t.key !in rest ==>
                  best.Some? && (t == best.value || Preferred(best.value, t))
      decreases |rest|
    {
      var k :| k in rest;
      rest := rest - {k};
      if k in b {
        var s := Score(k, Max(a[k], b[k]), Height(c, k));
        assert forall t :: Shares(c, a, b, t) && t.key == k ==> t == s;
        if best.None? {
          best := Some(s);
        } else if s.height > best.value.height
                  || (s.height == best.value.height
                      && (s.depth < best.value.depth
                          || (s.depth == best.value.depth && KeyLess(s.key, best.value.key)))) {
          forall t | Shares(c, a, b, t) && t.key !in rest && t != s ensures Preferred(s, t) {
            if t != best.value {
              PreferredTransitive(s, best.value, t);
            }
          }
          best := Some(s);
        } else {
          PreferredTotal(s, best.value);
        }
      }
    }
  }

  // ---------- The reference: rescan every pair, shrink the list ----------

  datatype Pair = Pair(left: nat, right: nat, score: Score)

  /** The shared namespace that makes two groups eligible for merging, if any. */
  ghost function Eligible(c: Input, a: seq<string>, b: seq<string>): Option<Score> {
    var da, db := GroupDepths(c, a), GroupDepths(c, b);
    if (exists s :: BestShared(c, da, db, s)) && c.fits(Union(a, b)) then
      var s :| BestShared(c, da, db, s);
      Some(s)
    else
      None
  }

  /** Scan order with replacement only by a strictly higher or shallower namespace. */
  ghost function Improve(best: Option<Pair>, left: nat, right: nat, s: Option<Score>): Option<Pair> {
    if s.None? then best
    else if best.None? || s.value.height > best.value.score.height
            || (s.value.height == best.value.score.height && s.value.depth < best.value.score.depth)
    then Some(Pair(left, right, s.value))
    else best
  }

  ghost function Scan(c: Input, gs: Groups, i: nat, j: nat, best: Option<Pair>): Option<Pair>
    requires i < j
    decreases |gs| - i, |gs| - j
  {
    if i >= |gs| then best
    else if j >= |gs| then Scan(c, gs, i + 1, i + 2, best)
    else Scan(c, gs, i, j + 1, Improve(best, i, j, Eligible(c, gs[i], gs[j])))
  }

  function Proofs(c: Input, ids: seq<string>, key: Key): seq<string> {
    if ids == [] then []
    else
      var scope := Scope(c, ids[0]);
      (if key in scope then scope[key].paths else []) + Proofs(c, ids[1..], key)
  }

  function Record(c: Input, ids: seq<string>, key: Key): Merge {
    Merge(key, ids, Proofs(c, ids, key))
  }

  /** Until few enough groups remain, merge the first best pair of a full scan. */
  ghost function Rescan(c: Input, gs: Groups): (Groups, seq<Merge>)
    decreases |gs|
  {
    if |gs| <= c.limit then (gs, [])
    else
      ScanFinds(c, gs, 0, 1, None);
      match Scan(c, gs, 0, 1, None)
      case None => (gs, [])
      case Some(p) =>
        var ids := Union(gs[p.left], gs[p.right]);
        var rest := Rescan(c, MergeAt(gs, p.left, p.right));
        (rest.0, [Record(c, ids, p.score.key)] + rest.1)
  }

  ghost predicate IsPair(c: Input, gs: Groups, p: Pair) {
    p.left < p.right < |gs| && Eligible(c, gs[p.left], gs[p.right]) == Some(p.score)
  }

  /** The heap order, on pairs. */
  predicate Earlier(p: Pair, q: Pair) {
    if p.score.height != q.score.height then p.score.height > q.score.height
    else if p.score.depth != q.score.depth then p.score.depth < q.score.depth
    else if p.left != q.left then p.left < q.left
    else p.right < q.right
  }

  /** `best` is the earliest eligible pair among those scanned before (i, j). */
  ghost predicate Scanned(c: Input, gs: Groups, i: nat, j: nat, best: Option<Pair>) {
    && (best.Some? ==> IsPair(c, gs, best.value))
    && (forall q :: IsPair(c, gs, q) && (q.left < i || (q.left == i && q.right < j)) ==>
          best.Some? && (q == best.value || Earlier(best.value, q)))
    && (best.Some? ==> best.value.left < i || (best.value.left == i && best.value.right < j))
  }

  ghost predicate Earliest(c: Input, gs: Groups, best: Option<Pair>) {
    && (best.Some? ==> IsPair(c, gs, best.value))
    && forall q :: IsPair(c, gs, q) ==> best.Some? && (q == best.value || Earlier(best.value, q))
  }

  lemma ScannedPair(c: Input, gs: Groups, i: nat, j: nat, best: Option<Pair>)
    requires i < j < |gs| && Scanned(c, gs, i, j, best)
    ensures Scanned(c, gs, i, j + 1, Improve(best, i, j, Eligible(c, gs[i], gs[j])))
  {
    hide Eligible;
    assert forall q :: IsPair(c, gs, q) && q.left == i && q.right == j ==> Eligible(c, gs[i], gs[j]) == Some(q.score);
  }

  lemma ScannedRow(c: Input, gs: Groups, i: nat, j: nat, best: Option<Pair>)
    requires i < j && |gs| <= j && Scanned(c, gs, i, j, best)
    ensures Scanned(c, gs, i + 1, i + 2, best)
  {
    hide Eligible;
  }

  /** An exhaustive scan finds the earliest eligible pair. */
  lemma {:induction false} ScanFinds(c: Input, gs: Groups, i: nat, j: nat, best: Option<Pair>)
    requires i < j && Scanned(c, gs, i, j, best)
    ensures Earliest(c, gs, Scan(c, gs, i, j, best))
    decreases |gs| - i, |gs| - j
  {
    hide Eligible;
    if i >= |gs| {
    } else if j >= |gs| {
      ScannedRow(c, gs, i, j, best);
      ScanFinds(c, gs, i + 1, i + 2, best);
    } else {
      ScannedPair(c, gs, i, j, best);
      ScanFinds(c, gs, i, j + 1, Improve(best, i, j, Eligible(c, gs[i], gs[j])));
    }
  }

  lemma EarliestUnique(c: Input, gs: Groups, a: Option<Pair>, b: Option<Pair>)
    requires Earliest(c, gs, a) && Earliest(c, gs, b)
    ensures a == b
  {
  }

  // ---------- Stable slots ----------

  datatype Slot = Slot(live: bool, ids: seq<string>, depths: Depths, generation: nat)

  function One(s: Slot): Groups {
    if s.live then [s.ids] else []
  }

  /** The groups of the live slots, in slot order. */
  ghost function Compact(slots: seq<Slot>): Groups {
    if slots == [] then []
    else Compact(slots[..|slots| - 1]) + One(slots[|slots| - 1])
  }

  /** Where a slot's group stands among the live ones. */
  ghost function Position(slots: seq<Slot>, i: nat): nat
    requires i <= |slots|
  {
    |Compact(slots[..i])|
  }

  lemma {:induction false} CompactAppend(a: seq<Slot>, b: seq<Slot>)
    ensures Compact(a + b) == Compact(a) + Compact(b)
  {
    if b == [] {
      assert a + b == a;
    } else {
      var init := b[..|b| - 1];
      assert (a + b)[..|a + b| - 1] == a + init;
      CompactAppend(a, init);
    }
  }

  lemma CompactOne(s: Slot)
    ensures Compact([s]) == One(s)
  {
    assert [s][..0] == [];
  }

  lemma CompactTake(slots: seq<Slot>, i: nat)
    requires i < |slots|
    ensures Compact(slots[..i + 1]) == Compact(slots[..i]) + One(slots[i])
  {
    hide One;
    var before := slots[..i + 1];
    assert before != [] && before[|before| - 1] == slots[i] && before[..|before| - 1] == slots[..i];
  }

  lemma CompactSplit(slots: seq<Slot>, i: nat)
    requires i < |slots|
    ensures Compact(slots) == Compact(slots[..i]) + One(slots[i]) + Compact(slots[i + 1..])
  {
    hide Compact, One;
    CompactTake(slots, i);
    assert slots == slots[..i + 1] + slots[i + 1..];
    CompactAppend(slots[..i + 1], slots[i + 1..]);
  }

  lemma PositionOf(slots: seq<Slot>, i: nat)
    requires i < |slots| && slots[i].live
    ensures Position(slots, i) < |Compact(slots)|
    ensures Compact(slots)[Position(slots, i)] == slots[i].ids
  {
    CompactSplit(slots, i);
  }

  lemma PositionMonotone(slots: seq<Slot>, i: nat, j: nat)
    requires i < j <= |slots| && slots[i].live
    ensures Position(slots, i) < Position(slots, j)
  {
    CompactSplit(slots[..j], i);
    assert slots[..j][..i] == slots[..i];
  }

  lemma {:induction false} PositionOnto(slots: seq<Slot>, p: nat) returns (i: nat)
    requires p < |Compact(slots)|
    ensures i < |slots| && slots[i].live && Position(slots, i) == p
  {
    var n := |slots| - 1;
    if p < |Compact(slots[..n])| {
      i := PositionOnto(slots[..n], p);
      assert slots[..n][..i] == slots[..i];
    } else {
      i := n;
    }
  }

  lemma CompactParts(a: seq<Slot>, s: Slot, b: seq<Slot>, t: Slot, d: seq<Slot>)
    ensures Compact(a + [s] + b + [t] + d) == Compact(a) + One(s) + Compact(b) + One(t) + Compact(d)
  {
    hide Compact, One;
    CompactAppend(a + [s] + b + [t], d);
    CompactAppend(a + [s] + b, [t]);
    CompactAppend(a + [s], b);
    CompactAppend(a, [s]);
    CompactOne(s);
    CompactOne(t);
  }

  lemma PrefixParts(slots: seq<Slot>, i: nat, j: nat)
    requires i < j <= |slots|
    ensures Compact(slots[..j]) == Compact(slots[..i]) + One(slots[i]) + Compact(slots[i + 1..j])
  {
    CompactSplit(slots[..j], i);
    assert slots[..j][..i] == slots[..i] && slots[..j][i + 1..] == slots[i + 1..j];
  }

  lemma RemoveParts<T>(a: seq<T>, x: T, y: T, b: seq<T>, z: T, d: seq<T>)
    ensures Remove((a + [x] + b + [z] + d)[|a| := y], |a| + 1 + |b|) == a + [y] + b + d
  {
  }

  /** Merging into one slot and killing a later one updates and shrinks the list. */
  lemma CompactMerge(slots: seq<Slot>, i: nat, j: nat, merged: Slot, dead: Slot)
    requires i < j < |slots| && slots[i].live && slots[j].live && merged.live && !dead.live
    ensures Position(slots, i) < Position(slots, j) < |Compact(slots)|
    ensures Compact(slots[i := merged][j := dead]) ==
            Remove(Compact(slots)[Position(slots, i) := merged.ids], Position(slots, j))
    ensures |Compact(slots[i := merged][j := dead])| == |Compact(slots)| - 1
  {
    hide Compact;
    var a, b, d := slots[..i], slots[i + 1..j], slots[j + 1..];
    var ca, cb, cd := Compact(a), Compact(b), Compact(d);
    assert Compact(slots) == ca + [slots[i].ids] + cb + [slots[j].ids] + cd by {
      assert slots == a + [slots[i]] + b + [slots[j]] + d;
      CompactParts(a, slots[i], b, slots[j], d);
    }
    assert Compact(slots[i := merged][j := dead]) == ca + [merged.ids] + cb + cd by {
      assert slots[i := merged][j := dead] == a + [merged] + b + [dead] + d;
      CompactParts(a, merged, b, dead, d);
    }
    assert Compact(slots[..j]) == ca + [slots[i].ids] + cb by {
      PrefixParts(slots, i, j);
    }
    RemoveParts(ca, slots[i].ids, merged.ids, cb, slots[j].ids, cd);
  }

  // ---------- The fast form ----------

  datatype Candidate = Candidate(left: nat, right: nat, leftGeneration: nat, rightGeneration: nat,
                                 key: Key, depth: int, height: int)

  /** `namespaceCandidates.Less`. */
  predicate CandidateLess(a: Candidate, b: Candidate) {
    if a.height != b.height then a.height > b.height
    else if a.depth != b.depth then a.depth < b.depth
    else if a.left != b.left then a.left < b.left
    else a.right < b.right
  }

  lemma LeastExists(queue: set<Candidate>)
    requires queue != {}
    ensures exists m :: m in queue && forall x :: x in queue ==> !CandidateLess(x, m)
    decreases |queue|
  {
    var x :| x in queue;
    var rest := queue - {x};
    if rest == {} {
      assert forall y :: y in queue ==> y == x || y in rest;
    } else {
      LeastExists(rest);
      var m :| m in rest && forall y :: y in rest ==> !CandidateLess(y, m);
      var least := if CandidateLess(x, m) then x else m;
      assert forall y :: y in queue ==> y == x || y in rest;
      assert forall y :: y in queue ==> !CandidateLess(y, least);
    }
  }

  /** Both slots are live and have not been merged since the entry was made. */
  predicate Current(slots: seq<Slot>, x: Candidate) {
    && x.left < x.right < |slots|
    && slots[x.left].live && slots[x.right].live
    && slots[x.left].generation == x.leftGeneration && slots[x.right].generation == x.rightGeneration
  }

  /** The entry that two slots deserve now, if they are eligible. */
  ghost function At(c: Input, slots: seq<Slot>, left: nat, right: nat): Option<Candidate>
    requires left < right < |slots|
  {
    match Eligible(c, slots[left].ids, slots[right].ids)
    case None => None
    case Some(s) =>
      Some(Candidate(left, right, slots[left].generation, slots[right].generation, s.key, s.depth, s.height))
  }

  ghost predicate Described(c: Input, slots: seq<Slot>) {
    forall i :: 0 <= i < |slots| && slots[i].live ==> slots[i].depths == GroupDepths(c, slots[i].ids)
  }

  /** Entries never come from the future, and a current entry is the deserved one. */
  ghost predicate Honest(c: Input, slots: seq<Slot>, queue: set<Candidate>) {
    forall x :: x in queue ==>
      && x.left < x.right < |slots|
      && x.leftGeneration <= slots[x.left].generation && x.rightGeneration <= slots[x.right].generation
      && (Current(slots, x) ==> At(c, slots, x.left, x.right) == Some(x))
  }

  /** Every eligible pair of live slots has its entry, except pairs of `pivot`
      with slots from `from` on. */
  ghost predicate Filled(c: Input, slots: seq<Slot>, queue: set<Candidate>, pivot: nat, from: nat) {
    forall i, j :: 0 <= i < j < |slots| && slots[i].live && slots[j].live && At(c, slots, i, j).Some?
                   && !(i == pivot && from <= j) && !(j == pivot && from <= i) ==>
      At(c, slots, i, j).value in queue
  }

  ghost predicate Complete(c: Input, slots: seq<Slot>, queue: set<Candidate>) {
    Filled(c, slots, queue, |slots|, |slots|)
  }

  method FindCandidate(c: Input, slots: seq<Slot>, left: nat, right: nat) returns (r: Option<Candidate>)
    requires left < right < |slots| && slots[left].live && slots[right].live && Described(c, slots)
    ensures r == At(c, slots, left, right)
  {
    var a, b := slots[left], slots[right];
    var shared := FindShared(c, a.depths, b.depths);
    if shared.None? {
      assert forall s :: !BestShared(c, a.depths, b.depths, s);
      return None;
    }
    forall t | BestShared(c, a.depths, b.depths, t) ensures t == shared.value {
      BestSharedUnique(c, a.depths, b.depths, t, shared.value);
    }
    if !c.fits(Union(a.ids, b.ids)) {
      return None;
    }
    var s := shared.value;
    return Some(Candidate(left, right, a.generation, b.generation, s.key, s.depth, s.height));
  }

  /** Where a current entry's pair stands in the compact list. */
  ghost function AsPair(slots: seq<Slot>, x: Candidate): Pair
    requires Current(slots, x)
  {
    Pair(Position(slots, x.left), Position(slots, x.right), Score(x.key, x.depth, x.height))
  }

  /** A popped current entry is the pair an exhaustive rescan would choose. */
  lemma PopIsEarliest(c: Input, slots: seq<Slot>, queue: set<Candidate>, x: Candidate)
    requires Honest(c, slots, queue) && Complete(c, slots, queue)
    requires x in queue && Current(slots, x) && forall y :: y in queue ==> !CandidateLess(y, x)
    ensures Earliest(c, Compact(slots), Some(AsPair(slots, x)))
  {
    hide Eligible, Compact;
    var gs := Compact(slots);
    var best := AsPair(slots, x);
    PositionOf(slots, x.left);
    PositionOf(slots, x.right);
    PositionMonotone(slots, x.left, x.right);
    assert At(c, slots, x.left, x.right) == Some(x);
    assert IsPair(c, gs, best);
    forall q | IsPair(c, gs, q) ensures q == best || Earlier(best, q) {
      var i, j := LocatePair(c, slots, q);
      var y := At(c, slots, i, j).value;
      assert y in queue && !CandidateLess(y, x);
      if i != x.left {
        OrderKept(slots, i, x.left);
      } else if j != x.right {
        OrderKept(slots, j, x.right);
      }
    }
  }

  lemma OrderKept(slots: seq<Slot>, i: nat, j: nat)
    requires i < |slots| && j < |slots| && slots[i].live && slots[j].live && i != j
    ensures i < j <==> Position(slots, i) < Position(slots, j)
    ensures Position(slots, i) != Position(slots, j)
  {
    if i < j {
      PositionMonotone(slots, i, j);
    } else {
      PositionMonotone(slots, j, i);
    }
  }

  /** The slots of an eligible pair of the compact list. */
  lemma LocatePair(c: Input, slots: seq<Slot>, q: Pair) returns (i: nat, j: nat)
    requires IsPair(c, Compact(slots), q)
    ensures i < j < |slots| && slots[i].live && slots[j].live
    ensures q.left == Position(slots, i) && q.right == Position(slots, j)
    ensures At(c, slots, i, j).Some?
    ensures var y := At(c, slots, i, j).value;
            Score(y.key, y.depth, y.height) == q.score && y.left == i && y.right == j
  {
    hide Eligible, Compact;
    i := PositionOnto(slots, q.left);
    j := PositionOnto(slots, q.right);
    if i > j {
      PositionMonotone(slots, j, i);
    }
    PositionOf(slots, i);
    PositionOf(slots, j);
  }

  /** Without a current entry no pair is eligible. */
  lemma EmptyMeansNone(c: Input, slots: seq<Slot>)
    requires Complete(c, slots, {})
    ensures Earliest(c, Compact(slots), None)
  {
    forall q | IsPair(c, Compact(slots), q) ensures false {
      var i, j := LocatePair(c, slots, q);
    }
  }

  function Merged(c: Input, slots: seq<Slot>, x: Candidate): seq<Slot>
    requires Current(slots, x)
  {
    var a, b := slots[x.left], slots[x.right];
    slots[x.left := Slot(true, Union(a.ids, b.ids), Meet(a.depths, b.depths), a.generation + 1)]
         [x.right := Slot(false, [], map[], b.generation)]
  }

  /** A merge leaves every other live pair's entry valid and makes the rest stale. */
  lemma MergeKeeps(c: Input, slots: seq<Slot>, queue: set<Candidate>, x: Candidate)
    requires Described(c, slots) && Honest(c, slots, queue) && Complete(c, slots, queue)
    requires x in queue && Current(slots, x)
    ensures var after := Merged(c, slots, x);
            && Described(c, after) && Honest(c, after, queue - {x})
            && Filled(c, after, queue - {x}, x.left, 0)
  {
    hide Eligible, Union;
    var after := Merged(c, slots, x);
    var a, b := slots[x.left].ids, slots[x.right].ids;
    assert At(c, slots, x.left, x.right).Some?;
    EligibleNonempty(c, a, b);
    MeetIsUnion(c, a, b);
    forall y | y in queue - {x} && Current(after, y) ensures At(c, after, y.left, y.right) == Some(y) {
      assert Current(slots, y);
      assert At(c, slots, y.left, y.right) == Some(y);
    }
    forall i, j | 0 <= i < j < |after| && after[i].live && after[j].live && At(c, after, i, j).Some?
                  && i != x.left && j != x.left
      ensures At(c, after, i, j).value in queue - {x}
    {
      assert At(c, slots, i, j) == At(c, after, i, j);
    }
  }

  lemma EligibleNonempty(c: Input, a: seq<string>, b: seq<string>)
    requires Eligible(c, a, b).Some?
    ensures a != [] && b != []
  {
  }

  /** Recording the entry of one more pair of the merged slot. */
  lemma FillOne(c: Input, slots: seq<Slot>, queue: set<Candidate>, pivot: nat, i: nat, added: Option<Candidate>)
    requires pivot < |slots| && i < |slots| && slots[pivot].live
    requires Honest(c, slots, queue) && Filled(c, slots, queue, pivot, i)
    requires i != pivot && slots[i].live ==>
               added == At(c, slots, if i < pivot then i else pivot, if i < pivot then pivot else i)
    requires i == pivot || !slots[i].live ==> added == None
    ensures var grown := queue + if added.Some? then {added.value} else {};
            Honest(c, slots, grown) && Filled(c, slots, grown, pivot, i + 1)
  {
    hide Eligible;
  }

  method PushPairs(c: Input, slots: seq<Slot>, pivot: nat, queue0: set<Candidate>) returns (queue: set<Candidate>)
    requires pivot < |slots| && slots[pivot].live && Described(c, slots)
    requires Honest(c, slots, queue0) && Filled(c, slots, queue0, pivot, 0)
    ensures Honest(c, slots, queue) && Complete(c, slots, queue)
  {
    hide Honest, Filled, Complete, At, Described;
    queue := queue0;
    for i := 0 to |slots|
      invariant Honest(c, slots, queue) && Filled(c, slots, queue, pivot, i)
    {
      var added: Option<Candidate> := None;
      if i != pivot && slots[i].live {
        added := FindCandidate(c, slots, if i < pivot then i else pivot, if i < pivot then pivot else i);
      }
      FillOne(c, slots, queue, pivot, i, added);
      queue := queue + if added.Some? then {added.value} else {};
    }
    FilledIsComplete(c, slots, queue, pivot);
  }

  lemma FilledIsComplete(c: Input, slots: seq<Slot>, queue: set<Candidate>, pivot: nat)
    requires Filled(c, slots, queue, pivot, |slots|)
    ensures Complete(c, slots, queue)
  {
    hide At;
  }

  /** One step of the rescan, seen from the slots. */
  lemma RescanStep(c: Input, slots: seq<Slot>, x: Candidate)
    requires Current(slots, x) && |Compact(slots)| > c.limit
    requires Earliest(c, Compact(slots), Some(AsPair(slots, x)))
    ensures var ids := Union(slots[x.left].ids, slots[x.right].ids);
            var rest := Rescan(c, Compact(Merged(c, slots, x)));
            Rescan(c, Compact(slots)) == (rest.0, [Record(c, ids, x.key)] + rest.1)
    ensures |Compact(Merged(c, slots, x))| == |Compact(slots)| - 1
  {
    hide Compact, Eligible, Union, Record;
    var gs := Compact(slots);
    var best := AsPair(slots, x);
    ScanFinds(c, gs, 0, 1, None);
    EarliestUnique(c, gs, Scan(c, gs, 0, 1, None), Some(best));
    var merged := Merged(c, slots, x);
    CompactMerge(slots, x.left, x.right, merged[x.left], merged[x.right]);
    PositionOf(slots, x.left);
    PositionOf(slots, x.right);
  }

  lemma RescanEnds(c: Input, gs: Groups)
    requires |gs| <= c.limit || Earliest(c, gs, None)
    ensures Rescan(c, gs) == (gs, [])
  {
    hide Eligible;
    if |gs| > c.limit {
      ScanFinds(c, gs, 0, 1, None);
      EarliestUnique(c, gs, Scan(c, gs, 0, 1, None), None);
    }
  }

  method Describe(c: Input, ids: seq<string>) returns (depths: Depths)
    ensures depths == GroupDepths(c, ids)
  {
    depths := map[];
    for j := 0 to |ids|
      invariant depths == GroupDepths(c, ids[..j])
    {
      assert ids[..j + 1][..j] == ids[..j];
      if j == 0 {
        depths := ScopeDepths(c, ids[j]);
      } else {
        depths := Meet(depths, ScopeDepths(c, ids[j]));
      }
    }
    assert ids[..|ids|] == ids;
  }

  lemma {:induction false} CompactAll(slots: seq<Slot>, groups: Groups)
    requires |slots| == |groups|
    requires forall i :: 0 <= i < |slots| ==> slots[i].live && slots[i].ids == groups[i]
    ensures Compact(slots) == groups
  {
    if slots != [] {
      var n := |slots| - 1;
      CompactAll(slots[..n], groups[..n]);
      assert groups == groups[..n] + [groups[n]];
    }
  }

  /** One live slot for each group. */
  method Open(c: Input, groups: Groups) returns (slots: seq<Slot>)
    ensures Compact(slots) == groups && Described(c, slots)
    ensures forall i :: 0 <= i < |slots| ==> slots[i].live
  {
    slots := [];
    for i := 0 to |groups|
      invariant |slots| == i && Described(c, slots)
      invariant forall k :: 0 <= k < i ==> slots[k].live && slots[k].ids == groups[k]
    {
      var depths := Describe(c, groups[i]);
      slots := slots + [Slot(true, groups[i], depths, 0)];
    }
    CompactAll(slots, groups);
  }

  method Prepare(c: Input, groups: Groups) returns (slots: seq<Slot>, queue: set<Candidate>)
    ensures Compact(slots) == groups && Described(c, slots)
    ensures Honest(c, slots, queue) && Complete(c, slots, queue)
  {
    slots := Open(c, groups);
    hide Honest, PairedBefore, Complete, At, Described, Compact;
    queue := {};
    PairsStart(c, slots);
    for i := 0 to |slots|
      invariant Honest(c, slots, queue) && PairedBefore(c, slots, queue, i, i + 1)
    {
      for j := i + 1 to |slots|
        invariant Honest(c, slots, queue) && PairedBefore(c, slots, queue, i, j)
      {
        var added := FindCandidate(c, slots, i, j);
        PairOne(c, slots, queue, i, j, added);
        queue := queue + if added.Some? then {added.value} else {};
      }
      PairsNext(c, slots, queue, i);
    }
    PairsEnd(c, slots, queue);
  }

  /** Every eligible pair up to (i, j) in the order of the double loop has its entry. */
  ghost predicate PairedBefore(c: Input, slots: seq<Slot>, queue: set<Candidate>, i: nat, j: nat) {
    forall a, b :: 0 <= a < b < |slots| && (a < i || (a == i && b < j)) && At(c, slots, a, b).Some? ==>
      At(c, slots, a, b).value in queue
  }

  lemma PairsStart(c: Input, slots: seq<Slot>)
    ensures Honest(c, slots, {}) && PairedBefore(c, slots, {}, 0, 1)
  {}

  lemma PairOne(c: Input, slots: seq<Slot>, queue: set<Candidate>, i: nat, j: nat, added: Option<Candidate>)
    requires i < j < |slots| && added == At(c, slots, i, j)
    requires Honest(c, slots, queue) && PairedBefore(c, slots, queue, i, j)
    ensures var grown := queue + if added.Some? then {added.value} else {};
      Honest(c, slots, grown) && PairedBefore(c, slots, grown, i, j + 1)
  {
    hide Eligible, Current;
  }

  lemma PairsNext(c: Input, slots: seq<Slot>, queue: set<Candidate>, i: nat)
    requires PairedBefore(c, slots, queue, i, |slots|)
    ensures PairedBefore(c, slots, queue, i + 1, i + 2)
  {
    hide At;
  }

  lemma PairsEnd(c: Input, slots: seq<Slot>, queue: set<Candidate>)
    requires PairedBefore(c, slots, queue, |slots|, |slots| + 1)
    ensures Complete(c, slots, queue)
  {
    hide At;
  }

  /** Dropping a stale entry loses nothing. */
  lemma StaleDropped(c: Input, slots: seq<Slot>, queue: set<Candidate>, x: Candidate)
    requires Honest(c, slots, queue) && Complete(c, slots, queue) && !Current(slots, x)
    ensures Honest(c, slots, queue - {x}) && Complete(c, slots, queue - {x})
  {
    hide Eligible;
  }

  lemma MergedIsLive(c: Input, slots: seq<Slot>, x: Candidate)
    requires Current(slots, x)
    ensures x.left < |slots| && x.right < |slots|
    ensures x.left < |Merged(c, slots, x)| && Merged(c, slots, x)[x.left].live
    ensures Merged(c, slots, x)[x.left].ids == Union(slots[x.left].ids, slots[x.right].ids)
  {
  }

  /** The rescan from `start` makes the given merges and goes on from `now`. */
  ghost predicate Continues(c: Input, start: Groups, merges: seq<Merge>, now: Groups) {
    Rescan(c, start).0 == Rescan(c, now).0 && Rescan(c, start).1 == merges + Rescan(c, now).1
  }

  lemma ContinuesAtStart(c: Input, start: Groups)
    ensures Continues(c, start, [], start)
  {
  }

  lemma ContinuesAfter(c: Input, start: Groups, merges: seq<Merge>, now: Groups, next: Groups, m: Merge)
    requires Continues(c, start, merges, now)
    requires Rescan(c, now) == (Rescan(c, next).0, [m] + Rescan(c, next).1)
    ensures Continues(c, start, merges + [m], next)
  {
    hide Rescan;
  }

  lemma ContinuesToEnd(c: Input, start: Groups, merges: seq<Merge>, now: Groups)
    requires Continues(c, start, merges, now) && Rescan(c, now) == (now, [])
    ensures Rescan(c, start) == (now, merges)
  {
    hide Rescan;
    assert merges + [] == merges;
    assert Rescan(c, now).1 == [];
    assert Rescan(c, start) == (Rescan(c, start).0, Rescan(c, start).1);
  }

  /** `mergeNamespaceGroups`: the same groups and the same merges, in the same
      order, as the exhaustive rescan. */
  method MergeNamespaceGroups(c: Input, groups: Groups) returns (out: Groups, merges: seq<Merge>)
    ensures (out, merges) == Rescan(c, groups)
    ensures Chosen(c, groups, merges, out)
  {
    hide *;
    RescanChooses(c, groups);
    var slots, queue := Prepare(c, groups);
    var remaining := |groups|;
    merges := [];
    ContinuesAtStart(c, groups);
    while remaining > c.limit && queue != {}
      invariant Described(c, slots) && Honest(c, slots, queue)
      invariant remaining > c.limit ==> Complete(c, slots, queue)
      invariant remaining == |Compact(slots)|
      invariant Continues(c, groups, merges, Compact(slots))
      decreases remaining, |queue|
    {
      LeastExists(queue);
      var x :| x in queue && forall y :: y in queue ==> !CandidateLess(y, x);
      if !Current(slots, x) {
        StaleDropped(c, slots, queue, x);
        queue := queue - {x};
      } else {
        PopIsEarliest(c, slots, queue, x);
        RescanStep(c, slots, x);
        MergeKeeps(c, slots, queue, x);
        MergedIsLive(c, slots, x);
        ContinuesAfter(c, groups, merges, Compact(slots), Compact(Merged(c, slots, x)),
                       Record(c, Union(slots[x.left].ids, slots[x.right].ids), x.key));
        slots := Merged(c, slots, x);
        queue := queue - {x};
        merges := merges + [Record(c, slots[x.left].ids, x.key)];
        remaining := remaining - 1;
        if remaining > c.limit {
          queue := PushPairs(c, slots, x.left, queue);
        }
      }
    }
    if remaining > c.limit {
      EmptyMeansNone(c, slots);
    }
    RescanEnds(c, Compact(slots));
    ContinuesToEnd(c, groups, merges, Compact(slots));
    out := LiveGroups(slots);
  }

  /** The output loop over the slots. */
  method LiveGroups(slots: seq<Slot>) returns (out: Groups)
    ensures out == Compact(slots)
  {
    out := [];
    for i := 0 to |slots|
      invariant out == Compact(slots[..i])
    {
      assert slots[..i + 1][..i] == slots[..i];
      if slots[i].live {
        out := out + [slots[i].ids];
      }
    }
    assert slots[..|slots|] == slots;
  }

  // ---------- What the reference guarantees ----------

  /** At exit the limit is met or no eligible pair remains. */
  lemma {:induction false} RescanExhausts(c: Input, gs: Groups)
    ensures var out := Rescan(c, gs).0;
            |out| <= c.limit || forall i, j :: 0 <= i < j < |out| ==> Eligible(c, out[i], out[j]) == None
    decreases |gs|
  {
    hide Eligible;
    if |gs| > c.limit {
      ScanFinds(c, gs, 0, 1, None);
      match Scan(c, gs, 0, 1, None)
      case None =>
        forall i, j | 0 <= i < j < |gs| ensures Eligible(c, gs[i], gs[j]) == None {
          var e := Eligible(c, gs[i], gs[j]);
          assert e.Some? ==> IsPair(c, gs, Pair(i, j, e.value));
        }
      case Some(p) =>
        RescanExhausts(c, MergeAt(gs, p.left, p.right));
    }
  }

  // ---------- What is merged, in terms of the namespaces ----------

  /** Both groups lie in the namespace with all their members, and fit together. */
  ghost predicate Common(c: Input, a: seq<string>, b: seq<string>, k: Key) {
    && a != [] && b != [] && c.fits(Union(a, b))
    && forall id :: id in a || id in b ==> id in c.scopes && k in c.scopes[id]
  }

  /** Some member of the groups lies at least this deep in the namespace. */
  ghost predicate Reaches(c: Input, a: seq<string>, b: seq<string>, k: Key, depth: int) {
    exists id :: (id in a || id in b) && id in c.scopes && k in c.scopes[id] && c.scopes[id][k].depth >= depth
  }

  /** No member of the first two groups lies deeper in `k` than every member of the other
      two lies in `l`. */
  ghost predicate NoDeeper(c: Input, a: seq<string>, b: seq<string>, k: Key, a': seq<string>, b': seq<string>, l: Key) {
    forall id :: (id in a || id in b) && id in c.scopes && k in c.scopes[id] ==>
      Reaches(c, a', b', l, c.scopes[id][k].depth)
  }

  ghost predicate Higher(c: Input, k: Key, l: Key) {
    (if k in c.heights then c.heights[k] else 0) > (if l in c.heights then c.heights[l] else 0)
  }

  /** Groups `i` and `j` are merged in `k`: they have it in common, and no other pair or
      namespace is to be preferred, by height, then by the greatest depth of a member, then
      by the place of the pair, and for one pair by the key. */
  ghost predicate Chooses(c: Input, gs: Groups, i: nat, j: nat, k: Key) {
    && i < j < |gs| && Common(c, gs[i], gs[j], k)
    && forall p, q, l :: 0 <= p < q < |gs| && Common(c, gs[p], gs[q], l) ==>
         && !Higher(c, l, k)
         && (!Higher(c, k, l) ==>
               && NoDeeper(c, gs[i], gs[j], k, gs[p], gs[q], l)
               && (NoDeeper(c, gs[p], gs[q], l, gs[i], gs[j], k) ==>
                     i < p || (i == p && (j < q || (j == q && NoLater(k, l))))))
  }

  ghost predicate NoLater(k: Key, l: Key) {
    k == l || Less(k.snapshot, l.snapshot) || (k.snapshot == l.snapshot && Less(k.id, l.id))
  }

  /** Every merge is the one to be preferred among the groups it finds, and they go on until
      few enough groups are left or no two of them have a namespace in common. */
  ghost predicate Chosen(c: Input, gs: Groups, merges: seq<Merge>, out: Groups)
    decreases |merges|
  {
    if merges == [] then
      && out == gs
      && (|gs| <= c.limit || forall p, q, l :: 0 <= p < q < |gs| ==> !Common(c, gs[p], gs[q], l))
    else
      |gs| > c.limit
      && exists i, j :: 0 <= i < j < |gs| && merges[0].ids == Union(gs[i], gs[j]) && Chooses(c, gs, i, j, merges[0].key)
                        && Chosen(c, MergeAt(gs, i, j), merges[1..], out)
  }

  lemma {:induction false} RescanChooses(c: Input, gs: Groups)
    ensures var (out, merges) := Rescan(c, gs); Chosen(c, gs, merges, out)
    decreases |gs|
  {
    hide Chooses, Common, IsPair, Record, Earliest;
    ScanIsEarliest(c, gs);
    var best := Scan(c, gs, 0, 1, None);
    if |gs| > c.limit {
      if best.Some? {
        var p := best.value;
        EarliestIs(c, gs, p, p);
        PairBounds(c, gs, p);
        var rest := MergeAt(gs, p.left, p.right);
        EarliestChooses(c, gs, p);
        RescanChooses(c, rest);
        var m := Record(c, Union(gs[p.left], gs[p.right]), p.score.key);
        assert ([m] + Rescan(c, rest).1)[1..] == Rescan(c, rest).1;
        RecordIs(c, Union(gs[p.left], gs[p.right]), p.score.key);
      } else {
        forall p, q, l | 0 <= p < q < |gs| ensures !Common(c, gs[p], gs[q], l) {
          if Common(c, gs[p], gs[q], l) {
            var x := CommonPairs(c, gs, p, q, l);
            NoEarliest(c, gs, x);
          }
        }
      }
    }
  }

  /** In the end few enough groups are left, or no two have a namespace in common. */
  lemma {:induction false} ChosenEnds(c: Input, gs: Groups, merges: seq<Merge>, out: Groups)
    requires Chosen(c, gs, merges, out)
    ensures |out| <= c.limit || forall p, q, l :: 0 <= p < q < |out| ==> !Common(c, out[p], out[q], l)
    decreases |merges|
  {
    hide Common, Chooses;
    if merges != [] {
      var i: nat, j: nat :| i < j < |gs| && Chosen(c, MergeAt(gs, i, j), merges[1..], out);
      ChosenEnds(c, MergeAt(gs, i, j), merges[1..], out);
    }
  }

  lemma ScanIsEarliest(c: Input, gs: Groups)
    ensures Earliest(c, gs, Scan(c, gs, 0, 1, None))
  {
    hide Eligible;
    ScanFinds(c, gs, 0, 1, None);
  }

  lemma NoEarliest(c: Input, gs: Groups, x: Pair)
    requires Earliest(c, gs, None)
    ensures !IsPair(c, gs, x)
  {
    hide IsPair;
  }

  lemma PairBounds(c: Input, gs: Groups, p: Pair)
    requires IsPair(c, gs, p)
    ensures p.left < p.right < |gs|
  {}

  /** Merging stops at the limit. */
  lemma {:induction false} ChosenCount(c: Input, gs: Groups, merges: seq<Merge>, out: Groups)
    requires Chosen(c, gs, merges, out) && |gs| > c.limit
    ensures c.limit <= |out| <= |gs|
    decreases |merges|
  {
    hide Chooses, Common, Union;
    if merges != [] {
      var i: nat, j: nat :| i < j < |gs| && Chosen(c, MergeAt(gs, i, j), merges[1..], out);
      assert |MergeAt(gs, i, j)| == |gs| - 1;
      if |gs| - 1 > c.limit {
        ChosenCount(c, MergeAt(gs, i, j), merges[1..], out);
      }
    }
  }

  lemma ChoosesCommon(c: Input, gs: Groups, i: nat, j: nat, k: Key)
    requires Chooses(c, gs, i, j, k)
    ensures i < j < |gs| && gs[i] != [] && gs[j] != []
    ensures forall id :: id in gs[i] || id in gs[j] ==> id in c.scopes && k in c.scopes[id]
  {}

  lemma RecordIs(c: Input, ids: seq<string>, key: Key)
    ensures Record(c, ids, key).ids == ids && Record(c, ids, key).key == key
  {}

  /** The score of a common namespace. */
  ghost function ScoreOf(c: Input, a: seq<string>, b: seq<string>, k: Key): Score
    requires k in GroupDepths(c, a) && k in GroupDepths(c, b)
  {
    Score(k, Max(GroupDepths(c, a)[k], GroupDepths(c, b)[k]), Height(c, k))
  }

  lemma CommonShares(c: Input, a: seq<string>, b: seq<string>, k: Key)
    ensures Common(c, a, b, k) <==> c.fits(Union(a, b)) && k in GroupDepths(c, a) && k in GroupDepths(c, b)
  {
    hide Union;
    GroupDepthsMeaning(c, a, k);
    GroupDepthsMeaning(c, b, k);
    hide GroupDepths;
  }

  /** The depth of a score is that of the deepest member. */
  lemma ScoreReaches(c: Input, a: seq<string>, b: seq<string>, k: Key, depth: int)
    requires Common(c, a, b, k) && k in GroupDepths(c, a) && k in GroupDepths(c, b)
    ensures Reaches(c, a, b, k, depth) <==> ScoreOf(c, a, b, k).depth >= depth
  {
    hide Union;
    GroupDepthsMeaning(c, a, k);
    GroupDepthsMeaning(c, b, k);
    hide GroupDepths;
  }

  lemma NoDeeperScores(c: Input, a: seq<string>, b: seq<string>, k: Key, a': seq<string>, b': seq<string>, l: Key)
    requires Common(c, a, b, k) && k in GroupDepths(c, a) && k in GroupDepths(c, b)
    requires Common(c, a', b', l) && l in GroupDepths(c, a') && l in GroupDepths(c, b')
    ensures NoDeeper(c, a, b, k, a', b', l) <==> ScoreOf(c, a, b, k).depth <= ScoreOf(c, a', b', l).depth
  {
    hide GroupDepths, Union, ScoreOf, Common;
    var depth := ScoreOf(c, a, b, k).depth;
    ScoreReaches(c, a', b', l, depth);
    forall d ensures Reaches(c, a, b, k, d) <==> depth >= d {
      ScoreReaches(c, a, b, k, d);
    }
    forall d ensures Reaches(c, a', b', l, d) <==> ScoreOf(c, a', b', l).depth >= d {
      ScoreReaches(c, a', b', l, d);
    }
    if NoDeeper(c, a, b, k, a', b', l) {
      assert Reaches(c, a, b, k, depth);
    } else {
      var id :| (id in a || id in b) && id in c.scopes && k in c.scopes[id]
                && !Reaches(c, a', b', l, c.scopes[id][k].depth);
      assert Reaches(c, a, b, k, c.scopes[id][k].depth);
    }
  }

  lemma SharedHasBest(c: Input, a: Depths, b: Depths, s: Score) returns (best: Score)
    requires Shares(c, a, b, s)
    ensures BestShared(c, a, b, best) && (best == s || Preferred(best, s))
  {
    best := BestAmong(c, a, b, a.Keys, s);
  }

  /** The best of a score and of the namespaces still to be looked at. */
  lemma {:induction false} BestAmong(c: Input, a: Depths, b: Depths, rest: set<Key>, s: Score) returns (best: Score)
    requires Shares(c, a, b, s) && rest <= a.Keys
    requires forall t :: Shares(c, a, b, t) && t.key !in rest ==> t == s || Preferred(s, t)
    ensures Shares(c, a, b, best) && forall t :: Shares(c, a, b, t) ==> t == best || Preferred(best, t)
    decreases |rest|
  {
    if rest == {} {
      best := s;
    } else {
      var k :| k in rest;
      if k in b && Preferred(Score(k, Max(a[k], b[k]), Height(c, k)), s) {
        var u := Score(k, Max(a[k], b[k]), Height(c, k));
        forall t | Shares(c, a, b, t) && t.key !in rest - {k} && t != u ensures Preferred(u, t) {
          if t != s {
            PreferredTransitive(u, s, t);
          }
        }
        best := BestAmong(c, a, b, rest - {k}, u);
      } else {
        if k in b {
          PreferredTotal(Score(k, Max(a[k], b[k]), Height(c, k)), s);
        }
        best := BestAmong(c, a, b, rest - {k}, s);
      }
    }
  }

  /** A common namespace makes its pair eligible, by it or a preferred one. */
  lemma CommonPairs(c: Input, gs: Groups, p: nat, q: nat, l: Key) returns (x: Pair)
    requires p < q < |gs| && Common(c, gs[p], gs[q], l)
    ensures IsPair(c, gs, x) && x.left == p && x.right == q
    ensures l in GroupDepths(c, gs[p]) && l in GroupDepths(c, gs[q])
    ensures var s := ScoreOf(c, gs[p], gs[q], l); x.score == s || Preferred(x.score, s)
  {
    hide GroupDepths, Union;
    CommonShares(c, gs[p], gs[q], l);
    var a, b, s := GroupDepths(c, gs[p]), GroupDepths(c, gs[q]), ScoreOf(c, gs[p], gs[q], l);
    assert Shares(c, a, b, s);
    var best := SharedHasBest(c, a, b, s);
    var e := Eligible(c, gs[p], gs[q]);
    BestSharedUnique(c, a, b, best, e.value);
    x := Pair(p, q, best);
  }

  lemma EarliestChooses(c: Input, gs: Groups, p: Pair)
    requires Earliest(c, gs, Some(p))
    ensures Chooses(c, gs, p.left, p.right, p.score.key)
  {
    hide GroupDepths, Union, Earliest, Reaches, NoDeeper;
    assert IsPair(c, gs, p) by { EarliestIs(c, gs, p, p); }
    var a, b, k := gs[p.left], gs[p.right], p.score.key;
    CommonShares(c, a, b, k);
    assert p.score == ScoreOf(c, a, b, k);
    forall i, j, l | 0 <= i < j < |gs| && Common(c, gs[i], gs[j], l)
      ensures !Higher(c, l, k)
      ensures !Higher(c, k, l) ==>
        && NoDeeper(c, a, b, k, gs[i], gs[j], l)
        && (NoDeeper(c, gs[i], gs[j], l, a, b, k) ==>
              p.left < i || (p.left == i && (p.right < j || (p.right == j && NoLater(k, l)))))
    {
      var x := CommonPairs(c, gs, i, j, l);
      EarliestIs(c, gs, p, x);
      NoDeeperScores(c, a, b, k, gs[i], gs[j], l);
      NoDeeperScores(c, gs[i], gs[j], l, a, b, k);
    }
  }

  lemma EarliestIs(c: Input, gs: Groups, p: Pair, q: Pair)
    requires Earliest(c, gs, Some(p))
    ensures IsPair(c, gs, p) && (IsPair(c, gs, q) ==> q == p || Earlier(p, q))
  {
    hide IsPair;
  }
}
