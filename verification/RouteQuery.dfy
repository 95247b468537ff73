/** Tiered reverse path search over a source graph: three shortest-path runs, one
    for each evidence rank, each ordered by (distance, steps). */
module RouteQuery {
  import opened Basics
  import opened CodeGraph
  import Identifiers

  /** `EvidenceRank`: 0 is the strongest tier. */
  function EvidenceRank(c: Confidence): nat {
    match c
    case Unstated | Exact => 0
    case Strong | Scoped => 1
    case Weak | NameOnly | Heuristic => 2
  }

  function Rank(e: Relation): nat {
    EvidenceRank(e.confidence)
  }

  /** `dependencyStep`: ownership edges cost no distance. */
  function DependencyStep(kind: Kind): nat {
    match kind
    case Contains | PackageMember | Reexports => 0
    case Imports | Other(_) => 1
  }

  // ---------- What a route is, without reference to the search ----------

  /** The admissible relations and the nodes a route may end at. */
  datatype Problem = Problem(edges: set<Relation>, seeds: set<string>)

  /** `p` leads from `start` along admissible relations to a seed. */
  ghost predicate Walk(q: Problem, p: seq<Relation>, start: string) {
    if p == [] then start in q.seeds
    else p[0] in q.edges && p[0].from == start && Walk(q, p[1..], p[0].to)
  }

  function Distance(p: seq<Relation>): nat {
    if p == [] then 0 else DependencyStep(p[0].kind) + Distance(p[1..])
  }

  /** The rank of the weakest relation on `p`. */
  function Worst(p: seq<Relation>): nat {
    if p == [] then 0 else Max(Rank(p[0]), Worst(p[1..]))
  }

  /** The nodes visited by `p`, starting with `start`. */
  function Stops(p: seq<Relation>, start: string): seq<string> {
    if p == [] then [start] else [start] + Stops(p[1..], p[0].to)
  }

  /** The first three keys of `ComparePaths`: evidence, then distance, then length. */
  predicate NoWorse(a: seq<Relation>, b: seq<Relation>) {
    || Worst(a) < Worst(b)
    || (Worst(a) == Worst(b) && Distance(a) < Distance(b))
    || (Worst(a) == Worst(b) && Distance(a) == Distance(b) && |a| <= |b|)
  }

  // ---------- The search ----------

  datatype Path = Path(nodes: seq<string>, relations: seq<Relation>, confidence: Confidence, distance: nat)

  datatype RouteStep = RouteStep(node: string, distance: nat, steps: nat)

  /** `routeQueue.Less`. */
  predicate StepLess(a: RouteStep, b: RouteStep) {
    if a.distance != b.distance then a.distance < b.distance
    else if a.steps != b.steps then a.steps < b.steps
    else Identifiers.Less(a.node, b.node)
  }

  /** The cost order of steps, without the tie-break on nodes. */
  predicate Cheaper(a: RouteStep, b: RouteStep) {
    a.distance < b.distance || (a.distance == b.distance && a.steps <= b.steps)
  }

  /** The step reached by following `e` backwards from `s`. */
  function Extend(s: RouteStep, e: Relation): RouteStep {
    RouteStep(e.from, s.distance + DependencyStep(e.kind), s.steps + 1)
  }

  /** The zero relation that marks the end of a route. */
  const NO_RELATION := Relation("", "", "", Other(""), "", 0, "", "", Unstated, [])

  lemma LeastExists(queue: set<RouteStep>)
    requires queue != {}
    ensures exists c :: c in queue && forall s :: s in queue ==> !StepLess(s, c)
    decreases |queue|
  {
    var x :| x in queue;
    var rest := queue - {x};
    Identifiers.LessTotal(x.node, x.node);
    if rest == {} {
      assert forall s :: s in queue ==> s == x || s in rest;
    } else {
      LeastExists(rest);
      var c :| c in rest && forall s :: s in rest ==> !StepLess(s, c);
      if StepLess(x, c) {
        forall s | s in queue ensures !StepLess(s, x) {
          if s != x {
            assert !StepLess(s, c);
            Identifiers.LessTotal(s.node, c.node);
            Identifiers.LessTotal(x.node, c.node);
            if StepLess(s, x) && s.distance == x.distance == c.distance && s.steps == x.steps == c.steps {
              Identifiers.LessTransitive(s.node, x.node, c.node);
            }
          }
        }
      } else {
        assert forall s :: s in queue ==> !StepLess(s, c);
      }
    }
  }

  /** The state of one run: best known steps, the relation each was reached by,
      the pending steps, and the nodes whose step is final. */
  ghost predicate Reached(q: Problem, rank: nat, dist: map<string, RouteStep>, next: map<string, Relation>,
                          settled: set<string>)
  {
    && dist.Keys == next.Keys
    && settled <= dist.Keys
    && (forall s :: s in q.seeds ==> s in dist && dist[s] == RouteStep(s, 0, 0) && next[s] == NO_RELATION)
    && (forall x :: x in dist ==> dist[x].node == x)
    && (forall x :: x in dist && x !in q.seeds ==> Follows(q, rank, dist, next, settled, x))
  }

  /** A node was reached by a usable relation into a settled one, whose step it extends. */
  ghost predicate Follows(q: Problem, rank: nat, dist: map<string, RouteStep>, next: map<string, Relation>,
                          settled: set<string>, x: string)
    requires settled <= dist.Keys == next.Keys && x in dist
  {
    var e := next[x];
    && e in q.edges && Rank(e) <= rank && e.from == x && e.to in settled
    && dist[x] == Extend(dist[e.to], e)
  }

  /** Every usable relation into a settled node has been relaxed. */
  ghost predicate Relaxed(q: Problem, rank: nat, dist: map<string, RouteStep>, done: set<string>) {
    forall e {:trigger e in q.edges} :: e in q.edges && Rank(e) <= rank && e.to in done && e.to in dist ==>
      e.from in dist && Cheaper(dist[e.from], Extend(dist[e.to], e))
  }

  /** The queue holds the current step of every unsettled node; other entries are
      stale, and nothing pending is cheaper than what is settled. */
  ghost predicate Pending(queue: set<RouteStep>, dist: map<string, RouteStep>, settled: set<string>) {
    && (forall x :: x in dist && x !in settled ==> dist[x] in queue)
    && (forall s :: s in queue ==>
          && s.node in dist
          && Cheaper(dist[s.node], s)
          && (s == dist[s.node] ==> s.node !in settled))
    && (forall s, u :: s in queue && u in settled && u in dist ==> Cheaper(dist[u], s))
  }

  /** A usable relation into the node that was just settled, whose source it improves. */
  ghost predicate Improves(q: Problem, rank: nat, dist: map<string, RouteStep>, settled: set<string>,
                           current: RouteStep, e: Relation)
  {
    && current.node in settled && current.node in dist && dist[current.node] == current
    && (forall u :: u in settled && u in dist ==> Cheaper(dist[u], current))
    && e in q.edges && Rank(e) <= rank && e.to == current.node
    && (e.from in dist ==> !Cheaper(dist[e.from], Extend(current, e)))
  }

  lemma ImprovedReached(q: Problem, rank: nat, dist: map<string, RouteStep>, next: map<string, Relation>,
                        settled: set<string>, current: RouteStep, e: Relation)
    requires Reached(q, rank, dist, next, settled)
    requires Improves(q, rank, dist, settled, current, e)
    ensures e.from !in settled
    ensures Reached(q, rank, dist[e.from := Extend(current, e)], next[e.from := e], settled)
  {
    ImprovedIsOpen(q, rank, dist, next, settled, current, e);
    var d, n := dist[e.from := Extend(current, e)], next[e.from := e];
    hide Improves, Cheaper, Follows;
    forall x | x in d && x !in q.seeds ensures Follows(q, rank, d, n, settled, x) {
      FollowsImproved(q, rank, dist, next, settled, current, e, x);
    }
  }

  lemma ImprovedIsOpen(q: Problem, rank: nat, dist: map<string, RouteStep>, next: map<string, Relation>,
                       settled: set<string>, current: RouteStep, e: Relation)
    requires Reached(q, rank, dist, next, settled) && Improves(q, rank, dist, settled, current, e)
    ensures e.from !in settled && e.from !in q.seeds && e.from != e.to
    ensures e in q.edges && Rank(e) <= rank && e.to in settled && dist[e.to] == current
  {
    hide Follows;
  }

  lemma FollowsImproved(q: Problem, rank: nat, dist: map<string, RouteStep>, next: map<string, Relation>,
                        settled: set<string>, current: RouteStep, e: Relation, x: string)
    requires settled <= dist.Keys == next.Keys && e.from !in settled
    requires e in q.edges && Rank(e) <= rank && e.to in settled && dist[e.to] == current
    requires x == e.from || (x in dist && Follows(q, rank, dist, next, settled, x))
    ensures Follows(q, rank, dist[e.from := Extend(current, e)], next[e.from := e], settled, x)
  {
    hide Rank, Extend;
  }

  lemma ImprovedPending(queue: set<RouteStep>, dist: map<string, RouteStep>, settled: set<string>,
                        current: RouteStep, step: RouteStep)
    requires Pending(queue, dist, settled)
    requires step.node !in settled
    requires step.node in dist ==> !Cheaper(dist[step.node], step)
    requires forall u :: u in settled && u in dist ==> Cheaper(dist[u], current)
    requires Cheaper(current, step)
    ensures step !in queue
    ensures Pending(queue + {step}, dist[step.node := step], settled)
  {
  }

  lemma ImprovedRelaxed(q: Problem, rank: nat, dist: map<string, RouteStep>, done: set<string>, step: RouteStep)
    requires Relaxed(q, rank, dist, done)
    requires step.node !in done
    requires step.node in dist ==> !Cheaper(dist[step.node], step)
    ensures Relaxed(q, rank, dist[step.node := step], done)
  {
  }

  /** The state while the relations into `current`, just settled, are relaxed. */
  ghost predicate Relaxing(q: Problem, rank: nat, dist: map<string, RouteStep>, next: map<string, Relation>,
                           settled: set<string>, queue: set<RouteStep>, current: RouteStep)
  {
    && Reached(q, rank, dist, next, settled)
    && Pending(queue, dist, settled)
    && Relaxed(q, rank, dist, settled - {current.node})
    && current.node in settled && dist[current.node] == current
    && (forall u :: u in settled && u in dist ==> Cheaper(dist[u], current))
    && (forall s :: s in queue ==> Cheaper(current, s))
  }

  lemma RelaxOne(q: Problem, rank: nat, dist: map<string, RouteStep>, next: map<string, Relation>,
                 settled: set<string>, queue: set<RouteStep>, current: RouteStep, e: Relation)
    requires Relaxing(q, rank, dist, next, settled, queue, current)
    requires e in q.edges && Rank(e) <= rank && e.to == current.node
    requires e.from in dist ==> !Cheaper(dist[e.from], Extend(current, e))
    ensures var step := Extend(current, e);
            step !in queue &&
            Relaxing(q, rank, dist[e.from := step], next[e.from := e], settled, queue + {step}, current)
  {
    var step := Extend(current, e);
    ImprovedReached(q, rank, dist, next, settled, current, e);
    ImprovedPending(queue, dist, settled, current, step);
    ImprovedRelaxed(q, rank, dist, settled - {current.node}, step);
  }

  predicate Admissible(e: Relation, allowed: set<Kind>, seedFiles: set<string>) {
    e.kind in allowed && !(e.kind == Contains && e.from in seedFiles)
  }

  /** The state between two steps of a run. */
  ghost predicate Searching(q: Problem, rank: nat, dist: map<string, RouteStep>, next: map<string, Relation>,
                            settled: set<string>, queue: set<RouteStep>)
  {
    && Reached(q, rank, dist, next, settled)
    && Relaxed(q, rank, dist, settled)
    && Pending(queue, dist, settled)
  }

  /** Settling the least pending step when it is not stale. */
  lemma Settle(q: Problem, rank: nat, dist: map<string, RouteStep>, next: map<string, Relation>,
               settled: set<string>, queue: set<RouteStep>, current: RouteStep)
    requires Searching(q, rank, dist, next, settled, queue)
    requires current in queue && forall s :: s in queue ==> !StepLess(s, current)
    ensures current.node in dist
    ensures dist[current.node] != current ==> Searching(q, rank, dist, next, settled, queue - {current})
    ensures dist[current.node] == current ==>
              && current.node !in settled
              && Relaxing(q, rank, dist, next, settled + {current.node}, queue - {current}, current)
  {
    forall s | s in queue ensures Cheaper(current, s) {
      assert !StepLess(s, current);
    }
    if dist[current.node] == current {
      assert (settled + {current.node}) - {current.node} == settled;
    }
  }

  /** One tier: a shortest-path run over relations of at most the given rank. The
      heap and its lazy deletion are the source's; any order of the incoming
      relations is allowed, since it decides only ties the result leaves open. */
  method Explore(g: Graph, seeds: seq<string>, allowed: set<Kind>, seedFiles: set<string>, rank: nat, ghost q: Problem)
    returns (dist: map<string, RouteStep>, next: map<string, Relation>)
    requires g.Valid() && Poses(g, seeds, allowed, seedFiles, q)
    ensures Reached(q, rank, dist, next, dist.Keys) && Relaxed(q, rank, dist, dist.Keys)
  {
    hide *;
    var queue: set<RouteStep>;
    dist, next, queue := Start(g.nodes, seeds);
    ghost var universe := g.nodes.Keys;
    ghost var settled: set<string> := {};
    Started(g, seeds, allowed, seedFiles, rank, q, dist, next, queue);
    while queue != {}
      invariant dist.Keys <= universe
      invariant Searching(q, rank, dist, next, settled, queue)
      decreases |universe - settled|, |queue|
    {
      LeastExists(queue);
      var current :| current in queue && forall s :: s in queue ==> !StepLess(s, current);
      Settle(q, rank, dist, next, settled, queue, current);
      queue := queue - {current};
      if dist[current.node] == current {
        assert universe - settled == (universe - (settled + {current.node})) + {current.node};
        settled := settled + {current.node};
        var edges := IncomingRelations(g, current.node, seeds, allowed, seedFiles, q);
        dist, next, queue :=
          RelaxAll(edges, allowed, seedFiles, rank, dist, next, queue, current, settled, universe, q);
      }
    }
    Finished(q, rank, dist, next, settled);
  }

  lemma Started(g: Graph, seeds: seq<string>, allowed: set<Kind>, seedFiles: set<string>, rank: nat, q: Problem,
                dist: map<string, RouteStep>, next: map<string, Relation>, queue: set<RouteStep>)
    requires Poses(g, seeds, allowed, seedFiles, q)
    requires dist.Keys == next.Keys
    requires forall x :: x in dist <==> x in seeds && x in g.nodes
    requires forall x :: x in dist ==> dist[x] == RouteStep(x, 0, 0) && next[x] == NO_RELATION
    requires forall s :: s in queue <==> s.node in dist && s == RouteStep(s.node, 0, 0)
    ensures Searching(q, rank, dist, next, {}, queue) && dist.Keys <= g.nodes.Keys
  {
  }

  lemma Finished(q: Problem, rank: nat, dist: map<string, RouteStep>, next: map<string, Relation>, settled: set<string>)
    requires Searching(q, rank, dist, next, settled, {})
    ensures Reached(q, rank, dist, next, dist.Keys) && Relaxed(q, rank, dist, dist.Keys)
  {
    assert settled == dist.Keys;
  }

  method Start(nodes: map<string, Node>, seeds: seq<string>)
    returns (dist: map<string, RouteStep>, next: map<string, Relation>, queue: set<RouteStep>)
    ensures dist.Keys == next.Keys
    ensures forall x :: x in dist <==> x in seeds && x in nodes
    ensures forall x :: x in dist ==> dist[x] == RouteStep(x, 0, 0) && next[x] == NO_RELATION
    ensures forall s :: s in queue <==> s.node in dist && s == RouteStep(s.node, 0, 0)
  {
    dist, next, queue := map[], map[], {};
    var roots := Identifiers.Unique(seeds);
    for i := 0 to |roots|
      invariant dist.Keys == next.Keys
      invariant forall x :: x in dist <==> x in roots[..i] && x in nodes
      invariant forall x :: x in dist ==> dist[x] == RouteStep(x, 0, 0) && next[x] == NO_RELATION
      invariant forall s :: s in queue <==> s.node in dist && s == RouteStep(s.node, 0, 0)
    {
      if roots[i] in nodes {
        var step := RouteStep(roots[i], 0, 0);
        dist, next := dist[roots[i] := step], next[roots[i] := NO_RELATION];
        queue := queue + {step};
      }
    }
    assert roots[..|roots|] == roots;
  }

  /** The problem that a query poses over the graph's facts. */
  ghost predicate Poses(g: Graph, seeds: seq<string>, allowed: set<Kind>, seedFiles: set<string>, q: Problem)
    reads g
  {
    && q.seeds == (set s | s in seeds && s in g.nodes)
    && q.edges == (set e | e in g.Relations() && Admissible(e, allowed, seedFiles))
  }

  /** The relations into `node`, in some order: the source sorts them, and nothing
      promised depends on how. */
  method IncomingRelations(g: Graph, node: string, seeds: seq<string>, allowed: set<Kind>, seedFiles: set<string>,
                           ghost q: Problem)
    returns (edges: seq<Relation>)
    requires g.Valid() && Poses(g, seeds, allowed, seedFiles, q)
    ensures multiset(edges) == multiset(g.Incoming(node))
    ensures forall e :: e in edges ==> e.to == node && e.from in g.nodes
    ensures forall e :: e in edges && e in q.edges ==> Admissible(e, allowed, seedFiles)
    ensures forall e :: e in edges && Admissible(e, allowed, seedFiles) ==> e in q.edges
    ensures forall e :: e in q.edges && e.to == node ==> e in edges
  {
    edges :| multiset(edges) == multiset(g.Incoming(node));
    forall e | e in edges ensures e.to == node && e.from in g.nodes && e in g.Relations() {
      assert e in multiset(edges);
      g.IncomingEnds(node, e);
    }
    forall e | e in q.edges && e.to == node ensures e in edges {
      g.IndexesAgree(e);
      assert e in multiset(edges);
    }
  }

  method RelaxAll(edges: seq<Relation>, allowed: set<Kind>, seedFiles: set<string>, rank: nat,
                  dist0: map<string, RouteStep>, next0: map<string, Relation>, queue0: set<RouteStep>,
                  current: RouteStep, ghost settled: set<string>, ghost universe: set<string>, ghost q: Problem)
    returns (dist: map<string, RouteStep>, next: map<string, Relation>, queue: set<RouteStep>)
    requires forall e :: e in edges ==> e.to == current.node && e.from in universe
    requires forall e :: e in edges && e in q.edges ==> Admissible(e, allowed, seedFiles)
    requires forall e :: e in edges && Admissible(e, allowed, seedFiles) ==> e in q.edges
    requires forall e :: e in q.edges && e.to == current.node ==> e in edges
    requires dist0.Keys <= universe
    requires Relaxing(q, rank, dist0, next0, settled, queue0, current)
    ensures dist.Keys <= universe
    ensures Searching(q, rank, dist, next, settled, queue)
  {
    hide *;
    dist, next, queue := dist0, next0, queue0;
    CoversNone(q, rank, dist, current);
    for i := 0 to |edges|
      invariant dist.Keys <= universe
      invariant Relaxing(q, rank, dist, next, settled, queue, current)
      invariant Covers(q, rank, edges[..i], dist, current)
    {
      var edge := edges[i];
      assert edges[..i + 1] == edges[..i] + [edge];
      var step := Extend(current, edge);
      if !Admissible(edge, allowed, seedFiles) || Rank(edge) > rank {
        CoversSkipped(q, rank, edges[..i], dist, current, edge);
      } else if edge.from in dist && Cheaper(dist[edge.from], step) {
        CoversSkipped(q, rank, edges[..i], dist, current, edge);
      } else {
        RelaxOne(q, rank, dist, next, settled, queue, current, edge);
        CoversGrows(q, rank, edges[..i], dist, current, edge);
        dist, next := dist[edge.from := step], next[edge.from := edge];
        queue := queue + {step};
      }
    }
    assert edges[..|edges|] == edges;
    AllRelaxed(q, rank, edges, dist, next, settled, queue, current);
  }

  /** The usable relations among `edges`, all into `current`, are relaxed. */
  ghost predicate Covers(q: Problem, rank: nat, edges: seq<Relation>, dist: map<string, RouteStep>,
                         current: RouteStep)
  {
    forall e :: e in edges && e in q.edges && Rank(e) <= rank ==>
      e.from in dist && Cheaper(dist[e.from], Extend(current, e))
  }

  lemma CoversNone(q: Problem, rank: nat, dist: map<string, RouteStep>, current: RouteStep)
    ensures Covers(q, rank, [], dist, current)
  {
  }

  lemma CoversSkipped(q: Problem, rank: nat, edges: seq<Relation>, dist: map<string, RouteStep>, current: RouteStep,
                      e: Relation)
    requires Covers(q, rank, edges, dist, current)
    requires e in q.edges && Rank(e) <= rank ==> e.from in dist && Cheaper(dist[e.from], Extend(current, e))
    ensures Covers(q, rank, edges + [e], dist, current)
  {
  }

  lemma CoversGrows(q: Problem, rank: nat, edges: seq<Relation>, dist: map<string, RouteStep>, current: RouteStep,
                    e: Relation)
    requires Covers(q, rank, edges, dist, current)
    requires e.from in dist ==> !Cheaper(dist[e.from], Extend(current, e))
    ensures Covers(q, rank, edges + [e], dist[e.from := Extend(current, e)], current)
  {
  }

  lemma AllRelaxed(q: Problem, rank: nat, edges: seq<Relation>, dist: map<string, RouteStep>,
                   next: map<string, Relation>, settled: set<string>, queue: set<RouteStep>, current: RouteStep)
    requires Relaxing(q, rank, dist, next, settled, queue, current)
    requires Covers(q, rank, edges, dist, current)
    requires forall e :: e in q.edges && e.to == current.node ==> e in edges
    ensures Searching(q, rank, dist, next, settled, queue)
  {
  }

  // ---------- Routes ----------

  /** The walk that `next` records for a reached node. */
  ghost function Chain(q: Problem, rank: nat, dist: map<string, RouteStep>, next: map<string, Relation>, x: string)
    : (p: seq<Relation>)
    requires Reached(q, rank, dist, next, dist.Keys) && x in dist
    ensures Walk(q, p, x) && Worst(p) <= rank
    ensures Distance(p) == dist[x].distance && |p| == dist[x].steps
    decreases dist[x].steps
  {
    if x in q.seeds then [] else
      var e := next[x];
      [e] + Chain(q, rank, dist, next, e.to)
  }

  /** No walk within the tier beats the recorded step. */
  lemma {:induction false} RecordedIsCheapest(q: Problem, rank: nat, dist: map<string, RouteStep>,
                                              next: map<string, Relation>, p: seq<Relation>, x: string)
    requires Reached(q, rank, dist, next, dist.Keys) && Relaxed(q, rank, dist, dist.Keys)
    requires Walk(q, p, x) && Worst(p) <= rank
    ensures x in dist && Cheaper(dist[x], RouteStep(x, Distance(p), |p|))
    decreases |p|
  {
    if p != [] {
      var e := p[0];
      RecordedIsCheapest(q, rank, dist, next, p[1..], e.to);
      assert e in q.edges && e.to in dist;
    }
  }

  /** What a route shows of a walk: an empty target ends it. */
  function Shown(p: seq<Relation>): seq<Relation> {
    if p == [] || p[0].to == "" then [] else [p[0]] + Shown(p[1..])
  }

  function Tier(rank: nat): Confidence {
    if rank == 0 then Exact else if rank == 1 then Strong else Weak
  }

  function Rendered(p: seq<Relation>, target: string): Path {
    Path(Stops(Shown(p), target), Shown(p), Tier(Worst(Shown(p))), Distance(p))
  }

  /** A walk is shown whole exactly when no relation on it targets the empty id. */
  lemma {:induction false} ShownWhole(p: seq<Relation>)
    ensures |Shown(p)| <= |p|
    ensures Shown(p) == p <==> forall e :: e in p ==> e.to != ""
  {
    if p != [] {
      ShownWhole(p[1..]);
      assert p == [p[0]] + p[1..];
      if p[0].to != "" {
        assert Shown(p)[1..] == Shown(p[1..]);
      }
    }
  }

  lemma {:induction false} WorstAppend(p: seq<Relation>, e: Relation)
    ensures Worst(p + [e]) == Max(Worst(p), Rank(e))
  {
    if p != [] {
      assert (p + [e])[1..] == p[1..] + [e];
      WorstAppend(p[1..], e);
    } else {
      assert (p + [e])[1..] == [];
    }
  }

  /** Every walk fits the last tier. */
  lemma {:induction false} WorstBound(p: seq<Relation>)
    ensures Worst(p) <= 2
  {
    if p != [] {
      WorstBound(p[1..]);
    }
  }

  lemma ChainUnfolds(q: Problem, rank: nat, dist: map<string, RouteStep>, next: map<string, Relation>, x: string)
    requires Reached(q, rank, dist, next, dist.Keys) && x in dist
    ensures x in next
    ensures x in q.seeds ==> next[x].to == "" && Chain(q, rank, dist, next, x) == []
    ensures x !in q.seeds ==>
              && next[x].to in dist && dist[next[x].to].steps < dist[x].steps
              && Chain(q, rank, dist, next, x) == [next[x]] + Chain(q, rank, dist, next, next[x].to)
  {
  }

  /** `route` and the `rest` still to be followed from `node` make up the whole route. */
  ghost predicate Following(route: Path, rest: seq<Relation>, node: string, whole: seq<Relation>, target: string) {
    && route.relations + Shown(rest) == Shown(whole)
    && route.nodes + Stops(Shown(rest), node) == Stops(Shown(whole), target)
    && route.confidence == Tier(Worst(route.relations)) && Worst(route.relations) <= 2
    && route.distance == Distance(whole)
  }

  lemma FollowStarts(whole: seq<Relation>, target: string, distance: nat)
    requires distance == Distance(whole)
    ensures Following(Path([], [], Exact, distance), whole, target, whole, target)
  {
  }

  /** The confidence after one more relation. */
  function Weaken(c: Confidence, e: Relation): Confidence {
    if EvidenceRank(e.confidence) > EvidenceRank(c) then
      if EvidenceRank(e.confidence) == 2 then Weak else Strong
    else c
  }

  lemma ShownNext(edge: Relation, rest: seq<Relation>, node: string)
    requires edge.to != ""
    ensures var shown := Shown([edge] + rest);
      shown == [edge] + Shown(rest) && Stops(shown, node) == [node] + Stops(Shown(rest), edge.to)
  {
    assert ([edge] + rest)[1..] == rest;
    assert ([edge] + Shown(rest))[1..] == Shown(rest);
  }

  lemma WeakenedTier(route: Path, edge: Relation)
    requires route.confidence == Tier(Worst(route.relations)) && Worst(route.relations) <= 2
    ensures Weaken(route.confidence, edge) == Tier(Worst(route.relations + [edge]))
    ensures Worst(route.relations + [edge]) <= 2
  {
    WorstAppend(route.relations, edge);
  }

  lemma FollowOne(route: Path, edge: Relation, rest: seq<Relation>, node: string, whole: seq<Relation>, target: string)
    requires Following(route, [edge] + rest, node, whole, target) && edge.to != ""
    ensures Following(Path(route.nodes + [node], route.relations + [edge], Weaken(route.confidence, edge),
                           route.distance), rest, edge.to, whole, target)
  {
    hide Shown, Stops, Worst, Tier, Weaken, Distance, Rank;
    var shown := Shown([edge] + rest);
    ShownNext(edge, rest, node);
    WeakenedTier(route, edge);
    assert route.relations + shown == (route.relations + [edge]) + Shown(rest);
    assert route.nodes + Stops(shown, node) == (route.nodes + [node]) + Stops(Shown(rest), edge.to);
  }

  lemma FollowEnds(route: Path, rest: seq<Relation>, node: string, whole: seq<Relation>, target: string)
    requires Following(route, rest, node, whole, target) && (rest == [] || rest[0].to == "")
    ensures route.(nodes := route.nodes + [node]) == Rendered(whole, target)
  {
    assert Shown(rest) == [];
    assert route.relations + [] == route.relations;
  }

  /** The route loop: follow `next` until the zero relation. */
  method Rebuild(target: string, dist: map<string, RouteStep>, next: map<string, Relation>, rank: nat, ghost q: Problem)
    returns (route: Path)
    requires Reached(q, rank, dist, next, dist.Keys) && target in dist
    ensures route == Rendered(Chain(q, rank, dist, next, target), target)
  {
    hide *;
    route := Path([], [], Exact, dist[target].distance);
    var node := target;
    ghost var whole := Chain(q, rank, dist, next, target);
    ghost var rest := whole;
    FollowStarts(whole, target, dist[target].distance);
    while true
      invariant node in dist && rest == Chain(q, rank, dist, next, node)
      invariant Following(route, rest, node, whole, target)
      decreases dist[node].steps
    {
      ChainUnfolds(q, rank, dist, next, node);
      var edge := next[node];
      if edge.to == "" {
        FollowEnds(route, rest, node, whole, target);
        route := route.(nodes := route.nodes + [node]);
        return;
      }
      rest := Chain(q, rank, dist, next, edge.to);
      FollowOne(route, edge, rest, node, whole, target);
      route := Path(route.nodes + [node], route.relations + [edge], Weaken(route.confidence, edge), route.distance);
      node := edge.to;
    }
  }

  // ---------- The query ----------

  /** `p` reaches a seed from `target` and no admissible walk is better. */
  ghost predicate Best(q: Problem, p: seq<Relation>, target: string) {
    Walk(q, p, target) && forall o :: Walk(q, o, target) ==> NoWorse(p, o)
  }

  /** Some walk from `target` stays below the given rank. */
  ghost predicate Reachable(q: Problem, rank: nat, target: string) {
    exists p :: Walk(q, p, target) && Worst(p) < rank
  }

  /** The walk a tier records is best unless an earlier tier reached the target. */
  lemma TierFindsBest(q: Problem, rank: nat, dist: map<string, RouteStep>, next: map<string, Relation>, target: string)
    requires Reached(q, rank, dist, next, dist.Keys) && Relaxed(q, rank, dist, dist.Keys)
    ensures target in dist <==> Reachable(q, rank + 1, target)
    ensures target in dist && !Reachable(q, rank, target) ==>
              Best(q, Chain(q, rank, dist, next, target), target)
  {
    if target in dist {
      var p := Chain(q, rank, dist, next, target);
      assert Walk(q, p, target) && Worst(p) < rank + 1;
      if !Reachable(q, rank, target) {
        forall o | Walk(q, o, target) ensures NoWorse(p, o) {
          assert Worst(o) >= rank;
          if Worst(o) <= rank {
            RecordedIsCheapest(q, rank, dist, next, o, target);
          }
        }
      }
    }
    if Reachable(q, rank + 1, target) {
      var o :| Walk(q, o, target) && Worst(o) < rank + 1;
      RecordedIsCheapest(q, rank, dist, next, o, target);
    }
  }

  datatype Targets = Every | Only(ids: seq<string>)

  predicate Wanted(candidates: Targets, id: string) {
    candidates.Every? || id in candidates.ids
  }

  /** The routes after the tiers below `rank`. */
  ghost predicate Answers(q: Problem, candidates: Targets, rank: nat, paths: map<string, Path>) {
    && (forall t :: t in paths <==> Wanted(candidates, t) && Reachable(q, rank, t))
    && (forall t :: t in paths ==> exists p :: Best(q, p, t) && paths[t] == Rendered(p, t))
  }

  /** Seeds that are declarations protect the files they stand in. */
  function ProtectedFiles(nodes: map<string, Node>, seeds: seq<string>): set<string> {
    set s | s in seeds && s in nodes && nodes[s].kind in {SymbolNode, BindingNode} :: nodes[s].file
  }

  ghost function ProblemOf(g: Graph, seeds: seq<string>, kinds: seq<Kind>): Problem
    reads g
  {
    Problem(set e | e in g.Relations() && Admissible(e, (set k | k in kinds), ProtectedFiles(g.nodes, seeds)),
            set s | s in seeds && s in g.nodes)
  }

  /** For every wanted target that has an admissible walk to a seed, and for no
      other, the answer renders a walk that is best by evidence, distance and length. */
  method Query(g: Graph, seeds: seq<string>, candidates: Targets, kinds: seq<Kind>) returns (paths: map<string, Path>)
    requires g.Valid()
    ensures Answers(ProblemOf(g, seeds, kinds), candidates, 3, paths)
    ensures Answered(g, seeds, candidates, kinds, paths)
  {
    ghost var q := ProblemOf(g, seeds, kinds);
    var allowed := set k | k in kinds;
    var seedFiles := ProtectedFiles(g.nodes, seeds);
    paths := map[];
    for rank := 0 to 3
      invariant Answers(q, candidates, rank, paths)
    {
      var dist, next := Explore(g, seeds, allowed, seedFiles, rank, q);
      paths := AddTier(candidates, rank, dist, next, paths, q);
    }
    AnswersMean(g, seeds, candidates, kinds, paths);
  }

  /** Fills in the targets this tier is the first to reach. */
  method AddTier(candidates: Targets, rank: nat, dist: map<string, RouteStep>, next: map<string, Relation>,
                 found: map<string, Path>, ghost q: Problem)
    returns (paths: map<string, Path>)
    requires Reached(q, rank, dist, next, dist.Keys) && Relaxed(q, rank, dist, dist.Keys)
    requires Answers(q, candidates, rank, found)
    ensures Answers(q, candidates, rank + 1, paths)
  {
    hide *;
    paths := found;
    var targets;
    if candidates.Every? {
      targets := Identifiers.SortKeys(dist.Keys);
    } else {
      targets := candidates.ids;
    }
    for i := 0 to |targets|
      invariant found.Keys <= paths.Keys
      invariant forall t :: t in found ==> paths[t] == found[t]
      invariant forall t :: t in paths && t !in found ==>
                  t in dist && t in targets && paths[t] == Rendered(Chain(q, rank, dist, next, t), t)
      invariant forall k :: 0 <= k < i && targets[k] in dist ==> targets[k] in paths
    {
      var target := targets[i];
      if target !in paths && target in dist {
        var route := Rebuild(target, dist, next, rank, q);
        paths := paths[target := route];
      }
    }
    TierAnswers(q, candidates, rank, dist, next, targets, found, paths);
  }

  lemma TierAnswers(q: Problem, candidates: Targets, rank: nat, dist: map<string, RouteStep>,
                    next: map<string, Relation>, targets: seq<string>, found: map<string, Path>,
                    paths: map<string, Path>)
    requires Reached(q, rank, dist, next, dist.Keys) && Relaxed(q, rank, dist, dist.Keys)
    requires Answers(q, candidates, rank, found)
    requires candidates.Only? ==> targets == candidates.ids
    requires candidates.Every? ==> forall t :: t in dist ==> t in targets
    requires found.Keys <= paths.Keys && forall t :: t in found ==> paths[t] == found[t]
    requires forall t :: t in paths && t !in found ==>
               t in dist && t in targets && paths[t] == Rendered(Chain(q, rank, dist, next, t), t)
    requires forall k :: 0 <= k < |targets| && targets[k] in dist ==> targets[k] in paths
    ensures Answers(q, candidates, rank + 1, paths)
  {
    hide Reached, Relaxed, Walk, Worst, Rendered, Chain, Best;
    forall t
      ensures t in paths <==> Wanted(candidates, t) && Reachable(q, rank + 1, t)
      ensures t in paths ==> exists p :: Best(q, p, t) && paths[t] == Rendered(p, t)
    {
      TierFindsBest(q, rank, dist, next, t);
      if t in found {
        assert Reachable(q, rank, t);
        var p :| Walk(q, p, t) && Worst(p) < rank;
        assert Walk(q, p, t) && Worst(p) < rank + 1;
      } else if t in paths {
        var p := Chain(q, rank, dist, next, t);
        assert Best(q, p, t);
      }
    }
  }

  // ---------- What the answer means ----------

  ghost predicate Connected(q: Problem, t: string) {
    exists p :: Walk(q, p, t)
  }

  /** A target gets a route exactly when some admissible walk exists. */
  lemma AnswersEveryReachable(q: Problem, candidates: Targets, paths: map<string, Path>, t: string)
    requires Answers(q, candidates, 3, paths)
    ensures t in paths <==> Wanted(candidates, t) && Connected(q, t)
  {
    if p :| Walk(q, p, t) {
      WorstBound(p);
      assert Reachable(q, 3, t);
    }
  }

  /** The first three keys of `ComparePaths`. */
  function ComparePaths(a: Path, b: Path): int {
    if EvidenceRank(a.confidence) != EvidenceRank(b.confidence) then
      EvidenceRank(a.confidence) - EvidenceRank(b.confidence)
    else if a.distance != b.distance then a.distance - b.distance
    else |a.relations| - |b.relations|
  }

  /** When no relation targets the empty id, every returned route is itself an
      admissible walk with the distance and evidence it reports, and compares no
      later than the route of any other admissible walk. */
  lemma RoutesAreBest(q: Problem, candidates: Targets, paths: map<string, Path>, t: string, o: seq<Relation>)
    requires Answers(q, candidates, 3, paths) && t in paths
    requires forall e :: e in q.edges ==> e.to != ""
    ensures var r := paths[t];
            && Walk(q, r.relations, t) && r.nodes == Stops(r.relations, t)
            && r.distance == Distance(r.relations) && EvidenceRank(r.confidence) == Worst(r.relations)
            && (Walk(q, o, t) ==> ComparePaths(r, Rendered(o, t)) <= 0)
  {
    hide Best, Rendered, ComparePaths, Distance, Worst, Stops, EvidenceRank;
    var p :| Best(q, p, t) && paths[t] == Rendered(p, t);
    BestIsWalk(q, p, t, o);
    RenderedShows(q, p, t);
    if Walk(q, o, t) {
      RenderedShows(q, o, t);
      NoWorseCompares(p, o, t);
    }
  }

  lemma BestIsWalk(q: Problem, p: seq<Relation>, t: string, o: seq<Relation>)
    requires Best(q, p, t)
    ensures Walk(q, p, t) && (Walk(q, o, t) ==> NoWorse(p, o))
  {
    hide NoWorse;
  }

  /** Without empty ids a route shows its walk, with what the walk says of itself. */
  lemma RenderedShows(q: Problem, p: seq<Relation>, t: string)
    requires Walk(q, p, t) && forall e :: e in q.edges ==> e.to != ""
    ensures var r := Rendered(p, t);
      && r.relations == p && r.nodes == Stops(p, t) && r.distance == Distance(p)
      && EvidenceRank(r.confidence) == Worst(p)
  {
    WalkUsesEdges(q, p, t);
    ShownWhole(p);
    WorstBound(p);
    hide Walk, Distance, Worst, Stops;
  }

  lemma NoWorseCompares(p: seq<Relation>, o: seq<Relation>, t: string)
    requires NoWorse(p, o)
    requires EvidenceRank(Rendered(p, t).confidence) == Worst(p) && EvidenceRank(Rendered(o, t).confidence) == Worst(o)
    requires Rendered(p, t).relations == p && Rendered(o, t).relations == o
    requires Rendered(p, t).distance == Distance(p) && Rendered(o, t).distance == Distance(o)
    ensures ComparePaths(Rendered(p, t), Rendered(o, t)) <= 0
  {
    hide Rendered, Distance, Worst, EvidenceRank;
  }

  lemma {:induction false} WalkUsesEdges(q: Problem, p: seq<Relation>, start: string)
    requires Walk(q, p, start)
    ensures forall e :: e in p ==> e in q.edges
  {
    if p != [] {
      WalkUsesEdges(q, p[1..], p[0].to);
    }
  }

  // ---------- The answer in terms of the graph ----------

  /** The relation would widen a declaration asked about to its whole file. */
  ghost predicate Widens(g: Graph, seeds: seq<string>, e: Relation)
    reads g
  {
    e.kind == Contains
    && exists s :: s in seeds && s in g.nodes && g.nodes[s].file == e.from
                   && (g.nodes[s].kind == SymbolNode || g.nodes[s].kind == BindingNode)
  }

  /** A chain of relations of the requested kinds from `t` to a seed that is in the graph,
      none of which widens a seed. */
  ghost predicate Leads(g: Graph, seeds: seq<string>, kinds: seq<Kind>, p: seq<Relation>, t: string)
    reads g
  {
    && (forall i :: 0 <= i < |p| ==> p[i] in g.Relations() && p[i].kind in kinds && !Widens(g, seeds, p[i]))
    && (forall i :: 0 < i < |p| ==> p[i].from == p[i - 1].to)
    && (p != [] ==> p[0].from == t)
    && var last := if p == [] then t else p[|p| - 1].to; last in seeds && last in g.nodes
  }

  /** The relations that are not plain ownership. */
  function Dependencies(p: seq<Relation>): nat {
    if p == [] then 0
    else (if p[0].kind in {Contains, PackageMember, Reexports} then 0 else 1) + Dependencies(p[1..])
  }

  /** The tier of a chain is that of its weakest relation. */
  ghost function Evidence(p: seq<Relation>): Confidence {
    if exists e :: e in p && e.confidence in {Weak, NameOnly, Heuristic} then Weak
    else if exists e :: e in p && e.confidence in {Strong, Scoped} then Strong
    else Exact
  }

  /** Stronger evidence, else fewer dependencies, else fewer relations. */
  ghost predicate Preferable(o: seq<Relation>, p: seq<Relation>) {
    var a, b := Evidence(o), Evidence(p);
    || (a == Exact && b != Exact) || (a == Strong && b == Weak)
    || (a == b && (Dependencies(o) < Dependencies(p) || (Dependencies(o) == Dependencies(p) && |o| < |p|)))
  }

  /** The route shows the chain up to its first relation into the empty id. */
  ghost predicate Shows(r: Path, p: seq<Relation>, t: string) {
    && r.relations <= p && (forall e :: e in r.relations ==> e.to != "")
    && (r.relations == p || p[|r.relations|].to == "")
    && |r.nodes| == |r.relations| + 1 && r.nodes[0] == t
    && (forall i :: 0 <= i < |r.relations| ==> r.nodes[i + 1] == r.relations[i].to)
    && r.distance == Dependencies(p) && r.confidence == Evidence(r.relations)
  }

  /** Exactly the wanted ids with some chain to a seed have a route, and it shows a chain
      to which no other is preferable. */
  ghost predicate Answered(g: Graph, seeds: seq<string>, candidates: Targets, kinds: seq<Kind>,
                           paths: map<string, Path>)
    reads g
  {
    && (forall t :: t in paths <==>
          (candidates.Only? ==> t in candidates.ids) && exists p :: Leads(g, seeds, kinds, p, t))
    && (forall t :: t in paths ==>
          exists p :: Leads(g, seeds, kinds, p, t) && Shows(paths[t], p, t)
                      && forall o :: Leads(g, seeds, kinds, o, t) ==> !Preferable(o, p))
  }

  lemma AnswersMean(g: Graph, seeds: seq<string>, candidates: Targets, kinds: seq<Kind>, paths: map<string, Path>)
    requires Answers(ProblemOf(g, seeds, kinds), candidates, 3, paths)
    ensures Answered(g, seeds, candidates, kinds, paths)
  {
    var q := ProblemOf(g, seeds, kinds);
    hide Rendered, Walk, Leads, Preferable, NoWorse, ProblemOf, Shows;
    forall t ensures t in paths <==>
      (candidates.Only? ==> t in candidates.ids) && exists p :: Leads(g, seeds, kinds, p, t)
    {
      AnswersEveryReachable(q, candidates, paths, t);
      forall p ensures Walk(q, p, t) <==> Leads(g, seeds, kinds, p, t) {
        WalkLeads(g, seeds, kinds, p, t);
      }
    }
    forall t | t in paths
      ensures exists p :: Leads(g, seeds, kinds, p, t) && Shows(paths[t], p, t)
                          && forall o :: Leads(g, seeds, kinds, o, t) ==> !Preferable(o, p)
    {
      var p :| Best(q, p, t) && paths[t] == Rendered(p, t);
      WalkLeads(g, seeds, kinds, p, t);
      RenderedMeans(p, t);
      forall o | Leads(g, seeds, kinds, o, t) ensures !Preferable(o, p) {
        WalkLeads(g, seeds, kinds, o, t);
        PreferableIsBetter(o, p);
      }
    }
  }

  lemma {:induction false} WalkLeads(g: Graph, seeds: seq<string>, kinds: seq<Kind>, p: seq<Relation>, t: string)
    ensures Walk(ProblemOf(g, seeds, kinds), p, t) <==> Leads(g, seeds, kinds, p, t)
    decreases |p|
  {
    if p != [] {
      var rest := p[1..];
      WalkLeads(g, seeds, kinds, rest, p[0].to);
      EdgesFollow(g, seeds, kinds, p[0]);
      hide Widens, ProblemOf;
      assert forall i :: 0 <= i < |rest| ==> rest[i] == p[i + 1];
      if Leads(g, seeds, kinds, rest, p[0].to) && p[0] in ProblemOf(g, seeds, kinds).edges && p[0].from == t {
        forall i | 0 < i < |p| ensures p[i].from == p[i - 1].to {
          assert p[i] == rest[i - 1] && (i > 1 ==> p[i - 1] == rest[i - 2]);
        }
      }
    }
  }

  lemma EdgesFollow(g: Graph, seeds: seq<string>, kinds: seq<Kind>, e: Relation)
    ensures e in ProblemOf(g, seeds, kinds).edges <==>
      e in g.Relations() && e.kind in kinds && !Widens(g, seeds, e)
  {
  }

  lemma {:induction false} DependenciesCount(p: seq<Relation>)
    ensures Distance(p) == Dependencies(p)
  {
    if p != [] {
      DependenciesCount(p[1..]);
    }
  }

  lemma {:induction false} WorstMeans(p: seq<Relation>)
    ensures Worst(p) >= 2 <==> exists e :: e in p && e.confidence in {Weak, NameOnly, Heuristic}
    ensures Worst(p) >= 1 <==> exists e :: e in p && e.confidence in {Strong, Scoped, Weak, NameOnly, Heuristic}
    ensures Worst(p) <= 2
  {
    if p != [] {
      WorstMeans(p[1..]);
      assert forall e :: e in p <==> e == p[0] || e in p[1..];
    }
  }

  lemma EvidenceIsTier(p: seq<Relation>)
    ensures Evidence(p) == Tier(Worst(p)) && Worst(p) <= 2
  {
    hide Worst;
    WorstMeans(p);
  }

  lemma PreferableIsBetter(o: seq<Relation>, p: seq<Relation>)
    requires NoWorse(p, o)
    ensures !Preferable(o, p)
  {
    hide Evidence, Worst, Distance, Dependencies;
    EvidenceIsTier(o);
    EvidenceIsTier(p);
    DependenciesCount(o);
    DependenciesCount(p);
  }

  lemma RenderedMeans(p: seq<Relation>, t: string)
    ensures Shows(Rendered(p, t), p, t)
  {
    hide Evidence, Worst, Distance, Dependencies;
    ShownStops(p);
    StopsAre(Shown(p), t);
    EvidenceIsTier(Shown(p));
    DependenciesCount(p);
  }

  lemma {:induction false} ShownStops(p: seq<Relation>)
    ensures var r := Shown(p);
      r <= p && (forall e :: e in r ==> e.to != "") && (r == p || p[|r|].to == "")
  {
    if p != [] && p[0].to != "" {
      ShownStops(p[1..]);
      assert p == [p[0]] + p[1..];
    }
  }

  lemma {:induction false} StopsAre(p: seq<Relation>, t: string)
    ensures var n := Stops(p, t);
      |n| == |p| + 1 && n[0] == t && forall i :: 0 <= i < |p| ==> n[i + 1] == p[i].to
  {
    if p != [] {
      StopsAre(p[1..], p[0].to);
    }
  }

  // ---------- When routes are complete ----------

  /** The route is itself an admissible walk to a seed. */
  ghost predicate Complete(q: Problem, r: Path, t: string) {
    Walk(q, r.relations, t)
  }

  /** Every route of every query over these kinds, from whatever seeds, is complete. */
  ghost predicate AlwaysComplete(g: Graph, kinds: seq<Kind>)
    reads g
  {
    forall seeds, p, t :: var q := ProblemOf(g, seeds, kinds);
      Best(q, p, t) ==> Complete(q, Rendered(p, t), t)
  }

  /** A relation that seeding the empty id leaves admissible: a file's relation to a
      declaration with the empty id is protected. */
  predicate Unprotected(nodes: map<string, Node>, e: Relation) {
    e.kind == Contains ==> e.from !in ProtectedFiles(nodes, [""])
  }

  ghost predicate Enters(p: seq<Relation>) {
    exists e :: e in p && e.to == ""
  }

  /** No relation of an allowed kind targets the empty id, but for protected ones. */
  ghost predicate Shielded(g: Graph, kinds: seq<Kind>)
    reads g
  {
    forall e :: e in g.Relations() && e.kind in kinds && Unprotected(g.nodes, e) ==> e.to != ""
  }

  /** What protected relations add: a query that does not start at the empty id may lead on
      through it. Every route is complete exactly when only protected relations target the
      empty id and no best walk to another seed enters it; none does when no allowed
      relation leaves it. */
  lemma RoutesThroughEmpty(g: Graph, kinds: seq<Kind>)
    requires g.Valid()
    ensures AlwaysComplete(g, kinds) <==>
      Shielded(g, kinds)
      && forall seeds, p, t :: "" !in seeds && Best(ProblemOf(g, seeds, kinds), p, t) ==> !Enters(p)
    ensures Shielded(g, kinds) && (forall e :: e in g.Relations() && e.kind in kinds ==> e.from != "") ==>
      AlwaysComplete(g, kinds)
  {
    hide Best, Rendered, Complete, Enters;
    RoutesCompleteExactly(g, kinds);
    if AlwaysComplete(g, kinds) {
      forall seeds, p, t | "" !in seeds && Best(ProblemOf(g, seeds, kinds), p, t) ensures !Enters(p) {
        assert Complete(ProblemOf(g, seeds, kinds), Rendered(p, t), t);
        if Enters(p) {
          EntersHides(ProblemOf(g, seeds, kinds), p, t);
        }
      }
    }
    forall seeds, p, t | Shielded(g, kinds) && Best(ProblemOf(g, seeds, kinds), p, t)
      ensures "" in seeds || !Enters(p) ==> Complete(ProblemOf(g, seeds, kinds), Rendered(p, t), t)
      ensures (forall e :: e in g.Relations() && e.kind in kinds ==> e.from != "") && "" !in seeds ==> !Enters(p)
    {
      if "" in seeds {
        SeededIsWhole(g, kinds, seeds, p, t);
      }
      if !Enters(p) {
        WholeIsComplete(ProblemOf(g, seeds, kinds), p, t);
      } else if "" !in seeds {
        BestIsWalk(ProblemOf(g, seeds, kinds), p, t, p);
        var e := LeadsOn(ProblemOf(g, seeds, kinds), p, t);
      }
    }
  }

  lemma EntersHides(q: Problem, p: seq<Relation>, t: string)
    requires Best(q, p, t) && Enters(p)
    ensures !Complete(q, Rendered(p, t), t)
  {
    ShownIsLess(p);
    ShownWhole(p);
    BestIsWalk(q, p, t, Shown(p));
  }

  lemma {:induction false} ShownIsLess(p: seq<Relation>)
    ensures Worst(Shown(p)) <= Worst(p) && Distance(Shown(p)) <= Distance(p) && |Shown(p)| <= |p|
    ensures Enters(p) ==> |Shown(p)| < |p|
  {
    if p != [] && p[0].to != "" {
      ShownIsLess(p[1..]);
      assert Shown(p)[1..] == Shown(p[1..]);
    }
  }

  lemma WholeIsComplete(q: Problem, p: seq<Relation>, t: string)
    requires Best(q, p, t) && !Enters(p)
    ensures Complete(q, Rendered(p, t), t)
  {
    ShownWhole(p);
  }

  lemma SeededIsWhole(g: Graph, kinds: seq<Kind>, seeds: seq<string>, p: seq<Relation>, t: string)
    requires g.Valid() && Shielded(g, kinds) && "" in seeds && Best(ProblemOf(g, seeds, kinds), p, t)
    ensures !Enters(p)
  {
    WalkUsesEdges(ProblemOf(g, seeds, kinds), p, t);
    assert ProtectedFiles(g.nodes, [""]) <= ProtectedFiles(g.nodes, seeds);
  }

  /** A walk that enters the empty id without ending there leaves it again. */
  lemma {:induction false} LeadsOn(q: Problem, p: seq<Relation>, t: string) returns (e: Relation)
    requires Walk(q, p, t) && Enters(p) && "" !in q.seeds
    ensures e in q.edges && e.from == ""
  {
    if p[0].to == "" {
      e := p[1];
    } else {
      e := LeadsOn(q, p[1..], p[0].to);
    }
  }

  /** Over all queries of a graph, routes are complete exactly when no relation of an
      allowed kind targets the empty id; where the empty id is no declaration, nothing is
      protected and the two conditions are one. */
  lemma RoutesCompleteExactly(g: Graph, kinds: seq<Kind>)
    requires g.Valid()
    ensures (forall e :: e in g.Relations() && e.kind in kinds ==> e.to != "") ==> AlwaysComplete(g, kinds)
    ensures AlwaysComplete(g, kinds) ==>
      forall e :: e in g.Relations() && e.kind in kinds && Unprotected(g.nodes, e) ==> e.to != ""
    ensures ("" in g.nodes ==> g.nodes[""].kind !in {SymbolNode, BindingNode}) ==>
      (AlwaysComplete(g, kinds) <==> forall e :: e in g.Relations() && e.kind in kinds ==> e.to != "")
  {
    hide Best, Rendered, Complete;
    if forall e :: e in g.Relations() && e.kind in kinds ==> e.to != "" {
      forall seeds, p, t | Best(ProblemOf(g, seeds, kinds), p, t)
        ensures Complete(ProblemOf(g, seeds, kinds), Rendered(p, t), t)
      {
        BestIsShown(ProblemOf(g, seeds, kinds), p, t);
      }
    }
    if e :| e in g.Relations() && e.kind in kinds && Unprotected(g.nodes, e) && e.to == "" {
      var q := ProblemOf(g, [""], kinds);
      IntoEmpty(g, kinds, e);
      var p := BestWalk(q, [e], e.from);
      EmptySeedHides(q, p, e.from);
    }
  }

  lemma BestIsShown(q: Problem, p: seq<Relation>, t: string)
    requires Best(q, p, t) && forall e :: e in q.edges ==> e.to != ""
    ensures Complete(q, Rendered(p, t), t)
  {
    WalkUsesEdges(q, p, t);
    ShownWhole(p);
  }

  /** From the seed "", a relation into it is a walk. */
  lemma IntoEmpty(g: Graph, kinds: seq<Kind>, e: Relation)
    requires g.Valid() && Unprotected(g.nodes, e) && e in g.Relations() && e.kind in kinds && e.to == ""
    ensures var q := ProblemOf(g, [""], kinds); q.seeds == {""} && e.from != "" && Walk(q, [e], e.from)
  {
    var q := ProblemOf(g, [""], kinds);
    var k :| k in g.seen && g.seen[k] == e;
    assert k == e.Key() && "" in g.nodes && e.from != e.to;
    assert e in q.edges && [e][1..] == [];
    assert Walk(q, [e][1..], "");
  }

  /** With the empty id as the only seed, no route to another node shows its end. */
  lemma EmptySeedHides(q: Problem, p: seq<Relation>, t: string)
    requires q.seeds == {""} && t != "" && Best(q, p, t)
    ensures !Complete(q, Rendered(p, t), t)
  {
    ShownAvoidsEmpty(p);
    NotToEmpty(q, Shown(p), t);
  }

  lemma {:induction false} ShownAvoidsEmpty(p: seq<Relation>)
    ensures forall e :: e in Shown(p) ==> e.to != ""
  {
    if p != [] {
      ShownAvoidsEmpty(p[1..]);
    }
  }

  lemma {:induction false} NotToEmpty(q: Problem, p: seq<Relation>, t: string)
    requires q.seeds == {""} && t != "" && forall e :: e in p ==> e.to != ""
    ensures !Walk(q, p, t)
  {
    if p != [] {
      assert p[0] in p;
      NotToEmpty(q, p[1..], p[0].to);
    }
  }

  /** Where some walk exists, there is a best one. */
  lemma {:induction false} BestWalk(q: Problem, p: seq<Relation>, t: string) returns (b: seq<Relation>)
    requires Walk(q, p, t)
    ensures Best(q, b, t)
    decreases Worst(p), Distance(p), |p|
  {
    if Best(q, p, t) {
      b := p;
    } else {
      var o :| Walk(q, o, t) && !NoWorse(p, o);
      b := BestWalk(q, o, t);
    }
  }

  /** A graph with one relation, into the empty id: the query reports the distance of a
      route and shows none of it. */
  method EmptyTargetHidesRelation(e: Relation) returns (g: Graph, paths: map<string, Path>)
    requires e.to == "" && e.from != ""
    ensures fresh(g) && g.Valid() && g.Relations() == {e}
    ensures Answers(ProblemOf(g, [""], [e.kind]), Every, 3, paths)
    ensures e.from in paths && paths[e.from] == Path([e.from], [], Exact, DependencyStep(e.kind))
  {
    hide Answered;
    g := new Graph();
    g.AddRelation(e);
    paths := Query(g, [""], Every, [e.kind]);
    HidesOnly(g, e, paths);
  }

  lemma HidesOnly(g: Graph, e: Relation, paths: map<string, Path>)
    requires g.Valid() && g.Relations() == {e} && "" in g.nodes && g.nodes[""].kind == FileNode
    requires e.to == "" && e.from != "" && Answers(ProblemOf(g, [""], [e.kind]), Every, 3, paths)
    ensures e.from in paths && paths[e.from] == Path([e.from], [], Exact, DependencyStep(e.kind))
  {
    var q := ProblemOf(g, [""], [e.kind]);
    assert ProtectedFiles(g.nodes, [""]) == {};
    IntoEmpty(g, [e.kind], e);
    hide ProblemOf, Answers;
    AnswersEveryReachable(q, Every, paths, e.from);
    OnlyWalk(q, e, paths);
  }

  lemma OnlyWalk(q: Problem, e: Relation, paths: map<string, Path>)
    requires q.seeds == {""} && q.edges <= {e} && e.to == "" && e.from != ""
    requires Answers(q, Every, 3, paths) && e.from in paths
    ensures paths[e.from] == Path([e.from], [], Exact, DependencyStep(e.kind))
  {
    var p :| Best(q, p, e.from) && paths[e.from] == Rendered(p, e.from);
    assert p != [] && p[0] == e;
    assert Walk(q, p[1..], e.to);
    assert p[1..] == [];
    assert Shown(p) == [] && Distance(p) == DependencyStep(e.kind) + Distance(p[1..]);
  }
}
