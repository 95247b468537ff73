/** The repository's source graph: nodes, relations, and the two adjacency
    indexes that `AddRelation` keeps in step. */
module CodeGraph {
  import opened Basics

  /** Evidence tiers; `Unstated` is the empty string. */
  datatype Confidence = Unstated | Exact | Strong | Scoped | Weak | NameOnly | Heuristic

  datatype Kind = Contains | PackageMember | Reexports | Imports | Other(name: string)

  datatype NodeKind = FileNode | SymbolNode | BindingNode | ModuleNode

  datatype Node = Node(id: string, kind: NodeKind, file: string, name: string, startLine: int, endLine: int)

  /** Everything that identifies a relation; the proofs it carries do not. */
  datatype RelationKey = RelationKey(id: string, from: string, to: string, kind: Kind, file: string, line: int,
                                     location: string, basis: string, confidence: Confidence)

  datatype Relation = Relation(id: string, from: string, to: string, kind: Kind, file: string, line: int,
                               location: string, basis: string, confidence: Confidence, evidence: seq<string>)
  {
    function Key(): RelationKey {
      RelationKey(id, from, to, kind, file, line, location, basis, confidence)
    }
  }

  predicate HasPrefix(s: string, prefix: string) {
    prefix <= s
  }

  /** The part of `s` before the first `mark`, and the part after it. */
  function Cut(s: string, mark: char): (r: (string, string))
    ensures mark !in r.0
    ensures (s == r.0 && r.1 == "") || s == r.0 + [mark] + r.1
  {
    if s == "" then ("", "")
    else if s[0] == mark then ("", s[1..])
    else
      var rest := Cut(s[1..], mark);
      ([s[0]] + rest.0, rest.1)
  }

  const SYMBOL_PREFIX := "symbol:"
  const MODULE_PREFIXES := ["any-symbol:", "package:", "tests:"]

  /** The node an unknown endpoint stands for: a file, a binding or a module. */
  function EndpointNode(id: string): (n: Node)
    ensures n.id == id && n.kind != SymbolNode
  {
    if HasPrefix(id, SYMBOL_PREFIX) then
      var (file, name) := Cut(id[|SYMBOL_PREFIX|..], '#');
      Node(id, BindingNode, file, name, 0, 0)
    else if HasPrefix(id, MODULE_PREFIXES[0]) then
      Node(id, ModuleNode, id[|MODULE_PREFIXES[0]|..], "", 0, 0)
    else if HasPrefix(id, MODULE_PREFIXES[1]) then
      Node(id, ModuleNode, id[|MODULE_PREFIXES[1]|..], "", 0, 0)
    else if HasPrefix(id, MODULE_PREFIXES[2]) then
      Node(id, ModuleNode, id[|MODULE_PREFIXES[2]|..], "", 0, 0)
    else
      Node(id, FileNode, id, "", 0, 0)
  }

  /** A symbol's id names its file and, behind the first mark, the binding. */
  lemma SymbolEndpoint(file: string, name: string)
    requires '#' !in file
    ensures var id := "symbol:" + file + "#" + name; EndpointNode(id) == Node(id, BindingNode, file, name, 0, 0)
    ensures var id := "symbol:" + file; EndpointNode(id) == Node(id, BindingNode, file, "", 0, 0)
  {
    var id, bare := "symbol:" + file + "#" + name, "symbol:" + file;
    assert id[|SYMBOL_PREFIX|..] == file + "#" + name && SYMBOL_PREFIX <= id;
    assert bare[|SYMBOL_PREFIX|..] == file && SYMBOL_PREFIX <= bare;
    CutAtMark(file, name);
    CutWithout(file);
  }

  lemma {:induction false} CutAtMark(file: string, name: string)
    requires '#' !in file
    ensures Cut(file + "#" + name, '#') == (file, name)
  {
    var s := file + "#" + name;
    if file == "" {
      assert s[0] == '#' && s[1..] == name;
    } else {
      CutAtMark(file[1..], name);
      assert s[0] == file[0] && s[1..] == file[1..] + "#" + name;
      assert Cut(s, '#') == ([s[0]] + file[1..], name);
      assert [s[0]] + file[1..] == file;
    }
  }

  lemma {:induction false} CutWithout(file: string)
    requires '#' !in file
    ensures Cut(file, '#') == (file, "")
  {
    if file != "" {
      CutWithout(file[1..]);
    }
  }

  /** The other marked ids name the module of a file or package; any other id is a file. */
  lemma OtherEndpoint(id: string, rest: string)
    ensures id in {"any-symbol:" + rest, "package:" + rest, "tests:" + rest} ==>
              EndpointNode(id) == Node(id, ModuleNode, rest, "", 0, 0)
    ensures !("symbol:" <= id) && !("any-symbol:" <= id) && !("package:" <= id) && !("tests:" <= id) ==>
              EndpointNode(id) == Node(id, FileNode, id, "", 0, 0)
  {
    if id == "any-symbol:" + rest {
      assert id[0] == 'a' && id[11..] == rest;
    } else if id == "package:" + rest {
      assert id[0] == 'p' && id[8..] == rest;
    } else if id == "tests:" + rest {
      assert id[0] == 't' && id[6..] == rest;
    }
  }

  /** Relations have one key exactly when they differ in their proofs at most. */
  lemma KeyTells(a: Relation, b: Relation)
    ensures a.Key() == b.Key() <==> a.(evidence := b.evidence) == b
  {}

  function Lookup(index: map<string, seq<Relation>>, id: string): seq<Relation> {
    if id in index then index[id] else []
  }

  function End(r: Relation, target: bool): string {
    if target then r.to else r.from
  }

  /** `index` lists every fact exactly once, under its target or its source. */
  ghost predicate Indexes(index: map<string, seq<Relation>>, facts: map<RelationKey, Relation>, target: bool) {
    && (forall id :: id in index ==> NoRepeat(index[id]))
    && (forall id, r :: id in index && r in index[id] ==>
          End(r, target) == id && r.Key() in facts && facts[r.Key()] == r)
    && (forall k :: k in facts ==> facts[k] in Lookup(index, End(facts[k], target)))
  }

  lemma IndexGrows(index: map<string, seq<Relation>>, facts: map<RelationKey, Relation>, target: bool, r: Relation)
    requires Indexes(index, facts, target) && r.Key() !in facts
    ensures var id := End(r, target);
            Indexes(index[id := Lookup(index, id) + [r]], facts[r.Key() := r], target)
  {
    var id := End(r, target);
    var listed := Lookup(index, id);
    var grown := index[id := listed + [r]];
    assert r !in listed;
    OneMore(listed, r);
    var known := facts[r.Key() := r];
    forall k | k in known ensures known[k] in Lookup(grown, End(known[k], target)) {
      if k != r.Key() {
        assert facts[k] in Lookup(index, End(facts[k], target));
      }
    }
  }

  lemma OneMore<T>(xs: seq<T>, x: T)
    requires NoRepeat(xs) && x !in xs
    ensures NoRepeat(xs + [x]) && x in xs + [x] && forall y :: y in xs ==> y in xs + [x]
  {
    assert (xs + [x])[|xs|] == x;
    forall y | y in xs ensures y in xs + [x] {}
  }

  lemma FactsGrow(facts: map<RelationKey, Relation>, r: Relation)
    requires r.Key() !in facts
    ensures facts[r.Key() := r].Values == facts.Values + {r}
  {
    var grown := facts[r.Key() := r];
    forall x | x in facts.Values + {r} ensures x in grown.Values {
      if x != r {
        var k :| k in facts && facts[k] == x;
        assert grown[k] == x;
      } else {
        assert grown[r.Key()] == r;
      }
    }
  }

  /** Each fact stands under its own key and joins two different known nodes. */
  ghost predicate Anchored(nodes: map<string, Node>, facts: map<RelationKey, Relation>) {
    forall k :: k in facts ==> facts[k].Key() == k && k.from != k.to && k.from in nodes && k.to in nodes
  }

  lemma AnchoredGrows(nodes: map<string, Node>, more: map<string, Node>, facts: map<RelationKey, Relation>, r: Relation)
    requires Anchored(nodes, facts) && nodes.Keys <= more.Keys
    ensures Anchored(more, facts)
    ensures r.from != r.to && r.from in more && r.to in more ==> Anchored(more, facts[r.Key() := r])
  {}

  class Graph {
    var nodes: map<string, Node>
    var outgoing: map<string, seq<Relation>>
    var incoming: map<string, seq<Relation>>
    var seen: map<RelationKey, Relation>

    constructor ()
      ensures Valid()
      ensures Relations() == {} && nodes == map[]
    {
      nodes, outgoing, incoming, seen := map[], map[], map[], map[];
    }

    /** The facts the graph holds. */
    ghost function Relations(): set<Relation>
      reads this
    {
      seen.Values
    }

    function Incoming(id: string): seq<Relation>
      reads this
    {
      Lookup(incoming, id)
    }

    function Outgoing(id: string): seq<Relation>
      reads this
    {
      Lookup(outgoing, id)
    }

    /** Each relation is recorded once under its own key, joins two different
        known nodes, and stands exactly once in each adjacency index. */
    ghost predicate Valid()
      reads this
    {
      && (forall n :: n in nodes ==> nodes[n].id == n)
      && Anchored(nodes, seen)
      && Indexes(incoming, seen, true)
      && Indexes(outgoing, seen, false)
    }

    method AddNode(n: Node)
      requires Valid()
      modifies this`nodes
      ensures Valid()
      ensures nodes == old(nodes)[n.id := n]
    {
      nodes := nodes[n.id := n];
    }

    method EnsureEndpoint(id: string)
      requires Valid()
      modifies this`nodes
      ensures Valid()
      ensures nodes == if id in old(nodes) then old(nodes) else old(nodes)[id := EndpointNode(id)]
    {
      if id in nodes {
        return;
      }
      AddNode(EndpointNode(id));
    }

    /** Records a fact unless it joins a node to itself or repeats a known key;
        the first relation with a key keeps its proofs. */
    method AddRelation(r: Relation)
      requires Valid()
      modifies this
      ensures Valid()
      ensures Relations() ==
              old(Relations()) + if r.from == r.to || r.Key() in old(seen) then {} else {r}
      ensures Relations() == old(Relations()) +
              if r.from == r.to || exists f :: f in old(Relations()) && f.(evidence := r.evidence) == r then {} else {r}
      ensures forall n :: n in old(nodes) ==> n in nodes && nodes[n] == old(nodes)[n]
      ensures forall n :: n in nodes && n !in old(nodes) ==>
                n in {r.from, r.to} && nodes[n] == EndpointNode(n)
      ensures r.from == r.to || r.Key() in old(seen) ==>
                nodes == old(nodes) && outgoing == old(outgoing) && incoming == old(incoming)
      ensures r.from != r.to && r.Key() !in old(seen) ==>
                && outgoing == old(outgoing)[r.from := old(Outgoing(r.from)) + [r]]
                && incoming == old(incoming)[r.to := old(Incoming(r.to)) + [r]]
    {
      hide Indexes, EndpointNode, Anchored;
      var key := r.Key();
      KeyIsKnown(r);
      if r.from == r.to || key in seen {
        return;
      }
      EnsureEndpoint(r.from);
      EnsureEndpoint(r.to);
      IndexGrows(outgoing, seen, false, r);
      IndexGrows(incoming, seen, true, r);
      FactsGrow(seen, r);
      AnchoredGrows(nodes, nodes, seen, r);
      outgoing := outgoing[r.from := Outgoing(r.from) + [r]];
      incoming := incoming[r.to := Incoming(r.to) + [r]];
      seen := seen[key := r];
    }

    lemma KeyIsKnown(r: Relation)
      requires Valid()
      ensures r.Key() in seen <==> exists f :: f in Relations() && f.(evidence := r.evidence) == r
    {
      hide Indexes;
      if r.Key() in seen {
        var f := seen[r.Key()];
        assert f in seen.Values && f.Key() == r.Key();
        KeyTells(f, r);
      }
      if f :| f in Relations() && f.(evidence := r.evidence) == r {
        KeyTells(f, r);
        var k :| k in seen && seen[k] == f;
      }
    }

    /** The two indexes are transposes of each other and list exactly the facts. */
    lemma IndexesAgree(r: Relation)
      requires Valid()
      ensures r in Incoming(r.to) <==> r in Relations()
      ensures r in Outgoing(r.from) <==> r in Relations()
      ensures NoRepeat(Incoming(r.to)) && NoRepeat(Outgoing(r.from))
    {
      if r.Key() in seen && seen[r.Key()] == r {
        assert r in seen.Values;
      }
      if r in seen.Values {
        var k :| k in seen && seen[k] == r;
        assert k == r.Key();
      }
    }

    lemma IncomingEnds(id: string, r: Relation)
      requires Valid() && r in Incoming(id)
      ensures r.to == id && r in Relations() && r.from in nodes
    {
      assert seen[r.Key()] == r;
    }
  }
}
