/** Identifiers are byte strings compared the way Go compares strings. A group of
    identifiers is kept in canonical form: strictly increasing, hence free of
    duplicates and determined by its set of members. */
module Identifiers {

  /** Go's `<` on strings. */
  predicate Less(a: string, b: string)
  {
    && b != []
    && (a == [] || a[0] < b[0] || (a[0] == b[0] && Less(a[1..], b[1..])))
  }

  lemma {:induction false} LessTransitive(a: string, b: string, c: string)
    requires Less(a, b) && Less(b, c)
    ensures Less(a, c)
  {
    if a != [] && a[0] == b[0] == c[0] {
      LessTransitive(a[1..], b[1..], c[1..]);
    }
  }

  lemma {:induction false} LessTotal(a: string, b: string)
    ensures Less(a, b) || a == b || Less(b, a)
    ensures !(Less(a, b) && Less(b, a))
    ensures !Less(a, a)
  {
    if a != [] && b != [] {
      LessTotal(a[1..], b[1..]);
      assert a == [a[0]] + a[1..] && b == [b[0]] + b[1..];
    }
    if a != [] {
      LessTotal(a[1..], a[1..]);
    }
  }

  ghost predicate Increasing(ids: seq<string>)
  {
    forall i, j :: 0 <= i < j < |ids| ==> Less(ids[i], ids[j])
  }

  ghost function Members(ids: seq<string>): set<string>
  {
    set id | id in ids
  }

  /** Adds one identifier to a canonical group. */
  function Insert(id: string, ids: seq<string>): (r: seq<string>)
    requires Increasing(ids)
    ensures Increasing(r)
    ensures forall x :: x in r <==> x == id || x in ids
  {
    if ids == [] then
      [id]
    else
      LessTotal(id, ids[0]);
      if Less(id, ids[0]) then
        assert forall j :: 0 <= j < |ids| ==> Less(id, ids[j]) by {
          forall j | 0 <= j < |ids| ensures Less(id, ids[j]) {
            if j > 0 { LessTransitive(id, ids[0], ids[j]); }
          }
        }
        [id] + ids
      else if id == ids[0] then
        ids
      else
        var rest := Insert(id, ids[1..]);
        assert forall x :: x in rest <==> x == id || x in ids[1..];
        assert forall j :: 0 <= j < |rest| ==> Less(ids[0], rest[j]) by {
          forall j | 0 <= j < |rest| ensures Less(ids[0], rest[j]) {
            assert rest[j] in rest;
          }
        }
        [ids[0]] + rest
  }

  /** `uniqueIDs`: the sorted, duplicate-free form of a list of identifiers. */
  function Unique(ids: seq<string>): (r: seq<string>)
    ensures Increasing(r)
    ensures forall x :: x in r <==> x in ids
  {
    if ids == [] then [] else Insert(ids[0], Unique(ids[1..]))
  }

  /** `union`: the canonical group holding the members of both groups. */
  function Union(a: seq<string>, b: seq<string>): (r: seq<string>)
    ensures Increasing(r)
    ensures forall x :: x in r <==> x in a || x in b
  {
    Unique(a + b)
  }

  /** A canonical group is determined by its members. */
  lemma {:induction false} IncreasingUnique(a: seq<string>, b: seq<string>)
    requires Increasing(a) && Increasing(b)
    requires forall x :: x in a <==> x in b
    ensures a == b
  {
    assert forall k :: 0 <= k < |a| ==> a[k] in b;
    assert forall k :: 0 <= k < |b| ==> b[k] in a;
    if a != [] && b != [] {
      var i :| 0 <= i < |b| && b[i] == a[0];
      var j :| 0 <= j < |a| && a[j] == b[0];
      LessTotal(a[0], b[0]);
      assert a[0] == b[0];
      forall x ensures x in a[1..] <==> x in b[1..] {
        LessTotal(a[0], a[0]);
        assert x in a <==> x == a[0] || x in a[1..];
        assert x in b <==> x == b[0] || x in b[1..];
      }
      IncreasingUnique(a[1..], b[1..]);
      assert a == [a[0]] + a[1..] && b == [b[0]] + b[1..];
    }
  }

  /** Go's "collect the keys and sort them". */
  method SortKeys(keys: set<string>) returns (sorted: seq<string>)
    ensures Increasing(sorted)
    ensures forall x :: x in sorted <==> x in keys
  {
    sorted := [];
    var rest := keys;
    while rest != {}
      invariant rest <= keys && Increasing(sorted)
      invariant forall x :: x in sorted <==> x in keys - rest
      decreases |rest|
    {
      var x :| x in rest;
      rest := rest - {x};
      sorted := Insert(x, sorted);
    }
  }
}
