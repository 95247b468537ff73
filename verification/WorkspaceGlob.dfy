/** Workspace globs over slash-separated segments, and the climb from a component to
    the directory whose workspace installs it. */
module WorkspaceGlob {
  import opened Basics

  // ---------- Patterns ----------

  /** `path.Match` on the patterns a workspace may use: `*` stands for any characters of
      one segment, and any other character for itself. */
  predicate SegmentMatch(pattern: string, name: string)
    decreases |pattern|
  {
    if pattern == "" then name == ""
    else if pattern[0] == '*' then exists k :: 0 <= k <= |name| && SegmentMatch(pattern[1..], name[k..])
    else name != "" && name[0] == pattern[0] && SegmentMatch(pattern[1..], name[1..])
  }

  /** What a glob means: `**` spans any number of segments, every other segment of the
      pattern exactly one. */
  predicate Spans(patterns: seq<string>, parts: Path)
    decreases |patterns|
  {
    if patterns == [] then parts == []
    else if patterns[0] == "**" then exists k :: 0 <= k <= |parts| && Spans(patterns[1..], parts[k..])
    else parts != [] && SegmentMatch(patterns[0], parts[0]) && Spans(patterns[1..], parts[1..])
  }

  /** Three laws say what a segment pattern matches: a pattern matches by its parts, a star
      anything, and another character itself. */
  lemma {:induction false} SegmentParts(a: string, b: string, name: string)
    ensures SegmentMatch(a + b, name)
        <==> exists k :: 0 <= k <= |name| && SegmentMatch(a, name[..k]) && SegmentMatch(b, name[k..])
    decreases |a|, 0
  {
    if a == "" {
      assert a + b == b && name[0..] == name;
      assert SegmentMatch(b, name) ==> SegmentMatch(a, name[..0]) && SegmentMatch(b, name[0..]);
    } else {
      var rest := a[1..];
      assert (a + b)[1..] == rest + b;
      if a[0] == '*' {
        StarParts(rest, b, name);
        StarFirst(a, b, name);
      } else if name != "" && name[0] == a[0] {
        SegmentParts(rest, b, name[1..]);
        FirstParts(a, b, name);
      }
    }
  }

  lemma StarParts(a: string, b: string, name: string)
    ensures (exists i :: 0 <= i <= |name| && SegmentMatch(a + b, name[i..]))
        <==> exists i, k :: 0 <= i <= k <= |name| && SegmentMatch(a, name[i..k]) && SegmentMatch(b, name[k..])
    decreases |a|, 1
  {
    hide SegmentMatch;
    if i :| 0 <= i <= |name| && SegmentMatch(a + b, name[i..]) {
      SegmentParts(a, b, name[i..]);
      var k :| 0 <= k <= |name| - i && SegmentMatch(a, name[i..][..k]) && SegmentMatch(b, name[i..][k..]);
      assert name[i..][..k] == name[i..i + k] && name[i..][k..] == name[i + k..];
    }
    if i, k :| 0 <= i <= k <= |name| && SegmentMatch(a, name[i..k]) && SegmentMatch(b, name[k..]) {
      SegmentParts(a, b, name[i..]);
      assert name[i..k] == name[i..][..k - i] && name[k..] == name[i..][k - i..];
    }
  }

  lemma StarFirst(a: string, b: string, name: string)
    requires a != "" && a[0] == '*'
    ensures (exists k :: 0 <= k <= |name| && SegmentMatch(a, name[..k]) && SegmentMatch(b, name[k..]))
        <==> exists i, k :: 0 <= i <= k <= |name| && SegmentMatch(a[1..], name[i..k]) && SegmentMatch(b, name[k..])
  {
    forall k | 0 <= k <= |name|
      ensures SegmentMatch(a, name[..k]) <==> exists i :: 0 <= i <= k && SegmentMatch(a[1..], name[i..k])
    {
      forall i | 0 <= i <= k ensures name[..k][i..] == name[i..k] {}
    }
  }

  lemma FirstParts(a: string, b: string, name: string)
    requires a != "" && a[0] != '*' && name != "" && name[0] == a[0]
    ensures (exists k :: 0 <= k <= |name| && SegmentMatch(a, name[..k]) && SegmentMatch(b, name[k..]))
        <==> var rest := name[1..];
             exists k :: 0 <= k <= |rest| && SegmentMatch(a[1..], rest[..k]) && SegmentMatch(b, rest[k..])
  {
    forall k | 0 <= k < |name|
      ensures name[..k + 1][1..] == name[1..][..k] && name[1..][k..] == name[k + 1..] && name[..k + 1][0] == name[0]
    {}
    assert !SegmentMatch(a, name[..0]);
    if k :| 0 <= k <= |name| && SegmentMatch(a, name[..k]) && SegmentMatch(b, name[k..]) {
      assert k > 0 && name[..k][1..] == name[1..][..k - 1] && name[1..][k - 1..] == name[k..];
    }
    if k :| 0 <= k <= |name[1..]| && SegmentMatch(a[1..], name[1..][..k]) && SegmentMatch(b, name[1..][k..]) {
      assert SegmentMatch(a, name[..k + 1]) && SegmentMatch(b, name[k + 1..]);
    }
  }

  lemma SegmentUnits(c: char, name: string)
    ensures SegmentMatch("*", name) && (c != '*' ==> (SegmentMatch([c], name) <==> name == [c]))
    ensures SegmentMatch("", name) <==> name == ""
  {
    assert "*"[1..] == "" && [c][1..] == "" && name[|name|..] == "";
    assert SegmentMatch("", "");
    if c != '*' && name != "" && name[1..] == "" {
      assert name == [name[0]];
    }
  }

  /** Some marked position from which the remaining segments span the remaining parts. */
  ghost predicate Reaches(row: seq<bool>, patterns: seq<string>, parts: Path)
    requires |row| == |parts| + 1
  {
    exists j :: 0 <= j <= |parts| && row[j] && Spans(patterns, parts[j..])
  }

  /** One row of the table from the one before it. */
  ghost predicate Follows(row: seq<bool>, next: seq<bool>, pattern: string, parts: Path)
    requires |row| == |next| == |parts| + 1
  {
    if pattern == "**" then
      forall j :: 0 <= j <= |parts| ==> (next[j] <==> exists k :: 0 <= k <= j && row[k])
    else
      forall j :: 0 <= j <= |parts| ==> (next[j] <==> j > 0 && row[j - 1] && SegmentMatch(pattern, parts[j - 1]))
  }

  lemma RowStep(row: seq<bool>, next: seq<bool>, patterns: seq<string>, parts: Path)
    requires |row| == |next| == |parts| + 1 && patterns != []
    requires Follows(row, next, patterns[0], parts)
    ensures Reaches(row, patterns, parts) <==> Reaches(next, patterns[1..], parts)
  {
    hide SegmentMatch;
    if Reaches(row, patterns, parts) {
      var j :| 0 <= j <= |parts| && row[j] && Spans(patterns, parts[j..]);
      if patterns[0] == "**" {
        var k :| 0 <= k <= |parts[j..]| && Spans(patterns[1..], parts[j..][k..]);
        assert parts[j..][k..] == parts[j + k..];
        assert next[j + k];
      } else {
        assert parts[j..][1..] == parts[j + 1..];
        assert next[j + 1];
      }
    }
    if Reaches(next, patterns[1..], parts) {
      var j :| 0 <= j <= |parts| && next[j] && Spans(patterns[1..], parts[j..]);
      if patterns[0] == "**" {
        var k :| 0 <= k <= j && row[k];
        assert parts[k..][j - k..] == parts[j..];
        assert Spans(patterns, parts[k..]);
      } else {
        assert parts[j - 1..][1..] == parts[j..];
        assert Spans(patterns, parts[j - 1..]);
      }
    }
  }

  lemma {:induction false} RowEnds(row: seq<bool>, parts: Path)
    requires |row| == |parts| + 1
    ensures Reaches(row, [], parts) <==> row[|parts|]
  {
    assert parts[|parts|..] == [];
  }

  lemma RowStarts(row: seq<bool>, patterns: seq<string>, parts: Path)
    requires |row| == |parts| + 1 && forall j :: 0 <= j <= |parts| ==> (row[j] <==> j == 0)
    ensures Reaches(row, patterns, parts) <==> Spans(patterns, parts)
  {
    assert parts[0..] == parts;
  }

  /** `workspaceMatch`: a table of one row for each segment of the pattern. */
  method WorkspaceMatch(patterns: seq<string>, parts: Path) returns (ok: bool)
    ensures ok <==> Spans(patterns, parts)
  {
    hide Spans, SegmentMatch;
    var n := |parts|;
    var states := new bool[n + 1](j => j == 0);
    RowStarts(states[..], patterns, parts);
    for i := 0 to |patterns|
      invariant states.Length == n + 1
      invariant Reaches(states[..], patterns[i..], parts) <==> Spans(patterns, parts)
    {
      var next := new bool[n + 1](j => false);
      FillRow(patterns[i], parts, states, next);
      assert patterns[i..][1..] == patterns[i + 1..];
      RowStep(states[..], next[..], patterns[i..], parts);
      states := next;
    }
    RowEnds(states[..], parts);
    ok := states[n];
  }

  method FillRow(pattern: string, parts: Path, states: array<bool>, next: array<bool>)
    requires states != next && states.Length == next.Length == |parts| + 1
    requires forall j :: 0 <= j <= |parts| ==> !next[j]
    modifies next
    ensures Follows(states[..], next[..], pattern, parts)
  {
    for j := 0 to |parts| + 1
      invariant forall k :: j <= k <= |parts| ==> !next[k]
      invariant forall k :: 0 <= k < j ==>
        (next[k] <==> if pattern == "**" then exists i :: 0 <= i <= k && states[i]
                      else k > 0 && states[k - 1] && SegmentMatch(pattern, parts[k - 1]))
    {
      if pattern == "**" {
        next[j] := states[j] || (j > 0 && next[j - 1]);
      } else if j > 0 && states[j - 1] {
        next[j] := SegmentMatch(pattern, parts[j - 1]);
      }
    }
  }

  // ---------- Installation roots ----------

  datatype Pattern = Pattern(negative: bool, segments: seq<string>)

  datatype Readable = Unreadable | Patterns(patterns: seq<Pattern>)

  /** The patterns of each directory, or that they cannot be read. */
  type Manifests = Path -> Readable

  /** A directory claims what one of its patterns includes and none excludes. */
  ghost predicate Claims(m: Manifests, ancestor: Path, member: Path)
    requires ancestor <= member
  {
    && m(ancestor).Patterns?
    && ancestor != member
    && (exists p :: p in m(ancestor).patterns && !p.negative && Spans(p.segments, member[|ancestor|..]))
    && (forall p :: p in m(ancestor).patterns && p.negative ==> !Spans(p.segments, member[|ancestor|..]))
  }

  /** From a member, each link is the nearest ancestor that claims the one before. */
  ghost predicate Reached(m: Manifests, member: Path, root: Path)
    requires root <= member
    decreases |member| - |root|
  {
    member == root
    || exists k :: |root| <= k < |member| && Nearest(m, member, k) && Reached(m, member[..k], root)
  }

  ghost predicate Nearest(m: Manifests, member: Path, k: nat)
    requires k < |member|
  {
    Claims(m, member[..k], member) && forall i :: k < i < |member| ==> !Claims(m, member[..i], member)
  }

  lemma {:induction false} ReachedStep(m: Manifests, member: Path, root: Path, k: nat)
    requires root <= member && Reached(m, member, root) && k < |root| && Nearest(m, root, k)
    ensures Reached(m, member, root[..k])
    decreases |member|
  {
    hide Nearest;
    if member == root {
      assert Reached(m, root[..k], root[..k]);
    } else {
      var i :| |root| <= i < |member| && Nearest(m, member, i) && Reached(m, member[..i], root);
      ReachedStep(m, member[..i], root, k);
      assert Nearest(m, member, i) && Reached(m, member[..i], root[..k]);
    }
  }

  ghost predicate Unclaimed(m: Manifests, root: Path) {
    forall k :: 0 <= k < |root| ==> !Claims(m, root[..k], root)
  }

  /** A member has one installation root. */
  lemma {:induction false} RootIsUnique(m: Manifests, member: Path, a: Path, b: Path)
    requires a <= member && Reached(m, member, a) && Unclaimed(m, a)
    requires b <= member && Reached(m, member, b) && Unclaimed(m, b)
    ensures a == b
    decreases |member|
  {
    hide Claims;
    if member != a && member != b {
      var i :| |a| <= i < |member| && Nearest(m, member, i) && Reached(m, member[..i], a);
      var j :| |b| <= j < |member| && Nearest(m, member, j) && Reached(m, member[..j], b);
      assert i == j;
      RootIsUnique(m, member[..i], a, b);
    }
  }

  /** Whether the patterns of one ancestor make it the root of what was selected. */
  method Include(patterns: seq<Pattern>, relative: Path) returns (ok: bool)
    ensures ok <==> ((exists p :: p in patterns && !p.negative && Spans(p.segments, relative))
                     && (forall p :: p in patterns && p.negative ==> !Spans(p.segments, relative)))
  {
    var included, excluded := false, false;
    for i := 0 to |patterns|
      invariant included <==> exists p :: p in patterns[..i] && !p.negative && Spans(p.segments, relative)
      invariant excluded <==> exists p :: p in patterns[..i] && p.negative && Spans(p.segments, relative)
    {
      assert patterns[..i + 1] == patterns[..i] + [patterns[i]];
      var matches := WorkspaceMatch(patterns[i].segments, relative);
      if matches {
        if patterns[i].negative { excluded := true; } else { included := true; }
      }
    }
    assert patterns[..|patterns|] == patterns;
    ok := included && !excluded;
  }

  /** `installationRoot`: climbs from the component to the repository root. */
  method InstallationRoot(m: Manifests, component: Path) returns (ok: bool, root: Path)
    ensures ok <==> forall k :: 0 <= k <= |component| ==> m(component[..k]).Patterns?
    ensures ok ==> root <= component && Reached(m, component, root) && Unclaimed(m, root)
  {
    hide Claims, Reached, Spans;
    var selected := component;
    assert component <= component && Reached(m, component, component) by { ReachedSelf(m, component); }
    var k := |component| + 1;
    while k > 0
      invariant 0 <= k <= |component| + 1
      invariant selected <= component && Reached(m, component, selected) && k <= |selected| + 1
      invariant forall i :: k <= i <= |component| ==> m(component[..i]).Patterns?
      invariant forall i :: k <= i < |selected| ==> !Claims(m, selected[..i], selected)
    {
      k := k - 1;
      var ancestor := component[..k];
      assert k <= |selected| ==> ancestor == selected[..k];
      match m(ancestor) {
        case Unreadable => return false, component;
        case Patterns(patterns) =>
          if k < |selected| {
            var claimed := Include(patterns, selected[k..]);
            assert claimed <==> Claims(m, selected[..k], selected) by { ClaimsIs(m, selected, k); }
            if claimed {
              ReachedStep(m, component, selected, k);
              selected := selected[..k];
            }
          }
      }
    }
    return true, selected;
  }

  lemma ReachedSelf(m: Manifests, path: Path)
    ensures Reached(m, path, path)
  {}

  lemma ClaimsIs(m: Manifests, member: Path, k: nat)
    requires k < |member| && m(member[..k]).Patterns?
    ensures var ps := m(member[..k]).patterns;
      Claims(m, member[..k], member)
      <==> ((exists p :: p in ps && !p.negative && Spans(p.segments, member[k..]))
            && (forall p :: p in ps && p.negative ==> !Spans(p.segments, member[k..])))
  {}
}
