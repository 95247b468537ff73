/** The byte string that identifies a snapshot: sorted, length-framed records of
    files, links, modules, opaque files and issues. */
module SnapshotDigest {
  import opened Basics
  import opened Decimal
  import opened Identifiers

  datatype Snapshot = Snapshot(files: map<string, string>, links: map<string, string>, modules: map<string, string>,
                               large: map<string, string>, issues: seq<string>)

  const PREFIX := "repocli-snapshot-v2" + [0 as char]
  const LINK := "symlink:"
  const MODULE := "gitlink:"
  const LARGE := "large_file:"
  const ISSUE := "issue:"

  type Pairs = seq<(string, string)>

  /** A snapshot with its records in order. */
  datatype Records = Records(files: Pairs, links: Pairs, modules: Pairs, large: Pairs, issues: seq<string>)

  // ---------- Encoding ----------

  function Frame(s: string): string {
    Print(|s|) + ":" + s
  }

  function EncodePairs(tag: string, ps: Pairs): string {
    if ps == [] then "" else tag + Frame(ps[0].0) + Frame(ps[0].1) + EncodePairs(tag, ps[1..])
  }

  function EncodeIssues(issues: seq<string>): string {
    if issues == [] then "" else ISSUE + Frame(issues[0]) + EncodeIssues(issues[1..])
  }

  function Encode(r: Records): string {
    PREFIX + (EncodePairs("", r.files) + (EncodePairs(LINK, r.links) + (EncodePairs(MODULE, r.modules)
      + (EncodePairs(LARGE, r.large) + EncodeIssues(r.issues)))))
  }

  // ---------- Decoding ----------

  /** A framed string and what follows it. */
  function ReadFrame(s: string): Option<(string, string)> {
    var n := Run(s);
    if n == 0 || n >= |s| || s[n] != ':' then None
    else
      var size := Value(s[..n]);
      var rest := s[n + 1..];
      if size > |rest| then None else Some((rest[..size], rest[size..]))
  }

  /** A record with this tag comes next. */
  predicate Starts(tag: string, s: string) {
    tag <= s && |tag| < |s| && IsDigit(s[|tag|])
  }

  function ReadPairs(tag: string, s: string): (Pairs, string)
    decreases |s|
  {
    if !Starts(tag, s) then ([], s)
    else
      match ReadFrame(s[|tag|..])
      case None => ([], s)
      case Some((name, more)) =>
        match ReadFrame(more)
        case None => ([], s)
        case Some((value, rest)) =>
          if |rest| >= |s| then ([], s)
          else
            var (ps, tail) := ReadPairs(tag, rest);
            ([(name, value)] + ps, tail)
  }

  function ReadIssues(s: string): seq<string>
    decreases |s|
  {
    if !Starts(ISSUE, s) then []
    else
      match ReadFrame(s[|ISSUE|..])
      case None => []
      case Some((issue, rest)) => if |rest| >= |s| then [] else [issue] + ReadIssues(rest)
  }

  function Decode(s: string): Option<Records> {
    if !(PREFIX <= s) then None
    else
      var (files, s1) := ReadPairs("", s[|PREFIX|..]);
      var (links, s2) := ReadPairs(LINK, s1);
      var (modules, s3) := ReadPairs(MODULE, s2);
      var (large, s4) := ReadPairs(LARGE, s3);
      Some(Records(files, links, modules, large, ReadIssues(s4)))
  }

  // ---------- Decoding undoes encoding ----------

  lemma FrameReadsBack(s: string, rest: string)
    ensures ReadFrame(Frame(s) + rest) == Some((s, rest))
    ensures IsDigit((Frame(s) + rest)[0])
  {
    hide Print;
    var digits := Print(|s|);
    var after := ":" + (s + rest);
    assert Frame(s) + rest == digits + after;
    RunDelimits(digits, after);
    ValueOfPrint(|s|);
    assert (digits + after)[..|digits|] == digits;
    assert (digits + after)[|digits| + 1..] == s + rest;
    assert (s + rest)[..|s|] == s && (s + rest)[|s|..] == rest;
    assert IsDigit(digits[0]);
  }

  lemma FramedStarts(tag: string, s: string, rest: string)
    ensures Starts(tag, tag + Frame(s) + rest)
    ensures (tag + Frame(s) + rest)[|tag|..] == Frame(s) + rest
  {
    hide Frame;
    FrameReadsBack(s, rest);
    assert tag + Frame(s) + rest == tag + (Frame(s) + rest);
  }

  lemma {:induction false} PairsReadBack(tag: string, ps: Pairs, tail: string)
    requires !Starts(tag, tail)
    ensures ReadPairs(tag, EncodePairs(tag, ps) + tail) == (ps, tail)
  {
    hide Frame, ReadFrame, Starts;
    if ps == [] {
      assert EncodePairs(tag, ps) + tail == tail;
    } else {
      var (name, value) := ps[0];
      var rest := EncodePairs(tag, ps[1..]) + tail;
      var s := EncodePairs(tag, ps) + tail;
      assert s == tag + Frame(name) + (Frame(value) + rest);
      FramedStarts(tag, name, Frame(value) + rest);
      FrameReadsBack(name, Frame(value) + rest);
      FrameReadsBack(value, rest);
      PairsReadBack(tag, ps[1..], tail);
      assert |Frame(value)| > 0 by { FrameNonempty(value); }
      assert [(name, value)] + ps[1..] == ps;
    }
  }

  lemma FrameNonempty(s: string)
    ensures |Frame(s)| > 0
  {
  }

  lemma {:induction false} IssuesReadBack(issues: seq<string>)
    ensures ReadIssues(EncodeIssues(issues)) == issues
  {
    hide Frame, ReadFrame, Starts;
    if issues == [] {
      assert !Starts(ISSUE, "") by { NothingStarts(ISSUE); }
    } else {
      var rest := EncodeIssues(issues[1..]);
      assert EncodeIssues(issues) == ISSUE + Frame(issues[0]) + rest;
      FramedStarts(ISSUE, issues[0], rest);
      FrameReadsBack(issues[0], rest);
      IssuesReadBack(issues[1..]);
      FrameNonempty(issues[0]);
      assert [issues[0]] + issues[1..] == issues;
    }
  }

  lemma NothingStarts(tag: string)
    ensures !Starts(tag, "")
  {
  }

  /** What can follow the records of one kind. */
  predicate Opens(s: string, initials: set<char>) {
    s == "" || s[0] in initials
  }

  lemma PairsOpen(tag: string, ps: Pairs, tail: string, initials: set<char>)
    requires tag != "" && tag[0] in initials && Opens(tail, initials)
    ensures Opens(EncodePairs(tag, ps) + tail, initials)
  {
    hide Frame;
    if ps == [] {
      assert EncodePairs(tag, ps) + tail == tail;
    } else {
      assert (EncodePairs(tag, ps) + tail)[0] == tag[0];
    }
  }

  lemma OtherTag(tag: string, s: string, initials: set<char>)
    requires Opens(s, initials) && tag != "" && tag[0] !in initials
    ensures !Starts(tag, s)
  {
  }

  lemma NoDigit(s: string, initials: set<char>)
    requires Opens(s, initials) && forall c :: c in initials ==> !IsDigit(c)
    ensures !Starts("", s)
  {
  }

  /** The records are recovered from the bytes. */
  lemma DecodeEncode(r: Records)
    ensures Decode(Encode(r)) == Some(r)
  {
    hide EncodePairs, EncodeIssues, ReadPairs, ReadIssues;
    var s4 := EncodeIssues(r.issues);
    var s3 := EncodePairs(LARGE, r.large) + s4;
    var s2 := EncodePairs(MODULE, r.modules) + s3;
    var s1 := EncodePairs(LINK, r.links) + s2;
    var s0 := EncodePairs("", r.files) + s1;
    assert Opens(s4, {'i'}) by { IssuesOpen(r.issues); }
    PairsOpen(LARGE, r.large, s4, {'i', 'l'});
    PairsOpen(MODULE, r.modules, s3, {'i', 'l', 'g'});
    PairsOpen(LINK, r.links, s2, {'i', 'l', 'g', 's'});
    NoDigit(s1, {'i', 'l', 'g', 's'});
    OtherTag(LINK, s2, {'i', 'l', 'g'});
    OtherTag(MODULE, s3, {'i', 'l'});
    OtherTag(LARGE, s4, {'i'});
    PairsReadBack("", r.files, s1);
    PairsReadBack(LINK, r.links, s2);
    PairsReadBack(MODULE, r.modules, s3);
    PairsReadBack(LARGE, r.large, s4);
    IssuesReadBack(r.issues);
    assert Encode(r)[|PREFIX|..] == s0;
  }

  lemma IssuesOpen(issues: seq<string>)
    ensures Opens(EncodeIssues(issues), {'i'})
  {
    hide Frame;
    if issues != [] {
      assert EncodeIssues(issues)[0] == ISSUE[0];
    }
  }

  // ---------- Snapshots ----------

  /** The entries of a map in the order of their names. */
  ghost predicate Lists(ps: Pairs, m: map<string, string>) {
    && (forall i, j :: 0 <= i < j < |ps| ==> Less(ps[i].0, ps[j].0))
    && (forall i :: 0 <= i < |ps| ==> ps[i].0 in m && m[ps[i].0] == ps[i].1)
    && (forall k :: k in m ==> exists i :: 0 <= i < |ps| && ps[i].0 == k)
  }

  ghost predicate Sorted(s: seq<string>) {
    forall i, j :: 0 <= i < j < |s| ==> !Less(s[j], s[i])
  }

  ghost predicate Canonical(r: Records, s: Snapshot) {
    && Lists(r.files, s.files) && Lists(r.links, s.links) && Lists(r.modules, s.modules) && Lists(r.large, s.large)
    && Sorted(r.issues) && multiset(r.issues) == multiset(s.issues)
  }

  /** The same contents, issues counted but not ordered. */
  predicate SameContents(s: Snapshot, t: Snapshot) {
    && s.files == t.files && s.links == t.links && s.modules == t.modules && s.large == t.large
    && multiset(s.issues) == multiset(t.issues)
  }

  lemma ListsDetermine(ps: Pairs, m: map<string, string>, n: map<string, string>)
    requires Lists(ps, m) && Lists(ps, n)
    ensures m == n
  {
    forall k ensures k in m <==> k in n {
    }
  }

  function Names(ps: Pairs): seq<string> {
    seq(|ps|, i requires 0 <= i < |ps| => ps[i].0)
  }

  lemma ListsUnique(ps: Pairs, qs: Pairs, m: map<string, string>)
    requires Lists(ps, m) && Lists(qs, m)
    ensures ps == qs
  {
    forall k ensures k in Names(ps) <==> k in Names(qs) {
      assert k in Names(ps) ==> k in m;
      assert k in Names(qs) ==> k in m;
      if k in m {
        var i :| 0 <= i < |ps| && ps[i].0 == k;
        assert Names(ps)[i] == k;
        var j :| 0 <= j < |qs| && qs[j].0 == k;
        assert Names(qs)[j] == k;
      }
    }
    IncreasingUnique(Names(ps), Names(qs));
    forall i | 0 <= i < |ps| ensures i < |qs| && ps[i] == qs[i] {
      assert Names(ps)[i] == Names(qs)[i];
    }
    assert |Names(ps)| == |Names(qs)|;
  }

  lemma HeadLeast(a: seq<string>, x: string)
    requires Sorted(a) && x in a
    ensures !Less(x, a[0])
  {
    LessTotal(x, x);
  }

  lemma DropHead(a: seq<string>)
    requires a != [] && Sorted(a)
    ensures multiset(a[1..]) == multiset(a) - multiset{a[0]} && Sorted(a[1..])
  {
    assert a == [a[0]] + a[1..];
  }

  lemma {:induction false} SortedUnique(a: seq<string>, b: seq<string>)
    requires Sorted(a) && Sorted(b) && multiset(a) == multiset(b)
    ensures a == b
  {
    hide Sorted;
    assert |a| == |multiset(a)| && |b| == |multiset(b)|;
    if a != [] {
      assert a[0] in multiset(b) && b[0] in multiset(a);
      HeadLeast(a, b[0]);
      HeadLeast(b, a[0]);
      LessTotal(a[0], b[0]);
      DropHead(a);
      DropHead(b);
      SortedUnique(a[1..], b[1..]);
      assert a == [a[0]] + a[1..] && b == [b[0]] + b[1..];
    }
  }

  /** The bytes are the encoding of the snapshot's sorted records. */
  ghost predicate Digests(s: Snapshot, bytes: string) {
    exists r :: Canonical(r, s) && bytes == Encode(r)
  }

  /** The hashed bytes agree exactly when the contents do. */
  lemma DigestIdentifies(s: Snapshot, t: Snapshot, x: string, y: string)
    requires Digests(s, x) && Digests(t, y)
    ensures x == y <==> SameContents(s, t)
  {
    hide Encode, Canonical, SameContents;
    var r :| Canonical(r, s) && x == Encode(r);
    var q :| Canonical(q, t) && y == Encode(q);
    RecordsIdentify(s, t, r, q);
  }

  lemma RecordsIdentify(s: Snapshot, t: Snapshot, r: Records, q: Records)
    requires Canonical(r, s) && Canonical(q, t)
    ensures Encode(r) == Encode(q) <==> SameContents(s, t)
  {
    hide Encode, Decode, Lists, Sorted;
    if Encode(r) == Encode(q) {
      DecodeEncode(r);
      DecodeEncode(q);
      ListsDetermine(r.files, s.files, t.files);
      ListsDetermine(r.links, s.links, t.links);
      ListsDetermine(r.modules, s.modules, t.modules);
      ListsDetermine(r.large, s.large, t.large);
    }
    if SameContents(s, t) {
      ListsUnique(r.files, q.files, s.files);
      ListsUnique(r.links, q.links, s.links);
      ListsUnique(r.modules, q.modules, s.modules);
      ListsUnique(r.large, q.large, s.large);
      SortedUnique(r.issues, q.issues);
    }
  }

  // ---------- Writing the bytes ----------

  /** The records of one kind, appended to what was written before. */
  method WritePairs(written: string, tag: string, m: map<string, string>) returns (bytes: string, ghost ps: Pairs)
    ensures Lists(ps, m) && bytes == written + EncodePairs(tag, ps)
  {
    hide EncodePairs, Frame;
    bytes, ps := written, [];
    var names := SortKeys(m.Keys);
    EncodeNone(tag);
    for i := 0 to |names|
      invariant |ps| == i && forall k :: 0 <= k < i ==> ps[k] == (names[k], m[names[k]])
      invariant bytes == written + EncodePairs(tag, ps)
    {
      var value := m[names[i]];
      EncodeOne(tag, ps, (names[i], value));
      bytes := bytes + tag + Frame(names[i]) + Frame(value);
      ps := ps + [(names[i], value)];
    }
  }

  lemma EncodeNone(tag: string)
    ensures EncodePairs(tag, []) == "" && EncodeIssues([]) == ""
  {
  }

  lemma {:induction false} EncodeOne(tag: string, ps: Pairs, p: (string, string))
    ensures EncodePairs(tag, ps + [p]) == EncodePairs(tag, ps) + tag + Frame(p.0) + Frame(p.1)
  {
    hide Frame;
    if ps == [] {
      assert [p][1..] == [];
    } else {
      EncodeOne(tag, ps[1..], p);
      assert (ps + [p])[1..] == ps[1..] + [p];
      var first := tag + Frame(ps[0].0) + Frame(ps[0].1);
      assert first + (EncodePairs(tag, ps[1..]) + tag + Frame(p.0) + Frame(p.1))
          == first + EncodePairs(tag, ps[1..]) + tag + Frame(p.0) + Frame(p.1);
    }
  }

  lemma {:induction false} EncodeOneIssue(issues: seq<string>, issue: string)
    ensures EncodeIssues(issues + [issue]) == EncodeIssues(issues) + ISSUE + Frame(issue)
  {
    hide Frame;
    if issues == [] {
      assert [issue][1..] == [];
    } else {
      EncodeOneIssue(issues[1..], issue);
      assert (issues + [issue])[1..] == issues[1..] + [issue];
      var first := ISSUE + Frame(issues[0]);
      assert first + (EncodeIssues(issues[1..]) + ISSUE + Frame(issue))
          == first + EncodeIssues(issues[1..]) + ISSUE + Frame(issue);
    }
  }

  function Place(s: string, list: seq<string>): (r: seq<string>)
    requires Sorted(list)
    ensures Sorted(r) && multiset(r) == multiset(list) + multiset{s}
  {
    if list == [] then [s]
    else if Less(s, list[0]) then
      PlaceFirst(s, list);
      [s] + list
    else
      assert list == [list[0]] + list[1..];
      var rest := Place(s, list[1..]);
      PlaceLater(s, list, rest);
      [list[0]] + rest
  }

  lemma PlaceFirst(s: string, list: seq<string>)
    requires Sorted(list) && list != [] && Less(s, list[0])
    ensures Sorted([s] + list)
  {
    forall j | 0 <= j < |list| ensures !Less(list[j], s) {
      LessTotal(list[j], s);
      if Less(list[j], s) {
        LessTransitive(list[j], s, list[0]);
        LessTotal(list[0], list[0]);
      }
    }
  }

  lemma PlaceLater(s: string, list: seq<string>, rest: seq<string>)
    requires Sorted(list) && list != [] && !Less(s, list[0])
    requires Sorted(rest) && multiset(rest) == multiset(list[1..]) + multiset{s}
    ensures Sorted([list[0]] + rest)
  {
    forall j | 0 <= j < |rest| ensures !Less(rest[j], list[0]) {
      assert rest[j] in multiset(rest);
      if rest[j] != s {
        assert rest[j] in list[1..];
      }
    }
  }

  /** Sorts the issues, keeping repetitions. */
  function SortStrings(list: seq<string>): (r: seq<string>)
    ensures Sorted(r) && multiset(r) == multiset(list)
  {
    if list == [] then []
    else
      assert list == [list[0]] + list[1..];
      Place(list[0], SortStrings(list[1..]))
  }

  /** Everything `Digest` writes to the hash. */
  method DigestBytes(s: Snapshot) returns (bytes: string)
    ensures Digests(s, bytes)
  {
    hide EncodePairs, EncodeIssues, Lists, Sorted, Frame;
    ghost var files, links, modules, large;
    bytes, files := WritePairs(PREFIX, "", s.files);
    bytes, links := WritePairs(bytes, LINK, s.links);
    bytes, modules := WritePairs(bytes, MODULE, s.modules);
    bytes, large := WritePairs(bytes, LARGE, s.large);
    var issues := SortStrings(s.issues);
    ghost var before := bytes;
    EncodeNone("");
    for i := 0 to |issues|
      invariant bytes == before + EncodeIssues(issues[..i])
    {
      assert issues[..i + 1] == issues[..i] + [issues[i]];
      EncodeOneIssue(issues[..i], issues[i]);
      bytes := bytes + ISSUE + Frame(issues[i]);
    }
    assert issues[..|issues|] == issues;
    ghost var r := Records(files, links, modules, large, issues);
    assert Canonical(r, s) && bytes == Encode(r);
  }
}
