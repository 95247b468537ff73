/** The default capacity test of a group of fragments: files, changed lines, and the
    length of the joined patches. */
module Capacity {
  import opened Basics
  import opened Identifiers
  import opened MergeSteps

  datatype Limits = Limits(maxFiles: nat, maxChangedLines: nat, maxDiffSize: nat)

  datatype Patch = Patch(path: string, changedLines: nat, diff: string)

  const PATH_MARK := "// "
  const NEWLINE := "\n"

  /** A patch as it stands among others. */
  function Shown(p: Patch, many: bool): string {
    if many then PATH_MARK + p.path + NEWLINE + p.diff else p.diff
  }

  function Texts(of: string -> Patch, ids: seq<string>, many: bool): seq<string> {
    if ids == [] then [] else [Shown(of(ids[0]), many)] + Texts(of, ids[1..], many)
  }

  function DiffSize(of: string -> Patch, ids: seq<string>): nat {
    |Join(Texts(of, ids, |ids| > 1), NEWLINE)|
  }

  function Files(of: string -> Patch, ids: seq<string>): set<string> {
    set id | id in ids :: of(id).path
  }

  function Lines(of: string -> Patch, ids: seq<string>): nat {
    if ids == [] then 0 else Lines(of, ids[..|ids| - 1]) + of(ids[|ids| - 1]).changedLines
  }

  predicate Fits(of: string -> Patch, limits: Limits, ids: seq<string>) {
    && |Files(of, ids)| <= limits.maxFiles && Lines(of, ids) <= limits.maxChangedLines
    && DiffSize(of, ids) <= limits.maxDiffSize
  }

  lemma FilesGrow(of: string -> Patch, ids: seq<string>, i: nat)
    requires i <= |ids|
    ensures Files(of, ids[..i]) <= Files(of, ids) && |Files(of, ids[..i])| <= |Files(of, ids)|
  {
    SubsetSize(Files(of, ids[..i]), Files(of, ids));
  }

  lemma SubsetSize(a: set<string>, b: set<string>)
    requires a <= b
    ensures |a| <= |b|
  {
    assert b == a + (b - a);
  }

  lemma {:induction false} LinesGrow(of: string -> Patch, ids: seq<string>, i: nat)
    requires i <= |ids|
    ensures Lines(of, ids[..i]) <= Lines(of, ids)
  {
    if i < |ids| {
      var init := ids[..|ids| - 1];
      assert init[..i] == ids[..i];
      LinesGrow(of, init, i);
    } else {
      assert ids[..i] == ids;
    }
  }

  lemma OneMore(of: string -> Patch, ids: seq<string>, i: nat)
    requires i < |ids|
    ensures Files(of, ids[..i + 1]) == Files(of, ids[..i]) + {of(ids[i]).path}
    ensures Lines(of, ids[..i + 1]) == Lines(of, ids[..i]) + of(ids[i]).changedLines
  {
    assert ids[..i + 1][..i] == ids[..i] && ids[..i + 1] == ids[..i] + [ids[i]];
  }

  lemma NoneYet(of: string -> Patch)
    ensures Files(of, []) == {} && Lines(of, []) == 0
  {
  }

  lemma FitsMeans(of: string -> Patch, limits: Limits, ids: seq<string>)
    ensures Fits(of, limits, ids) <==>
            |Files(of, ids)| <= limits.maxFiles && Lines(of, ids) <= limits.maxChangedLines
            && DiffSize(of, ids) <= limits.maxDiffSize
  {
  }

  /** The closure with its early exit on the cheap limits. */
  method CheckFits(of: string -> Patch, limits: Limits, ids: seq<string>) returns (ok: bool)
    ensures ok <==> Fits(of, limits, ids)
    ensures ok <==>
              && |set id | id in ids :: of(id).path| <= limits.maxFiles && Changed(of, ids) <= limits.maxChangedLines
              && JoinedLength(of, ids) <= limits.maxDiffSize
  {
    hide *;
    var files: set<string>, lines := {}, 0;
    FitsCounts(of, limits, ids);
    FitsMeans(of, limits, ids);
    NoneYet(of);
    for i := 0 to |ids|
      invariant files == Files(of, ids[..i]) && lines == Lines(of, ids[..i])
      invariant |files| <= limits.maxFiles && lines <= limits.maxChangedLines
    {
      OneMore(of, ids, i);
      files := files + {of(ids[i]).path};
      lines := lines + of(ids[i]).changedLines;
      if |files| > limits.maxFiles || lines > limits.maxChangedLines {
        FilesGrow(of, ids, i + 1);
        LinesGrow(of, ids, i + 1);
        return false;
      }
    }
    assert ids[..|ids|] == ids;
    ok := DiffSize(of, ids) <= limits.maxDiffSize;
  }

  // ---------- Smaller groups fit ----------

  /** The length of a join, counted patch by patch: each has a line with its path, and
      lines end between them. */
  function Weight(of: string -> Patch, ids: seq<string>): nat {
    if ids == [] then 0 else |of(ids[0]).path| + |of(ids[0]).diff| + 5 + Weight(of, ids[1..])
  }

  /** The length of what is joined: a patch alone is shown as it is. */
  function JoinedLength(of: string -> Patch, ids: seq<string>): nat {
    if ids == [] then 0
    else if |ids| == 1 then |of(ids[0]).diff|
    else Weight(of, ids) - 1
  }

  /** The capacity test counts distinct paths, changed lines and characters. */
  lemma FitsCounts(of: string -> Patch, limits: Limits, ids: seq<string>)
    ensures Fits(of, limits, ids) <==>
              && |set id | id in ids :: of(id).path| <= limits.maxFiles && Changed(of, ids) <= limits.maxChangedLines
              && JoinedLength(of, ids) <= limits.maxDiffSize
  {
    LinesSum(of, ids);
    if |ids| == 1 {
      assert Texts(of, ids, false)[1..] == [] && Texts(of, ids, false)[0] == of(ids[0]).diff;
    } else if ids != [] {
      JoinedWeight(of, ids);
    }
  }

  function Changed(of: string -> Patch, ids: seq<string>): nat {
    if ids == [] then 0 else of(ids[0]).changedLines + Changed(of, ids[1..])
  }

  lemma {:induction false} JoinedWeight(of: string -> Patch, ids: seq<string>)
    requires ids != []
    ensures |Join(Texts(of, ids, true), NEWLINE)| == Weight(of, ids) - 1
  {
    if |ids| > 1 {
      JoinedWeight(of, ids[1..]);
      assert Texts(of, ids, true)[1..] == Texts(of, ids[1..], true);
    } else {
      assert ids[1..] == [] && Texts(of, ids, true)[1..] == [];
    }
  }

  lemma {:induction false} LinesSum(of: string -> Patch, ids: seq<string>)
    ensures Lines(of, ids) == Changed(of, ids)
  {
    if |ids| > 0 {
      LinesSum(of, ids[1..]);
      LinesFirst(of, ids);
    }
  }

  lemma {:induction false} LinesFirst(of: string -> Patch, ids: seq<string>)
    requires ids != []
    ensures Lines(of, ids) == of(ids[0]).changedLines + Lines(of, ids[1..])
  {
    if |ids| > 1 {
      var init := ids[..|ids| - 1];
      LinesFirst(of, init);
      assert init[1..] == ids[1..][..|ids| - 2];
    } else {
      assert ids[..0] == [] && ids[1..] == [];
    }
  }

  /** Over canonical groups, fewer members weigh less. */
  lemma {:induction false} SubgroupWeighsLess(of: string -> Patch, a: seq<string>, b: seq<string>)
    requires Increasing(a) && Increasing(b) && Members(a) <= Members(b)
    ensures Weight(of, a) <= Weight(of, b) && Changed(of, a) <= Changed(of, b) && |a| <= |b|
    decreases |b|
  {
    if a != [] {
      assert a[0] in Members(b);
      if a[0] == b[0] {
        TailMembers(a, b);
        SubgroupWeighsLess(of, a[1..], b[1..]);
      } else {
        SkipHead(a, b);
        SubgroupWeighsLess(of, a, b[1..]);
      }
    }
  }

  lemma TailMembers(a: seq<string>, b: seq<string>)
    requires Increasing(a) && Increasing(b) && a != [] && b != [] && a[0] == b[0] && Members(a) <= Members(b)
    ensures Members(a[1..]) <= Members(b[1..])
  {
    forall id | id in a[1..] ensures id in b[1..] {
      var i :| 1 <= i < |a| && a[i] == id;
      LessTotal(a[0], a[i]);
      assert id in Members(a);
    }
  }

  lemma SkipHead(a: seq<string>, b: seq<string>)
    requires Increasing(a) && Increasing(b) && a != [] && b != [] && a[0] != b[0] && Members(a) <= Members(b)
    ensures Members(a) <= Members(b[1..])
  {
    assert a[0] in Members(b);
    var k :| 0 <= k < |b| && b[k] == a[0];
    forall id | id in a ensures id in b[1..] {
      assert id in Members(b);
      var i :| 0 <= i < |a| && a[i] == id;
      if id == b[0] {
        LessTotal(b[0], a[0]);
        LessTotal(a[0], a[i]);
      }
    }
  }

  /** The `fits` closure of the default size. */
  function Default(of: string -> Patch, limits: Limits): MergeSteps.Capacity {
    (ids: seq<string>) => Fits(of, limits, ids)
  }

  /** The default capacity is downward closed. */
  lemma FitsDownwardClosed(of: string -> Patch, limits: Limits)
    ensures DownwardClosed(Default(of, limits))
  {
    forall a, b | Increasing(a) && Increasing(b) && Members(a) <= Members(b) && Fits(of, limits, b)
      ensures Fits(of, limits, a)
    {
      SmallerFits(of, limits, a, b);
    }
  }

  lemma SmallerFits(of: string -> Patch, limits: Limits, a: seq<string>, b: seq<string>)
    requires Increasing(a) && Increasing(b) && Members(a) <= Members(b) && Fits(of, limits, b)
    ensures Fits(of, limits, a)
  {
    hide Increasing;
    SubgroupWeighsLess(of, a, b);
    LinesSum(of, a);
    LinesSum(of, b);
    forall p | p in Files(of, a) ensures p in Files(of, b) {
      var id :| id in a && of(id).path == p;
      assert id in Members(a);
    }
    SubsetSize(Files(of, a), Files(of, b));
    if |a| == 1 && |b| == 1 {
      assert a[0] in Members(b);
    }
    SizeShrinks(of, a, b);
  }

  lemma SizeShrinks(of: string -> Patch, a: seq<string>, b: seq<string>)
    requires Weight(of, a) <= Weight(of, b) && |a| <= |b|
    requires |a| == 1 && |b| == 1 ==> a == b
    ensures DiffSize(of, a) <= DiffSize(of, b)
  {
    if |a| > 1 {
      JoinedWeight(of, a);
      JoinedWeight(of, b);
    } else if |a| == 1 && |b| > 1 {
      JoinedWeight(of, a);
      JoinedWeight(of, b);
      assert Texts(of, a, false) == [Shown(of(a[0]), false)];
      assert Texts(of, a, true) == [Shown(of(a[0]), true)];
    }
  }
}
