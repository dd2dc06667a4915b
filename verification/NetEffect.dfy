/**
 The net effect of step sequences: the diffs of a fully covered revision range with unchanged
 paths dropped, and the operations of one edit call merged path by path.
 */
module NetEffect {
  import opened Basics
  import opened RevisionCoverage

  // ---------- Net change of a revision range ----------

  /** The endpoint hashes of one path. */
  datatype Ends = Ends(before: string, after: string)

  /** Content hashes by path; an absent path has the empty hash. */
  type Hashes = map<string, string>

  function HashOf(h: Hashes, path: string): string { if path in h then h[path] else "" }

  /** The hashes after the first n diffs. */
  function Replay(h: Hashes, known: seq<Diff>, n: nat): Hashes
    requires n <= |known|
  {
    if n == 0 then h else Replay(h, known, n - 1)[known[n - 1].path := known[n - 1].after]
  }

  /** Each diff starts from the hash the ones before it left. */
  predicate Consistent(h: Hashes, known: seq<Diff>, n: nat)
    requires n <= |known|
  {
    n == 0 || (Consistent(h, known, n - 1) && known[n - 1].before == HashOf(Replay(h, known, n - 1), known[n - 1].path))
  }

  /** First before and last after, for every path of the first n diffs. */
  function EndsByPath(known: seq<Diff>, n: nat): map<string, Ends>
    requires n <= |known|
  {
    if n == 0 then map[]
    else
      var m, d := EndsByPath(known, n - 1), known[n - 1];
      m[d.path := Ends(if d.path in m then m[d.path].before else d.before, d.after)]
  }

  predicate Unchanged(e: Ends) { e.before != "" && e.before == e.after }

  function Kept(known: seq<Diff>, n: nat, byPath: map<string, Ends>): seq<Diff>
    requires n <= |known|
  {
    if n == 0 then []
    else Kept(known, n - 1, byPath) +
         (if known[n - 1].path in byPath && Unchanged(byPath[known[n - 1].path]) then [] else [known[n - 1]])
  }

  function ChangedPaths(byPath: map<string, Ends>): (s: set<string>) { set p | p in byPath && !Unchanged(byPath[p]) }

  method EndpointsByPath(known: seq<Diff>) returns (byPath: map<string, Ends>)
    ensures byPath == EndsByPath(known, |known|)
  {
    byPath := map[];
    for i := 0 to |known|
      invariant byPath == EndsByPath(known, i)
    {
      var ends := if known[i].path in byPath then byPath[known[i].path] else Ends(known[i].before, "");
      byPath := byPath[known[i].path := ends.(after := known[i].after)];
    }
  }

  /** The counting and dropping of completeRevisionDiff. */
  method NetChange(known: seq<Diff>) returns (diffs: seq<Diff>, netChangedPaths: nat)
    ensures diffs == Kept(known, |known|, EndsByPath(known, |known|))
    ensures netChangedPaths == |ChangedPaths(EndsByPath(known, |known|))|
  {
    var byPath := EndpointsByPath(known);
    diffs := [];
    for i := 0 to |known|
      invariant diffs == Kept(known, i, byPath)
    {
      PathSeen(known, |known|, i);
      var ends := byPath[known[i].path];
      if !(ends.before != "" && ends.before == ends.after) { diffs := diffs + [known[i]]; }
    }
    netChangedPaths := CountChanged(byPath);
  }

  method CountChanged(byPath: map<string, Ends>) returns (count: nat)
    ensures count == |ChangedPaths(byPath)|
  {
    count := 0;
    var rest := byPath.Keys;
    assert CountedPaths(byPath, rest) == {};
    while rest != {}
      invariant rest <= byPath.Keys && count == |CountedPaths(byPath, rest)|
      decreases |rest|
    {
      var p :| p in rest;
      CountOne(byPath, rest, p);
      if byPath[p].before == "" || byPath[p].before != byPath[p].after { count := count + 1; }
      rest := rest - {p};
    }
    assert CountedPaths(byPath, {}) == ChangedPaths(byPath);
  }

  /** The changed paths apart from those still ahead. */
  function CountedPaths(byPath: map<string, Ends>, rest: set<string>): (s: set<string>) {
    set p | p in byPath && p !in rest && !Unchanged(byPath[p])
  }

  lemma CountOne(byPath: map<string, Ends>, rest: set<string>, p: string)
    requires p in rest && p in byPath
    ensures |CountedPaths(byPath, rest - {p})| == |CountedPaths(byPath, rest)| + if Unchanged(byPath[p]) then 0 else 1
  {
    if Unchanged(byPath[p]) {
      assert CountedPaths(byPath, rest - {p}) == CountedPaths(byPath, rest);
    } else {
      assert CountedPaths(byPath, rest - {p}) == CountedPaths(byPath, rest) + {p};
    }
  }

  lemma {:induction false} PathSeen(known: seq<Diff>, n: nat, i: nat)
    requires i < n <= |known|
    ensures known[i].path in EndsByPath(known, n)
  {
    if i < n - 1 { PathSeen(known, n - 1, i); }
  }

  /** For consistent steps the recorded endpoints are the hashes at both ends of the range. */
  lemma {:induction false} EndsAreHashes(h: Hashes, known: seq<Diff>, n: nat, path: string)
    requires n <= |known| && Consistent(h, known, n)
    ensures path in EndsByPath(known, n) ==>
              EndsByPath(known, n)[path] == Ends(HashOf(h, path), HashOf(Replay(h, known, n), path))
    ensures path !in EndsByPath(known, n) ==> HashOf(Replay(h, known, n), path) == HashOf(h, path)
  {
    if n > 0 { EndsAreHashes(h, known, n - 1, path); }
  }

  lemma {:induction false} KeptIff(known: seq<Diff>, n: nat, byPath: map<string, Ends>, d: Diff)
    requires n <= |known|
    ensures d in Kept(known, n, byPath) <==> d in known[..n] && !(d.path in byPath && Unchanged(byPath[d.path]))
  {
    if n > 0 {
      KeptIff(known, n - 1, byPath, d);
      assert known[..n] == known[..n - 1] + [known[n - 1]];
    }
  }

  /** In a range of consistent steps a path's diffs are dropped exactly when its known hash at both
      ends is the same. A path absent at both ends keeps its diffs. */
  lemma DroppedIffSameEnds(h: Hashes, known: seq<Diff>, d: Diff)
    requires Consistent(h, known, |known|) && d in known
    ensures d !in Kept(known, |known|, EndsByPath(known, |known|)) <==>
            HashOf(h, d.path) != "" && HashOf(h, d.path) == HashOf(Replay(h, known, |known|), d.path)
  {
    var i :| 0 <= i < |known| && known[i] == d;
    PathSeen(known, |known|, i);
    EndsAreHashes(h, known, |known|, d.path);
    KeptIff(known, |known|, EndsByPath(known, |known|), d);
    assert known[..|known|] == known;
  }

  /** The path has a diff in the range. */
  predicate Touched(known: seq<Diff>, path: string) { exists i :: 0 <= i < |known| && known[i].path == path }

  lemma {:induction false} EndsOfTouched(known: seq<Diff>, n: nat, path: string)
    requires n <= |known|
    ensures path in EndsByPath(known, n) <==> exists i :: 0 <= i < n && known[i].path == path
  {
    if n > 0 { EndsOfTouched(known, n - 1, path); }
  }

  /** A path is counted as changed exactly when it has a diff and its hash at the start is not known or
      differs from the one at the end. */
  lemma ChangedIffHashDiffers(h: Hashes, known: seq<Diff>, path: string)
    requires Consistent(h, known, |known|)
    ensures path in ChangedPaths(EndsByPath(known, |known|)) <==>
            Touched(known, path) && (HashOf(h, path) == "" || HashOf(h, path) != HashOf(Replay(h, known, |known|), path))
  {
    EndsAreHashes(h, known, |known|, path);
    EndsOfTouched(known, |known|, path);
  }

  // ---------- Merging the operations of one edit call ----------

  /** A file's bytes, or none. */
  datatype Content = Absent | Bytes(text: string)

  datatype FileChange = FileChange(path: string, before: Content, after: Content, patch: string)

  type Files = map<string, Content>

  function ContentOf(fs: Files, path: string): Content { if path in fs then fs[path] else Absent }

  function ApplyAll(fs: Files, changes: seq<FileChange>, n: nat): Files
    requires n <= |changes|
  {
    if n == 0 then fs else ApplyAll(fs, changes, n - 1)[changes[n - 1].path := changes[n - 1].after]
  }

  predicate Follows(fs: Files, changes: seq<FileChange>, n: nat)
    requires n <= |changes|
  {
    n == 0 || (Follows(fs, changes, n - 1) && changes[n - 1].before == ContentOf(ApplyAll(fs, changes, n - 1), changes[n - 1].path))
  }

  ghost predicate OncePerPath(files: seq<FileChange>) { forall i, j :: 0 <= i < j < |files| ==> files[i].path != files[j].path }

  function Find(files: seq<FileChange>, path: string, i: nat): (k: nat)
    requires i <= |files|
    ensures i <= k <= |files| && (k < |files| ==> files[k].path == path)
    ensures forall j :: i <= j < k ==> files[j].path != path
    decreases |files| - i
  {
    if i == |files| || files[i].path == path then i else Find(files, path, i + 1)
  }

  /** One change folded into the record: the first before stays, the last after wins. */
  function Fold(files: seq<FileChange>, c: FileChange): seq<FileChange> {
    var k := Find(files, c.path, 0);
    if k < |files| then files[k := files[k].(after := c.after, patch := files[k].patch + c.patch)] else files + [c]
  }

  function FoldAll(files: seq<FileChange>, changes: seq<FileChange>, n: nat): seq<FileChange>
    requires n <= |changes|
  {
    if n == 0 then files else Fold(FoldAll(files, changes, n - 1), changes[n - 1])
  }

  /** What one operation of an edit call did, beside its files. */
  datatype Effects = Effects(
    patches: seq<string>, revisions: map<string, string>, replacements: nat, warnings: seq<string>, locations: seq<string>,
    next: seq<string>, noFormat: set<string>, git: map<string, string>, source: Option<string>)

  /** Lists follow one another, entries by path are overwritten, sets grow, a described source replaces
      the earlier one. */
  function Accumulate(a: Effects, b: Effects): Effects {
    Effects(a.patches + b.patches, a.revisions + b.revisions, a.replacements + b.replacements, a.warnings + b.warnings,
            a.locations + b.locations, a.next + b.next, a.noFormat + b.noFormat, a.git + b.git,
            if b.source.Some? then b.source else a.source)
  }

  const NoEffects: Effects := Effects([], map[], 0, [], [], [], {}, map[], None)

  lemma MapsAssociate(a: map<string, string>, b: map<string, string>, c: map<string, string>)
    ensures a + b + c == a + (b + c)
  {
  }

  /** Merging is associative, so a list of operations has one accumulated effect however it is grouped. */
  lemma AccumulateAssociative(a: Effects, b: Effects, c: Effects)
    ensures Accumulate(Accumulate(a, b), c) == Accumulate(a, Accumulate(b, c))
  {
    Associate(a.patches, b.patches, c.patches);
    Associate(a.warnings, b.warnings, c.warnings);
    Associate(a.locations, b.locations, c.locations);
    Associate(a.next, b.next, c.next);
    MapsAssociate(a.revisions, b.revisions, c.revisions);
    MapsAssociate(a.git, b.git, c.git);
  }

  /** The effects of the first n operations together. */
  function AccumulateAll(effects: seq<Effects>, n: nat): Effects
    requires n <= |effects|
  {
    if n == 0 then NoEffects else Accumulate(AccumulateAll(effects, n - 1), effects[n - 1])
  }

  /** Of several operations the last one that gives a path a revision, or a git state, wins, and so does
      the last one that describes a source. */
  lemma {:induction false} LastWins(effects: seq<Effects>, n: nat, path: string, i: nat)
    requires i < n <= |effects|
    ensures var all := AccumulateAll(effects, n);
            && (path in effects[i].revisions && (forall j :: i < j < n ==> path !in effects[j].revisions) ==>
                  path in all.revisions && all.revisions[path] == effects[i].revisions[path])
            && (path in effects[i].git && (forall j :: i < j < n ==> path !in effects[j].git) ==>
                  path in all.git && all.git[path] == effects[i].git[path])
            && (effects[i].source.Some? && (forall j :: i < j < n ==> effects[j].source.None?) ==> all.source == effects[i].source)
    decreases n
  {
    if i < n - 1 { LastWins(effects, n - 1, path, i); }
  }

  /** The accumulated record of an edit call. */
  class AppliedEdit {
    var files: seq<FileChange>
    var patches: seq<string>
    var revisions: map<string, string>
    var replacements: nat
    var warnings: seq<string>
    var locations: seq<string>
    var next: seq<string>
    var noFormat: set<string>
    var git: map<string, string>
    var source: Option<string>

    ghost function Totals(): Effects
      reads this
    {
      Effects(patches, revisions, replacements, warnings, locations, next, noFormat, git, source)
    }

    constructor ()
      ensures files == [] && Totals() == NoEffects
    {
      files, patches, revisions, replacements, warnings := [], [], map[], 0, [];
      locations, next, noFormat, git, source := [], [], {}, map[], None;
    }

    /** Merges one file: updated in place at its first entry, or appended. */
    method MergeFile(c: FileChange)
      modifies this`files
      ensures files == Fold(old(files), c)
    {
      var found := false;
      var index := 0;
      while index < |files|
        invariant 0 <= index <= |files| && files == old(files) && !found
        invariant forall j :: 0 <= j < index ==> files[j].path != c.path
      {
        if files[index].path == c.path {
          files := files[index := files[index].(after := c.after, patch := files[index].patch + c.patch)];
          found := true;
          break;
        }
        index := index + 1;
      }
      if !found { files := files + [c]; }
    }

    /** The file loop of mergeApplied. */
    method MergeFiles(applied: seq<FileChange>)
      modifies this`files
      ensures files == FoldAll(old(files), applied, |applied|)
    {
      for i := 0 to |applied|
        invariant files == FoldAll(old(files), applied, i)
      {
        MergeFile(applied[i]);
      }
    }

    method MergeLists(effects: Effects)
      modifies this`patches, this`warnings, this`locations, this`next
      ensures patches == old(patches) + effects.patches && warnings == old(warnings) + effects.warnings
      ensures locations == old(locations) + effects.locations && next == old(next) + effects.next
    {
      patches, warnings := patches + effects.patches, warnings + effects.warnings;
      locations, next := locations + effects.locations, next + effects.next;
    }

    /** Its lists, maps and counts. */
    method MergeEffects(effects: Effects)
      modifies this
      ensures Totals() == Accumulate(old(Totals()), effects) && files == old(files)
    {
      MergeLists(effects);
      revisions, git := revisions + effects.revisions, git + effects.git;
      replacements, noFormat := replacements + effects.replacements, noFormat + effects.noFormat;
      if effects.source.Some? { source := effects.source; }
    }

    /** mergeApplied. */
    method Merge(applied: seq<FileChange>, effects: Effects)
      modifies this
      ensures files == FoldAll(old(files), applied, |applied|)
      ensures Totals() == Accumulate(old(Totals()), effects)
    {
      MergeFiles(applied);
      MergeEffects(effects);
    }
  }

  /** The record against the files before and after: every entry starts at the original content and
      ends at the current one, and every other path is as it was. */
  ghost predicate Summarises(files: seq<FileChange>, fs: Files, now: Files) {
    && OncePerPath(files)
    && (forall i :: 0 <= i < |files| ==> files[i].before == ContentOf(fs, files[i].path) && files[i].after == ContentOf(now, files[i].path))
    && (forall p :: Find(files, p, 0) == |files| ==> ContentOf(now, p) == ContentOf(fs, p))
  }

  lemma FoldOthers(files: seq<FileChange>, c: FileChange, p: string)
    ensures Find(Fold(files, c), p, 0) == |Fold(files, c)| <==> p != c.path && Find(files, p, 0) == |files|
  {
    var k, r := Find(files, c.path, 0), Fold(files, c);
    assert forall i :: 0 <= i < |files| ==> r[i].path == files[i].path;
    if k < |files| { assert r[k].path == c.path; } else { assert r[|files|].path == c.path; }
  }

  lemma FoldOnce(files: seq<FileChange>, c: FileChange)
    requires OncePerPath(files)
    ensures OncePerPath(Fold(files, c))
  {
    var r := Fold(files, c);
    assert forall i :: 0 <= i < |files| ==> r[i].path == files[i].path;
  }

  lemma FoldEntry(files: seq<FileChange>, fs: Files, now: Files, c: FileChange, i: nat)
    requires Summarises(files, fs, now) && c.before == ContentOf(now, c.path) && i < |Fold(files, c)|
    ensures var e := Fold(files, c)[i]; e.before == ContentOf(fs, e.path) && e.after == ContentOf(now[c.path := c.after], e.path)
  {
    var k := Find(files, c.path, 0);
    if i < |files| && i != k && k < |files| {
      if i < k { assert files[i].path != files[k].path; } else { assert files[k].path != files[i].path; }
    }
  }

  lemma FoldSummarises(files: seq<FileChange>, fs: Files, now: Files, c: FileChange)
    requires Summarises(files, fs, now) && c.before == ContentOf(now, c.path)
    ensures Summarises(Fold(files, c), fs, now[c.path := c.after])
  {
    var r, next := Fold(files, c), now[c.path := c.after];
    FoldOnce(files, c);
    forall i | 0 <= i < |r| ensures r[i].before == ContentOf(fs, r[i].path) && r[i].after == ContentOf(next, r[i].path) {
      FoldEntry(files, fs, now, c, i);
    }
    forall p | Find(r, p, 0) == |r| ensures ContentOf(next, p) == ContentOf(fs, p) { FoldOthers(files, c, p); }
  }

  /** Each merge keeps the record a summary of everything done so far. */
  lemma {:induction false} MergeSummarises(files: seq<FileChange>, fs: Files, now: Files, changes: seq<FileChange>, n: nat)
    requires n <= |changes| && Summarises(files, fs, now) && Follows(now, changes, n)
    ensures Summarises(FoldAll(files, changes, n), fs, ApplyAll(now, changes, n))
  {
    if n > 0 {
      MergeSummarises(files, fs, now, changes, n - 1);
      FoldSummarises(FoldAll(files, changes, n - 1), fs, ApplyAll(now, changes, n - 1), changes[n - 1]);
    }
  }

  lemma {:induction false} ApplySummary(files: seq<FileChange>, fs: Files, now: Files, n: nat, path: string)
    requires n <= |files| && Summarises(files, fs, now)
    ensures ContentOf(ApplyAll(fs, files, n), path) ==
            if Find(files, path, 0) < n then ContentOf(now, path) else ContentOf(fs, path)
  {
    if n > 0 { ApplySummary(files, fs, now, n - 1, path); }
  }

  /** The record after a list of operations, one merge each. */
  function MergedFiles(operations: seq<seq<FileChange>>, n: nat): seq<FileChange>
    requires n <= |operations|
  {
    if n == 0 then [] else FoldAll(MergedFiles(operations, n - 1), operations[n - 1], |operations[n - 1]|)
  }

  function FilesAfter(fs: Files, operations: seq<seq<FileChange>>, n: nat): Files
    requires n <= |operations|
  {
    if n == 0 then fs else ApplyAll(FilesAfter(fs, operations, n - 1), operations[n - 1], |operations[n - 1]|)
  }

  /** Each operation is located against the bytes the ones before it left. */
  predicate Located(fs: Files, operations: seq<seq<FileChange>>, n: nat)
    requires n <= |operations|
  {
    n == 0 || (Located(fs, operations, n - 1) && Follows(FilesAfter(fs, operations, n - 1), operations[n - 1], |operations[n - 1]|))
  }

  lemma {:induction false} OperationsSummarised(fs: Files, operations: seq<seq<FileChange>>, n: nat)
    requires n <= |operations| && Located(fs, operations, n)
    ensures Summarises(MergedFiles(operations, n), fs, FilesAfter(fs, operations, n))
  {
    if n > 0 {
      OperationsSummarised(fs, operations, n - 1);
      MergeSummarises(MergedFiles(operations, n - 1), fs, FilesAfter(fs, operations, n - 1), operations[n - 1], |operations[n - 1]|);
    }
  }

  /** The merged record has one entry per path, and applying it to the original files gives the files
      after all the operations. */
  lemma MergedNetEffect(fs: Files, operations: seq<seq<FileChange>>, path: string)
    requires Located(fs, operations, |operations|)
    ensures var merged := MergedFiles(operations, |operations|);
            && OncePerPath(merged)
            && ContentOf(ApplyAll(fs, merged, |merged|), path) == ContentOf(FilesAfter(fs, operations, |operations|), path)
  {
    var merged, now := MergedFiles(operations, |operations|), FilesAfter(fs, operations, |operations|);
    OperationsSummarised(fs, operations, |operations|);
    ApplySummary(merged, fs, now, |merged|, path);
  }
}
