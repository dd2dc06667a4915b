/**
 Byte edits proposed by a language server, turned into a chain of replace_range operations that
 are applied from the end of each file backwards.
 */
module RangeEdits {
  import opened Basics
  import opened Sorting
  import opened Decimals

  /** Replaces the bytes from `start` up to `end`; an absent or malformed offset is -1. */
  datatype Edit = Edit(start: int, end: int, text: string)

  // ---------- Replacing all ranges at once ----------

  /** The text of the edit that starts at p, among the first n. */
  function TextAt(edits: seq<Edit>, n: nat, p: int): string
    requires n <= |edits|
  {
    if n == 0 then "" else if edits[n - 1].start == p then edits[n - 1].text else TextAt(edits, n - 1, p)
  }

  predicate Covered(edits: seq<Edit>, n: nat, p: nat)
    requires n <= |edits|
  {
    exists i :: 0 <= i < n && edits[i].start <= p < edits[i].end
  }

  /** What the byte at p becomes: the text inserted before it, and the byte itself unless replaced. */
  function Piece(doc: string, edits: seq<Edit>, n: nat, p: nat): string
    requires n <= |edits| && p < |doc|
  {
    TextAt(edits, n, p) + if Covered(edits, n, p) then "" else [doc[p]]
  }

  /** The document from p on with the ranges of the first n edits replaced simultaneously. */
  function Replaced(doc: string, edits: seq<Edit>, n: nat, p: nat): string
    requires n <= |edits| && p <= |doc|
    decreases |doc| - p
  {
    if p == |doc| then TextAt(edits, n, p) else Piece(doc, edits, n, p) + Replaced(doc, edits, n, p + 1)
  }

  predicate InDocument(e: Edit, doc: string) { 0 <= e.start <= e.end <= |doc| }

  ghost predicate NonOverlapping(edits: seq<Edit>) {
    && (forall i, j :: 0 <= i < |edits| && 0 <= j < |edits| && edits[i].start < edits[j].start ==> edits[i].end <= edits[j].start)
    && (forall i, j :: 0 <= i < j < |edits| ==> edits[i].start != edits[j].start)
  }

  // ---------- Splicing one after the other ----------

  function Splice(doc: string, e: Edit): string
    requires InDocument(e, doc)
  {
    doc[..e.start] + e.text + doc[e.end..]
  }

  /** The document after the first n edits; none if one of them is outside the document it meets. */
  function SpliceAll(doc: string, edits: seq<Edit>, n: nat): Option<string>
    requires n <= |edits|
  {
    if n == 0 then Some(doc)
    else
      var before := SpliceAll(doc, edits, n - 1);
      if before.Some? && InDocument(edits[n - 1], before.value) then Some(Splice(before.value, edits[n - 1])) else None
  }

  /** Descending starts, each edit ending before the next one back begins. */
  ghost predicate BackToFront(doc: string, edits: seq<Edit>) {
    && (forall i :: 0 <= i < |edits| ==> InDocument(edits[i], doc))
    && (forall i, j :: 0 <= i < j < |edits| ==> edits[j].end <= edits[i].start && edits[j].start < edits[i].start)
  }

  /** No edit among the first n reaches below q. */
  ghost predicate AllFrom(edits: seq<Edit>, n: nat, q: nat)
    requires n <= |edits|
  {
    forall i :: 0 <= i < n ==> edits[i].start >= q
  }

  lemma {:induction false} NoText(edits: seq<Edit>, n: nat, p: nat)
    requires n <= |edits| && forall i :: 0 <= i < n ==> edits[i].start != p
    ensures TextAt(edits, n, p) == ""
  {
    if n > 0 { NoText(edits, n - 1, p); }
  }

  /** Below the first edit the document is unchanged. */
  lemma {:induction false} Unchanged(doc: string, edits: seq<Edit>, n: nat, p: nat, q: nat)
    requires n <= |edits| && p <= q <= |doc| && AllFrom(edits, n, q)
    ensures Replaced(doc, edits, n, p) == doc[p..q] + Replaced(doc, edits, n, q)
    decreases q - p
  {
    if p < q {
      Unchanged(doc, edits, n, p + 1, q);
      NoText(edits, n, p);
      assert Piece(doc, edits, n, p) == [doc[p]];
      assert doc[p..q] == [doc[p]] + doc[p + 1..q];
      Associate([doc[p]], doc[p + 1..q], Replaced(doc, edits, n, q));
    } else {
      assert doc[p..q] == "";
    }
  }

  /** Above its end the newest edit changes nothing. */
  lemma {:induction false} Above(doc: string, edits: seq<Edit>, n: nat, p: nat)
    requires n < |edits| && edits[n].start < p && edits[n].end <= p <= |doc|
    ensures Replaced(doc, edits, n + 1, p) == Replaced(doc, edits, n, p)
    decreases |doc| - p
  {
    assert TextAt(edits, n + 1, p) == TextAt(edits, n, p);
    if p < |doc| {
      Above(doc, edits, n, p + 1);
      assert Covered(edits, n + 1, p) <==> Covered(edits, n, p);
    }
  }

  /** Bytes that leave nothing are skipped. */
  lemma {:induction false} Skip(doc: string, edits: seq<Edit>, n: nat, p: nat, q: nat)
    requires n <= |edits| && p <= q <= |doc| && forall x :: p <= x < q ==> Piece(doc, edits, n, x) == ""
    ensures Replaced(doc, edits, n, p) == Replaced(doc, edits, n, q)
    decreases q - p
  {
    if p < q {
      assert Piece(doc, edits, n, p) == "";
      NoPrefix(Replaced(doc, edits, n, p + 1));
      Skip(doc, edits, n, p + 1, q);
    }
  }

  /** Inside its range, past the start, the newest edit leaves nothing. */
  lemma Inside(doc: string, edits: seq<Edit>, n: nat, p: nat)
    requires n < |edits| && InDocument(edits[n], doc) && edits[n].start < p <= edits[n].end && AllFrom(edits, n, edits[n].end)
    ensures Replaced(doc, edits, n + 1, p) == Replaced(doc, edits, n, edits[n].end)
  {
    var m := n + 1;
    forall x | p <= x < edits[n].end ensures Piece(doc, edits, m, x) == "" { EmptyPiece(doc, edits, n, x); }
    Skip(doc, edits, m, p, edits[n].end);
    Above(doc, edits, n, edits[n].end);
  }

  lemma EmptyPiece(doc: string, edits: seq<Edit>, n: nat, p: nat)
    requires n < |edits| && InDocument(edits[n], doc) && edits[n].start < p < edits[n].end && AllFrom(edits, n, edits[n].end)
    ensures Piece(doc, edits, n + 1, p) == ""
  {
    NoText(edits, n, p);
    assert edits[n].start <= p < edits[n].end;
  }

  /** From its start on, the newest edit puts its text in front of what follows its end. */
  lemma AtStart(doc: string, edits: seq<Edit>, n: nat)
    requires n < |edits| && InDocument(edits[n], doc) && AllFrom(edits, n, edits[n].end)
    requires forall i :: 0 <= i < n ==> edits[i].start != edits[n].start
    ensures Replaced(doc, edits, n + 1, edits[n].start) == edits[n].text + Replaced(doc, edits, n, edits[n].end)
  {
    var e := edits[n];
    NoText(edits, n, e.start);
    assert TextAt(edits, n + 1, e.start) == e.text;
    if e.start < e.end {
      Inside(doc, edits, n, e.start + 1);
      assert edits[n].start <= e.start < edits[n].end;
      assert Piece(doc, edits, n + 1, e.start) == e.text;
    } else if e.start < |doc| {
      Insertion(doc, edits, n);
    }
  }

  /** The document from p on, without the text inserted at p. */
  function Onward(doc: string, edits: seq<Edit>, n: nat, p: nat): string
    requires n <= |edits| && p < |doc|
  {
    (if Covered(edits, n, p) then "" else [doc[p]]) + Replaced(doc, edits, n, p + 1)
  }

  lemma ReplacedAt(doc: string, edits: seq<Edit>, n: nat, p: nat)
    requires n <= |edits| && p < |doc|
    ensures Replaced(doc, edits, n, p) == TextAt(edits, n, p) + Onward(doc, edits, n, p)
  {
    Associate(TextAt(edits, n, p), if Covered(edits, n, p) then "" else [doc[p]], Replaced(doc, edits, n, p + 1));
  }

  lemma SameOnward(doc: string, edits: seq<Edit>, n: nat)
    requires n < |edits| && 0 <= edits[n].start == edits[n].end < |doc|
    ensures Onward(doc, edits, n + 1, edits[n].start) == Onward(doc, edits, n, edits[n].start)
  {
    Above(doc, edits, n, edits[n].start + 1);
    assert Covered(edits, n + 1, edits[n].start) <==> Covered(edits, n, edits[n].start);
  }

  lemma Insertion(doc: string, edits: seq<Edit>, n: nat)
    requires n < |edits| && 0 <= edits[n].start == edits[n].end < |doc|
    requires TextAt(edits, n, edits[n].start) == ""
    ensures Replaced(doc, edits, n + 1, edits[n].start) == edits[n].text + Replaced(doc, edits, n, edits[n].end)
  {
    var p := edits[n].start;
    SameOnward(doc, edits, n);
    ReplacedAt(doc, edits, n, p);
    ReplacedAt(doc, edits, n + 1, p);
    NoPrefix(Onward(doc, edits, n, p));
  }

  lemma NoPrefix(s: string)
    ensures "" + s == s && s + "" == s
  {
  }

  /** Splicing back to front is replacing all ranges at once. */
  lemma {:induction false} SpliceIsReplace(doc: string, edits: seq<Edit>, n: nat)
    requires n <= |edits| && BackToFront(doc, edits)
    ensures SpliceAll(doc, edits, n) == Some(Replaced(doc, edits, n, 0))
  {
    if n == 0 {
      Unchanged(doc, edits, 0, 0, |doc|);
      assert doc[0..|doc|] == doc;
      NoPrefix(doc);
    } else {
      SpliceIsReplace(doc, edits, n - 1);
      SpliceOne(doc, edits, n - 1);
    }
  }

  lemma SpliceOne(doc: string, edits: seq<Edit>, n: nat)
    requires n < |edits| && BackToFront(doc, edits)
    ensures InDocument(edits[n], Replaced(doc, edits, n, 0))
    ensures Splice(Replaced(doc, edits, n, 0), edits[n]) == Replaced(doc, edits, n + 1, 0)
  {
    var e := edits[n];
    var rest := Replaced(doc, edits, n, e.end);
    Unchanged(doc, edits, n, 0, e.end);
    Unchanged(doc, edits, n + 1, 0, e.start);
    AtStart(doc, edits, n);
    var was := Replaced(doc, edits, n, 0);
    assert was == doc[0..e.end] + rest;
    assert was[..e.start] == doc[0..e.start];
    assert was[e.end..] == rest;
    Associate(doc[0..e.start], e.text, rest);
  }

  // ---------- Any order of the proposal ----------

  lemma {:induction false} TextIs(edits: seq<Edit>, n: nat, i: nat)
    requires i < n <= |edits| && forall j, k :: 0 <= j < k < |edits| ==> edits[j].start != edits[k].start
    ensures TextAt(edits, n, edits[i].start) == edits[i].text
  {
    if i < n - 1 { TextIs(edits, n - 1, i); }
  }

  lemma SameText(a: seq<Edit>, b: seq<Edit>, p: nat)
    requires NonOverlapping(a) && NonOverlapping(b) && forall e :: e in a <==> e in b
    ensures TextAt(a, |a|, p) == TextAt(b, |b|, p)
  {
    if i :| 0 <= i < |a| && a[i].start == p {
      assert a[i] in b;
      var j :| 0 <= j < |b| && b[j] == a[i];
      TextIs(a, |a|, i);
      TextIs(b, |b|, j);
    } else {
      NoText(a, |a|, p);
      forall j | 0 <= j < |b| ensures b[j].start != p { assert b[j] in a; }
      NoText(b, |b|, p);
    }
  }

  lemma SameCovered(a: seq<Edit>, b: seq<Edit>, p: nat)
    requires forall e :: e in a ==> e in b
    ensures Covered(a, |a|, p) ==> Covered(b, |b|, p)
  {
    if i :| 0 <= i < |a| && a[i].start <= p < a[i].end {
      assert a[i] in b;
      var j :| 0 <= j < |b| && b[j] == a[i];
    }
  }

  /** The simultaneous replacement does not depend on the order the edits are listed in. */
  lemma {:induction false} SameReplaced(doc: string, a: seq<Edit>, b: seq<Edit>, p: nat)
    requires p <= |doc| && NonOverlapping(a) && NonOverlapping(b) && forall e :: e in a <==> e in b
    ensures Replaced(doc, a, |a|, p) == Replaced(doc, b, |b|, p)
    decreases |doc| - p
  {
    SameText(a, b, p);
    if p < |doc| {
      SameCovered(a, b, p);
      SameCovered(b, a, p);
      assert Piece(doc, a, |a|, p) == Piece(doc, b, |b|, p);
      SameReplaced(doc, a, b, p + 1);
    }
  }

  predicate StartsLater(a: Edit, b: Edit) { a.start >= b.start }

  lemma SortedBackToFront(doc: string, edits: seq<Edit>, sorted: seq<Edit>)
    requires NonOverlapping(edits) && Permutes(sorted, edits) && InOrder(sorted, StartsLater)
    requires forall e :: e in edits ==> InDocument(e, doc)
    ensures BackToFront(doc, sorted) && NonOverlapping(sorted) && forall e :: e in sorted <==> e in edits
  {
    PermutedMembers(sorted, edits);
    PermutedStarts(edits, sorted);
    forall i | 0 <= i < |sorted| ensures InDocument(sorted[i], doc) { assert sorted[i] in edits; }
    forall i, j | 0 <= i < |sorted| && 0 <= j < |sorted| && sorted[i].start < sorted[j].start ensures sorted[i].end <= sorted[j].start {
      assert sorted[i] in edits && sorted[j] in edits;
    }
    forall i, j | 0 <= i < j < |sorted| ensures sorted[j].start < sorted[i].start { assert StartsLater(sorted[i], sorted[j]); }
  }

  /** Distinct starts stay distinct under permutation. */
  lemma PermutedStarts(edits: seq<Edit>, sorted: seq<Edit>)
    requires NonOverlapping(edits) && Permutes(sorted, edits)
    ensures forall i, j :: 0 <= i < j < |sorted| ==> sorted[i].start != sorted[j].start
  {
    PermutedMembers(sorted, edits);
    assert Distinct(edits);
    PermutedDistinct(sorted, edits);
    forall i, j | 0 <= i < j < |sorted| ensures sorted[i].start != sorted[j].start {
      assert sorted[i] in edits && sorted[j] in edits;
      var k :| 0 <= k < |edits| && edits[k] == sorted[i];
      var l :| 0 <= l < |edits| && edits[l] == sorted[j];
      assert k != l;
    }
  }

  /** For edits that do not overlap and start at distinct bytes, whatever order they were proposed in,
      splicing them one by one in descending order replaces all ranges of the original document. */
  lemma DescendingIsSimultaneous(doc: string, edits: seq<Edit>, sorted: seq<Edit>)
    requires NonOverlapping(edits) && Permutes(sorted, edits) && InOrder(sorted, StartsLater)
    requires forall e :: e in edits ==> InDocument(e, doc)
    ensures SpliceAll(doc, sorted, |sorted|) == Some(Replaced(doc, edits, |edits|, 0))
  {
    SortedBackToFront(doc, edits, sorted);
    SpliceIsReplace(doc, sorted, |sorted|);
    SameReplaced(doc, sorted, edits, 0);
  }

  // ---------- The chain of operations ----------

  datatype FileEdits = FileEdits(path: string, edits: seq<Edit>)

  datatype Operation = Operation(id: string, path: string, edit: Edit, dependsOn: seq<string>)

  function OperationId(op: string, k: nat): string { op + "_" + Decimal(k + 1) }

  lemma DistinctIds(op: string, j: nat, k: nat)
    requires OperationId(op, j) == OperationId(op, k)
    ensures j == k
  {
    var s := op + "_";
    assert (s + Decimal(j + 1))[|s|..] == Decimal(j + 1);
    assert (s + Decimal(k + 1))[|s|..] == Decimal(k + 1);
    assert Nat(Decimal(j + 1)) == Nat(Decimal(k + 1));
  }

  /** What the k-th operation depends on. */
  function Dependencies(op: string, dependsOn: seq<string>, k: nat): seq<string> {
    if k == 0 then dependsOn else dependsOn + [OperationId(op, k - 1)]
  }

  predicate Linked(op: string, dependsOn: seq<string>, o: Operation, k: nat) {
    o.id == OperationId(op, k) && o.dependsOn == Dependencies(op, dependsOn, k)
  }

  /** The operations are numbered in order and each depends on the one before it. */
  predicate Chained(op: string, dependsOn: seq<string>, produced: seq<Operation>) {
    forall k :: 0 <= k < |produced| ==> Linked(op, dependsOn, produced[k], k)
  }

  lemma ChainedMore(op: string, dependsOn: seq<string>, produced: seq<Operation>, next: Operation)
    requires Chained(op, dependsOn, produced) && Linked(op, dependsOn, next, |produced|)
    ensures Chained(op, dependsOn, produced + [next])
  {
    var all := produced + [next];
    forall k | 0 <= k < |all| ensures Linked(op, dependsOn, all[k], k) {
      if k < |produced| { assert Linked(op, dependsOn, produced[k], k); }
    }
  }

  /** The operations from `at` on are one file's edits, in order. */
  predicate FilePlaced(path: string, edits: seq<Edit>, produced: seq<Operation>, at: nat) {
    && at + |edits| <= |produced|
    && forall k :: at <= k < at + |edits| ==> produced[k].path == path && produced[k].edit == edits[k - at]
  }

  predicate Extends(before: seq<Operation>, after: seq<Operation>) {
    |before| <= |after| && forall k :: 0 <= k < |before| ==> after[k] == before[k]
  }

  /** The operations are the files' edits, file after file. */
  ghost predicate Placed(changes: seq<FileEdits>, sorted: seq<seq<Edit>>, produced: seq<Operation>) {
    && |sorted| <= |changes| && |produced| == EditCount(changes, |sorted|)
    && forall i :: 0 <= i < |sorted| ==> PlacedAt(changes, i, sorted[i], produced)
  }

  predicate PlacedAt(changes: seq<FileEdits>, i: nat, edits: seq<Edit>, produced: seq<Operation>) {
    i < |changes| && FilePlaced(changes[i].path, edits, produced, EditCount(changes, i))
  }

  /** One file's edits in descending order, those with equal starts in the order proposed. */
  ghost predicate Descending(sorted: seq<Edit>, edits: seq<Edit>) {
    Permutes(sorted, edits) && InOrder(sorted, StartsLater) && Stable(sorted, edits, StartsLater)
  }

  ghost predicate SortedFiles(changes: seq<FileEdits>, sorted: seq<seq<Edit>>) {
    |sorted| <= |changes| && forall i :: 0 <= i < |sorted| ==> Descending(sorted[i], changes[i].edits)
  }

  lemma MoreSorted(changes: seq<FileEdits>, sorted: seq<seq<Edit>>, edits: seq<Edit>)
    requires SortedFiles(changes, sorted) && |sorted| < |changes| && Descending(edits, changes[|sorted|].edits)
    ensures SortedFiles(changes, sorted + [edits])
  {
    var r := sorted + [edits];
    forall i | 0 <= i < |r| ensures Descending(r[i], changes[i].edits) {
      if i < |sorted| { assert r[i] == sorted[i]; }
    }
  }

  function EditCount(changes: seq<FileEdits>, n: nat): nat
    requires n <= |changes|
  {
    if n == 0 then 0 else EditCount(changes, n - 1) + |changes[n - 1].edits|
  }

  type Files = map<string, string>

  /** The document can be read and the range lies within it. */
  predicate ValidRange(files: Files, path: string, e: Edit) { path in files && InDocument(e, files[path]) }

  predicate AllValid(changes: seq<FileEdits>, n: nat, files: Files)
    requires n <= |changes|
  {
    forall i, e :: 0 <= i < n && e in changes[i].edits ==> ValidRange(files, changes[i].path, e)
  }

  /** The name of the last operation, or none yet. */
  predicate Follows(op: string, produced: seq<Operation>, previous: string) {
    (produced == [] <==> previous == "") && (produced != [] ==> previous == OperationId(op, |produced| - 1))
  }

  lemma Named(op: string, k: nat)
    ensures OperationId(op, k) != ""
  {
  }

  method NextOperation(op: string, dependsOn: seq<string>, produced: seq<Operation>, previous: string, path: string, edit: Edit)
    returns (next: Operation)
    requires Chained(op, dependsOn, produced) && Follows(op, produced, previous)
    ensures next.path == path && next.edit == edit
    ensures Chained(op, dependsOn, produced + [next]) && Follows(op, produced + [next], next.id)
  {
    Named(op, |produced|);
    next := Operation(OperationId(op, |produced|), path, edit, if previous != "" then dependsOn + [previous] else dependsOn);
    ChainedMore(op, dependsOn, produced, next);
  }

  /** The first i edits have been appended as operations on the path. */
  predicate Appended(path: string, edits: seq<Edit>, i: nat, produced: seq<Operation>, all: seq<Operation>) {
    && i <= |edits| && |all| == |produced| + i && Extends(produced, all)
    && forall k :: |produced| <= k < |all| ==> all[k].path == path && all[k].edit == edits[k - |produced|]
  }

  lemma AppendedMore(path: string, edits: seq<Edit>, i: nat, produced: seq<Operation>, all: seq<Operation>, next: Operation)
    requires Appended(path, edits, i, produced, all) && i < |edits| && next.path == path && next.edit == edits[i]
    ensures Appended(path, edits, i + 1, produced, all + [next])
  {
  }

  predicate FileValid(path: string, edits: seq<Edit>, n: nat, files: Files)
    requires n <= |edits|
  {
    forall i :: 0 <= i < n ==> ValidRange(files, path, edits[i])
  }

  /** The operations of one file's sorted edits, appended to those produced so far. */
  method AddFile(op: string, dependsOn: seq<string>, path: string, sorted: seq<Edit>, files: Files,
                 produced: seq<Operation>, previous: string)
    returns (ok: bool, all: seq<Operation>, last: string)
    requires Chained(op, dependsOn, produced) && Follows(op, produced, previous)
    ensures ok <==> FileValid(path, sorted, |sorted|, files)
    ensures ok ==> Chained(op, dependsOn, all) && Follows(op, all, last)
    ensures ok ==> |all| == |produced| + |sorted| && Extends(produced, all) && FilePlaced(path, sorted, all, |produced|)
  {
    all, last := produced, previous;
    for i := 0 to |sorted|
      invariant Chained(op, dependsOn, all) && Follows(op, all, last) && Appended(path, sorted, i, produced, all)
      invariant FileValid(path, sorted, i, files)
    {
      if !ValidRange(files, path, sorted[i]) { return false, all, last; }
      var next := NextOperation(op, dependsOn, all, last, path, sorted[i]);
      last := next.id;
      AppendedMore(path, sorted, i, produced, all, next);
      all := all + [next];
    }
    ok := true;
  }

  lemma StartsOrder()
    ensures TotalPreorder(StartsLater)
  {
  }

  /** rangeOperations: fails on an invalid range or when no edit was proposed; otherwise a chain over
      the files in turn, each file's edits from its end backwards. */
  method RangeOperations(op: string, dependsOn: seq<string>, changes: seq<FileEdits>, files: Files)
    returns (r: Option<seq<Operation>>, ghost sorted: seq<seq<Edit>>)
    ensures r.Some? <==> AllValid(changes, |changes|, files) && EditCount(changes, |changes|) > 0
    ensures r.None? <==> NoEdit(changes) || exists i, e :: OutOfFile(changes, files, i, e)
    ensures r.Some? ==> Chained(op, dependsOn, r.value) && Produces(changes, sorted, r.value)
    ensures r.Some? && WellFormed(changes, files) ==>
              ApplyOperations(files, r.value, |r.value|) == Some(ReplacedFiles(files, changes, |changes|))
  {
    var produced: seq<Operation> := [];
    var previous := "";
    sorted := [];
    RejectedIff(changes, files);
    for i := 0 to |changes|
      invariant |sorted| == i && SortedFiles(changes, sorted) && AllValid(changes, i, files)
      invariant Chained(op, dependsOn, produced) && Follows(op, produced, previous)
      invariant Placed(changes, sorted, produced)
    {
      var edits := SortEdits(changes[i].edits);
      var ok;
      ghost var before := produced;
      ok, produced, previous := AddFile(op, dependsOn, changes[i].path, edits, files, produced, previous);
      MoreValid(changes, i, edits, files);
      if !ok { return None, sorted; }
      MorePlaced(changes, sorted, edits, before, produced);
      MoreSorted(changes, sorted, edits);
      sorted := sorted + [edits];
    }
    if produced == [] { return None, sorted; }
    if WellFormed(changes, files) { ProducedReplaces(files, changes, sorted, produced); }
    r := Some(produced);
  }

  /** Nothing was proposed. */
  ghost predicate NoEdit(changes: seq<FileEdits>) { forall i :: 0 <= i < |changes| ==> changes[i].edits == [] }

  /** A proposed range is not one of its file: the file is unknown, or the range starts before it, ends
      before it starts, or ends past it. */
  ghost predicate OutOfFile(changes: seq<FileEdits>, files: Files, i: int, e: Edit) {
    && 0 <= i < |changes| && e in changes[i].edits
    && (changes[i].path !in files || e.start < 0 || e.end < e.start || |files[changes[i].path]| < e.end)
  }

  lemma {:induction false} CountsNone(changes: seq<FileEdits>, n: nat)
    requires n <= |changes|
    ensures EditCount(changes, n) == 0 <==> forall i :: 0 <= i < n ==> changes[i].edits == []
  {
    if n > 0 { CountsNone(changes, n - 1); }
  }

  lemma RejectedIff(changes: seq<FileEdits>, files: Files)
    ensures !AllValid(changes, |changes|, files) <==> exists i, e :: OutOfFile(changes, files, i, e)
    ensures EditCount(changes, |changes|) == 0 <==> NoEdit(changes)
  {
    CountsNone(changes, |changes|);
    if !AllValid(changes, |changes|, files) {
      var i, e :| 0 <= i < |changes| && e in changes[i].edits && !ValidRange(files, changes[i].path, e);
      assert OutOfFile(changes, files, i, e);
    }
    if i, e :| OutOfFile(changes, files, i, e) { assert !ValidRange(files, changes[i].path, e); }
  }

  method SortEdits(edits: seq<Edit>) returns (sorted: seq<Edit>)
    ensures Descending(sorted, edits)
    ensures |sorted| == |edits| && forall e :: e in sorted <==> e in edits
  {
    StartsOrder();
    sorted := StableSort(edits, StartsLater);
    PermutedMembers(sorted, edits);
  }

  lemma MoreValid(changes: seq<FileEdits>, i: nat, sorted: seq<Edit>, files: Files)
    requires i < |changes| && AllValid(changes, i, files) && forall e :: e in sorted <==> e in changes[i].edits
    ensures FileValid(changes[i].path, sorted, |sorted|, files) <==> AllValid(changes, i + 1, files)
    ensures !FileValid(changes[i].path, sorted, |sorted|, files) ==> !AllValid(changes, |changes|, files)
  {
    if FileValid(changes[i].path, sorted, |sorted|, files) {
      forall j, e | 0 <= j < i + 1 && e in changes[j].edits ensures ValidRange(files, changes[j].path, e) {
        if j == i { assert e in sorted; }
      }
    } else {
      var k :| 0 <= k < |sorted| && !ValidRange(files, changes[i].path, sorted[k]);
      assert sorted[k] in sorted && sorted[k] in changes[i].edits;
    }
  }

  lemma StillPlaced(path: string, edits: seq<Edit>, before: seq<Operation>, after: seq<Operation>, at: nat)
    requires FilePlaced(path, edits, before, at) && Extends(before, after)
    ensures FilePlaced(path, edits, after, at)
  {
  }

  lemma MorePlaced(changes: seq<FileEdits>, sorted: seq<seq<Edit>>, edits: seq<Edit>, before: seq<Operation>, after: seq<Operation>)
    requires Placed(changes, sorted, before) && |sorted| < |changes| && |edits| == |changes[|sorted|].edits|
    requires |after| == |before| + |edits| && Extends(before, after)
    requires FilePlaced(changes[|sorted|].path, edits, after, |before|)
    ensures Placed(changes, sorted + [edits], after)
  {
    var r := sorted + [edits];
    forall i | 0 <= i < |r| ensures PlacedAt(changes, i, r[i], after) {
      if i < |sorted| {
        assert PlacedAt(changes, i, sorted[i], before);
        StillPlaced(changes[i].path, sorted[i], before, after, EditCount(changes, i));
      }
    }
  }

  // ---------- What the dependencies admit ----------

  /** An execution order of the operations in which each comes after those it depends on. */
  ghost predicate Respects(order: seq<nat>, produced: seq<Operation>) {
    && |order| == |produced| && Distinct(order) && (forall j :: 0 <= j < |order| ==> order[j] < |produced|)
    && forall j, k :: 0 <= j < |order| && 0 <= k < |produced| && produced[k].id in produced[order[j]].dependsOn ==>
         exists i :: 0 <= i < j && order[i] == k
  }

  /** The dependency chain admits only the order produced. */
  lemma {:induction false} OnlyThatOrder(op: string, dependsOn: seq<string>, produced: seq<Operation>, order: seq<nat>, j: nat)
    requires Chained(op, dependsOn, produced) && Respects(order, produced) && j < |order|
    ensures order[j] == j
  {
    forall i | 0 <= i < j ensures order[i] == i && order[i] != order[j] { OnlyThatOrder(op, dependsOn, produced, order, i); }
    var m := order[j];
    if m > 0 {
      LinkInDeps(op, dependsOn, produced, m);
      var i :| 0 <= i < j && order[i] == m - 1;
      assert order[i] == i;
    }
    NotBelow(order, j, m);
  }

  lemma {:induction false} NotBelow(order: seq<nat>, j: nat, m: nat)
    requires j <= |order| && forall i :: 0 <= i < j ==> order[i] == i && order[i] != m
    ensures m >= j
  {
    if j > 0 {
      NotBelow(order, j - 1, m);
      assert order[j - 1] == j - 1;
    }
  }

  lemma LinkInDeps(op: string, dependsOn: seq<string>, produced: seq<Operation>, m: nat)
    requires Chained(op, dependsOn, produced) && 0 < m < |produced|
    ensures produced[m - 1].id in produced[m].dependsOn
  {
    DependsAt(op, dependsOn, produced, m);
    DependsAt(op, dependsOn, produced, m - 1);
  }

  lemma ThatOrder(op: string, dependsOn: seq<string>, produced: seq<Operation>, order: seq<nat>)
    requires Chained(op, dependsOn, produced) && |order| == |produced| && forall j :: 0 <= j < |order| ==> order[j] == j
    requires forall k :: 0 <= k < |produced| ==> produced[k].id !in dependsOn
    ensures Respects(order, produced)
  {
    forall j, k | 0 <= j < |order| && 0 <= k < |produced| && produced[k].id in produced[order[j]].dependsOn
      ensures exists i :: 0 <= i < j && order[i] == k
    {
      DependsAt(op, dependsOn, produced, j);
      DependsAt(op, dependsOn, produced, k);
      assert j > 0 && produced[k].id == OperationId(op, j - 1);
      DistinctIds(op, k, j - 1);
      assert order[k] == k;
    }
  }

  /** And it does admit that order exactly when the plan does not already depend on one of the new names. */
  lemma ThatOrderIff(op: string, dependsOn: seq<string>, produced: seq<Operation>, order: seq<nat>)
    requires Chained(op, dependsOn, produced) && |order| == |produced| && forall j :: 0 <= j < |order| ==> order[j] == j
    ensures Respects(order, produced) <==> forall k :: 0 <= k < |produced| ==> produced[k].id !in dependsOn
  {
    if forall k :: 0 <= k < |produced| ==> produced[k].id !in dependsOn {
      ThatOrder(op, dependsOn, produced, order);
    } else {
      var k :| 0 <= k < |produced| && produced[k].id in dependsOn;
      FirstDepends(op, dependsOn, produced);
      assert order[0] == 0;
      assert produced[k].id in produced[order[0]].dependsOn;
    }
  }

  lemma DependsAt(op: string, dependsOn: seq<string>, produced: seq<Operation>, k: nat)
    requires Chained(op, dependsOn, produced) && k < |produced|
    ensures produced[k].id == OperationId(op, k)
    ensures produced[k].dependsOn == Dependencies(op, dependsOn, k)
  {
    assert Linked(op, dependsOn, produced[k], k);
  }

  lemma FirstDepends(op: string, dependsOn: seq<string>, produced: seq<Operation>)
    requires Chained(op, dependsOn, produced) && produced != []
    ensures produced[0].dependsOn == dependsOn
  {
    DependsAt(op, dependsOn, produced, 0);
  }

  /** An operation "a" that already depends on "a_1" gets one replacement named "a_1" that depends on
      itself, and no order admits it. */
  lemma SelfDependent(order: seq<nat>)
    ensures var produced := [Operation("a_1", "f", Edit(0, 0, ""), ["a_1"])];
            Chained("a", ["a_1"], produced) && !Respects(order, produced)
  {
    var produced := [Operation("a_1", "f", Edit(0, 0, ""), ["a_1"])];
    assert Decimal(1) == "1";
    assert OperationId("a", 0) == "a_1";
    assert Linked("a", ["a_1"], produced[0], 0);
    if |order| == 1 && order[0] == 0 {
      ThatOrderIff("a", ["a_1"], produced, order);
      assert produced[0].id in ["a_1"];
    }
  }

  // ---------- Applying what was produced ----------

  /** The files after the first n operations; none if one of them does not fit the file it meets. */
  function ApplyOperations(files: Files, produced: seq<Operation>, n: nat): Option<Files>
    requires n <= |produced|
  {
    if n == 0 then Some(files)
    else
      var before := ApplyOperations(files, produced, n - 1);
      var o := produced[n - 1];
      if before.Some? && ValidRange(before.value, o.path, o.edit)
      then Some(before.value[o.path := Splice(before.value[o.path], o.edit)]) else None
  }

  lemma OneApplied(files: Files, produced: seq<Operation>, n: nat, before: Files, path: string, e: Edit, doc: string)
    requires n < |produced| && ApplyOperations(files, produced, n) == Some(before[path := doc]) && produced[n].path == path && produced[n].edit == e
    requires InDocument(e, doc)
    ensures ApplyOperations(files, produced, n + 1) == Some(before[path := Splice(doc, e)])
  {
    assert before[path := doc][path := Splice(doc, e)] == before[path := Splice(doc, e)];
  }

  lemma {:induction false} FileApplied(files: Files, produced: seq<Operation>, at: nat, path: string, edits: seq<Edit>, j: nat, before: Files)
    requires FilePlaced(path, edits, produced, at) && j <= |edits| && ApplyOperations(files, produced, at) == Some(before)
    requires path in before && SpliceAll(before[path], edits, j).Some?
    ensures ApplyOperations(files, produced, at + j) == Some(before[path := SpliceAll(before[path], edits, j).value])
  {
    if j == 0 {
      assert before[path := before[path]] == before;
    } else {
      FileApplied(files, produced, at, path, edits, j - 1, before);
      OneApplied(files, produced, at + j - 1, before, path, edits[j - 1], SpliceAll(before[path], edits, j - 1).value);
    }
  }

  /** The files with the ranges of the first n changes replaced simultaneously. */
  function ReplacedFiles(files: Files, changes: seq<FileEdits>, n: nat): Files
    requires n <= |changes|
  {
    if n == 0 then files
    else
      var before, c := ReplacedFiles(files, changes, n - 1), changes[n - 1];
      if c.path in files then before[c.path := Replaced(files[c.path], c.edits, |c.edits|, 0)] else before
  }

  /** Each file is listed once, every range is within its file, and a file's ranges do not overlap. */
  ghost predicate WellFormed(changes: seq<FileEdits>, files: Files) {
    && OncePerPath(changes) && AllValid(changes, |changes|, files)
    && forall i :: 0 <= i < |changes| ==> NonOverlapping(changes[i].edits)
  }

  /** The operations produced for the changes. */
  ghost predicate Produces(changes: seq<FileEdits>, sorted: seq<seq<Edit>>, produced: seq<Operation>) {
    |sorted| == |changes| && SortedFiles(changes, sorted) && Placed(changes, sorted, produced)
  }

  /** The operations of the first i files give the files with those ranges replaced. */
  ghost predicate Reached(files: Files, changes: seq<FileEdits>, produced: seq<Operation>, i: nat) {
    && i <= |changes| && EditCount(changes, i) <= |produced|
    && ApplyOperations(files, produced, EditCount(changes, i)) == Some(ReplacedFiles(files, changes, i))
  }

  ghost predicate OncePerPath(changes: seq<FileEdits>) { forall i, j :: 0 <= i < j < |changes| ==> changes[i].path != changes[j].path }

  lemma {:induction false} Untouched(files: Files, changes: seq<FileEdits>, n: nat, path: string)
    requires n <= |changes| && path in files && forall i :: 0 <= i < n ==> changes[i].path != path
    ensures path in ReplacedFiles(files, changes, n) && ReplacedFiles(files, changes, n)[path] == files[path]
  {
    if n > 0 { Untouched(files, changes, n - 1, path); }
  }

  lemma NextFile(files: Files, changes: seq<FileEdits>, sorted: seq<seq<Edit>>, produced: seq<Operation>, i: nat)
    requires i < |changes| && Produces(changes, sorted, produced) && WellFormed(changes, files) && Reached(files, changes, produced, i)
    ensures Reached(files, changes, produced, i + 1)
  {
    FileFacts(files, changes, sorted, produced, i);
    if changes[i].edits == [] {
      NoEdits(files, changes, i);
    } else {
      assert changes[i].edits[0] in changes[i].edits;
      Untouched(files, changes, i, changes[i].path);
      var x := SplicedFile(files, changes, sorted[i], i);
      FileReached(files, changes, sorted[i], produced, i, EditCount(changes, i), changes[i].path, ReplacedFiles(files, changes, i), x);
    }
  }

  lemma FileReached(files: Files, changes: seq<FileEdits>, sorted: seq<Edit>, produced: seq<Operation>, i: nat, at: nat, path: string,
                    before: Files, x: string)
    requires i < |changes| && at == EditCount(changes, i) && |sorted| == |changes[i].edits| && FilePlaced(path, sorted, produced, at)
    requires ApplyOperations(files, produced, at) == Some(before) && path in before && SpliceAll(before[path], sorted, |sorted|) == Some(x)
    requires ReplacedFiles(files, changes, i + 1) == before[path := x]
    ensures Reached(files, changes, produced, i + 1)
  {
    FileApplied(files, produced, at, path, sorted, |sorted|, before);
    ReachedNext(files, changes, produced, i, at, before[path := x]);
  }

  /** What splicing makes of the next file, and that the replacement agrees. */
  lemma SplicedFile(files: Files, changes: seq<FileEdits>, sorted: seq<Edit>, i: nat) returns (x: string)
    requires i < |changes| && changes[i].path in files && Descending(sorted, changes[i].edits) && NonOverlapping(changes[i].edits)
    requires forall e :: e in changes[i].edits ==> InDocument(e, files[changes[i].path])
    ensures SpliceAll(files[changes[i].path], sorted, |sorted|) == Some(x)
    ensures ReplacedFiles(files, changes, i + 1) == ReplacedFiles(files, changes, i)[changes[i].path := x]
  {
    DescendingIsSimultaneous(files[changes[i].path], changes[i].edits, sorted);
    x := Replaced(files[changes[i].path], changes[i].edits, |changes[i].edits|, 0);
  }

  lemma ReachedNext(files: Files, changes: seq<FileEdits>, produced: seq<Operation>, i: nat, at: nat, after: Files)
    requires i < |changes| && at == EditCount(changes, i) && at + |changes[i].edits| <= |produced|
    requires ApplyOperations(files, produced, at + |changes[i].edits|) == Some(after) && after == ReplacedFiles(files, changes, i + 1)
    ensures Reached(files, changes, produced, i + 1)
  {
  }

  lemma FileFacts(files: Files, changes: seq<FileEdits>, sorted: seq<seq<Edit>>, produced: seq<Operation>, i: nat)
    requires i < |changes| && Produces(changes, sorted, produced) && WellFormed(changes, files)
    ensures FilePlaced(changes[i].path, sorted[i], produced, EditCount(changes, i)) && Descending(sorted[i], changes[i].edits)
    ensures |sorted[i]| == |changes[i].edits| && NonOverlapping(changes[i].edits)
    ensures forall e :: e in changes[i].edits ==> ValidRange(files, changes[i].path, e)
    ensures forall j :: 0 <= j < i ==> changes[j].path != changes[i].path
  {
    assert PlacedAt(changes, i, sorted[i], produced);
    PermutedMembers(sorted[i], changes[i].edits);
  }

  lemma NoEdits(files: Files, changes: seq<FileEdits>, i: nat)
    requires i < |changes| && changes[i].edits == [] && OncePerPath(changes)
    ensures ReplacedFiles(files, changes, i + 1) == ReplacedFiles(files, changes, i)
  {
    var path := changes[i].path;
    if path in files {
      Untouched(files, changes, i, path);
      Unchanged(files[path], [], 0, 0, |files[path]|);
      assert files[path][0..|files[path]|] == files[path];
      NoPrefix(files[path]);
    }
  }

  lemma {:induction false} OperationsReplace(files: Files, changes: seq<FileEdits>, sorted: seq<seq<Edit>>, produced: seq<Operation>, n: nat)
    requires n <= |changes| && Produces(changes, sorted, produced) && WellFormed(changes, files)
    ensures Reached(files, changes, produced, n)
  {
    for i := 0 to n
      invariant Reached(files, changes, produced, i)
    {
      NextFile(files, changes, sorted, produced, i);
    }
  }

  /** End to end: applied in the order produced, the operations replace all proposed ranges of every file
      at once. */
  lemma ProducedReplaces(files: Files, changes: seq<FileEdits>, sorted: seq<seq<Edit>>, produced: seq<Operation>)
    requires Produces(changes, sorted, produced) && WellFormed(changes, files)
    ensures ApplyOperations(files, produced, |produced|) == Some(ReplacedFiles(files, changes, |changes|))
  {
    OperationsReplace(files, changes, sorted, produced, |changes|);
  }
}
