/**
 Filling the gaps of a revision range from the workspace's log of observed steps, and what
 trimming receipts does to the coverage: nothing.
 */
module RevisionGaps {
  import opened Basics
  import opened Sorting
  import opened RevisionTiles
  import opened RevisionCoverage
  import Receipts = ReceiptEnvelope

  datatype Reason = Document | Inventory | ProviderEpoch

  datatype Observed = Observed(
    seqNo: nat, reason: Reason, path: string, before: string, after: string,
    added: seq<string>, removed: seq<string>, addedOmitted: nat, removedOmitted: nat)

  /** The observed steps with a sequence number in (from, to], oldest first. */
  function ObservedChanges(log: seq<Observed>, gap: Span): (r: seq<Observed>)
    ensures forall c :: c in r <==> c in log && Covers(gap, c.seqNo)
  {
    if log == [] then []
    else
      assert log == [log[0]] + log[1..];
      (if Covers(gap, log[0].seqNo) then [log[0]] else []) + ObservedChanges(log[1..], gap)
  }

  function Steps(changes: seq<Observed>): (r: set<nat>) { set c | c in changes :: c.seqNo }

  /** Every step of the gap was observed. */
  ghost predicate FullyObserved(log: seq<Observed>, gap: Span) {
    forall p :: Covers(gap, p) ==> exists c :: c in log && c.seqNo == p
  }

  function Positions(lo: nat, hi: nat): (r: set<nat>)
    requires lo <= hi
    ensures forall p :: p in r <==> lo < p <= hi
    ensures |r| == hi - lo
    decreases hi
  {
    if lo == hi then {} else Positions(lo, hi - 1) + {hi}
  }

  /** Pigeonhole: the number of distinct observed steps reaches the length of the gap exactly when
      none of its steps is missing. */
  lemma CountIffFullyObserved(log: seq<Observed>, gap: Span)
    requires gap.from <= gap.to
    ensures |Steps(ObservedChanges(log, gap))| == gap.to - gap.from <==> FullyObserved(log, gap)
  {
    var steps, all := Steps(ObservedChanges(log, gap)), Positions(gap.from, gap.to);
    assert steps <= all;
    SubsetSize(steps, all);
    if steps == all {
      forall p | Covers(gap, p) ensures exists c :: c in log && c.seqNo == p { assert p in steps; }
    }
    if FullyObserved(log, gap) {
      forall p | p in all ensures p in steps {
        assert Covers(gap, p);
        var c :| c in log && c.seqNo == p;
        assert c in ObservedChanges(log, gap);
      }
      assert steps == all;
    }
  }

  /** Of the first n gaps, those the observation log does not account for. */
  ghost function Unaccounted(log: seq<Observed>, spans: seq<Span>, n: nat): seq<Span>
    requires n <= |spans|
  {
    if n == 0 then [] else Unaccounted(log, spans, n - 1) + (if FullyObserved(log, spans[n - 1]) then [] else [spans[n - 1]])
  }

  /** Of the first n gaps, those it does account for. */
  ghost function Accounted(log: seq<Observed>, spans: seq<Span>, n: nat): seq<Span>
    requires n <= |spans|
  {
    if n == 0 then [] else Accounted(log, spans, n - 1) + (if FullyObserved(log, spans[n - 1]) then [spans[n - 1]] else [])
  }

  // ---------- What an observed step contributes ----------

  /** The step just before; observed steps in a gap are never the first. */
  function Prior(n: nat): nat { if n > 0 then n - 1 else 0 }

  function Entry(c: Observed, path: string, before: string, after: string): Diff {
    Diff(Prior(c.seqNo), c.seqNo, path, before, after)
  }

  function Entries(c: Observed, paths: seq<string>): seq<Diff> {
    if paths == [] then [] else [Entry(c, paths[0], "", "")] + Entries(c, paths[1..])
  }

  function Contribution(c: Observed): seq<Diff> {
    match c.reason
    case Document => if c.before == c.after then [] else [Entry(c, c.path, c.before, c.after)]
    case Inventory => Entries(c, c.added) + Entries(c, c.removed)
    case ProviderEpoch => []
  }

  /** What an observed step says: that a document whose hash changed went from the one to the other, or
      that a path appeared or went away, whose hashes are not known. */
  predicate Observes(c: Observed, d: Diff) {
    && d.from + 1 == d.to == c.seqNo
    && (|| (c.reason.Document? && c.before != c.after && d.path == c.path && d.before == c.before && d.after == c.after)
        || (c.reason.Inventory? && (d.path in c.added || d.path in c.removed) && d.before == "" && d.after == ""))
  }

  lemma {:induction false} EntriesExact(c: Observed, paths: seq<string>, d: Diff)
    requires c.seqNo > 0
    ensures d in Entries(c, paths) <==> d.from + 1 == d.to == c.seqNo && d.path in paths && d.before == "" && d.after == ""
  {
    if paths != [] { EntriesExact(c, paths[1..], d); }
  }

  /** A step contributes exactly what it says. */
  lemma ContributionIff(c: Observed, d: Diff)
    requires c.seqNo > 0
    ensures d in Contribution(c) <==> Observes(c, d)
  {
    if c.reason.Inventory? {
      EntriesExact(c, c.added, d);
      EntriesExact(c, c.removed, d);
    }
  }

  /** The parts of the first n, one after the other. */
  function Flat<T>(parts: seq<seq<T>>, n: nat): seq<T>
    requires n <= |parts|
  {
    if n == 0 then [] else Flat(parts, n - 1) + parts[n - 1]
  }

  lemma {:induction false} FlatMember<T>(parts: seq<seq<T>>, n: nat, x: T) returns (i: nat)
    requires n <= |parts| && x in Flat(parts, n)
    ensures i < n && x in parts[i]
  {
    if x in parts[n - 1] { return n - 1; }
    i := FlatMember(parts, n - 1, x);
  }

  lemma {:induction false} InFlat<T>(parts: seq<seq<T>>, n: nat, i: nat, x: T)
    requires i < n <= |parts| && x in parts[i]
    ensures x in Flat(parts, n)
    decreases n
  {
    if i < n - 1 { InFlat(parts, n - 1, i, x); }
  }

  function Parts(changes: seq<Observed>): (parts: seq<seq<Diff>>)
    ensures |parts| == |changes| && forall i :: 0 <= i < |changes| ==> parts[i] == Contribution(changes[i])
  {
    seq(|changes|, i requires 0 <= i < |changes| => Contribution(changes[i]))
  }

  /** What the changes contribute. */
  function Contributions(changes: seq<Observed>): seq<Diff> { Flat(Parts(changes), |changes|) }

  function Unlisted(c: Observed): nat { c.addedOmitted + c.removedOmitted }

  function Omitted(changes: seq<Observed>, n: nat): nat
    requires n <= |changes|
  {
    if n == 0 then 0 else Omitted(changes, n - 1) + Unlisted(changes[n - 1])
  }

  lemma FlatNext<T>(parts: seq<seq<T>>, i: nat)
    requires i < |parts|
    ensures Flat(parts, i + 1) == Flat(parts, i) + parts[i]
  {
  }

  lemma OmittedNext(changes: seq<Observed>, i: nat)
    requires i < |changes|
    ensures Omitted(changes, i + 1) == Omitted(changes, i) + Unlisted(changes[i])
  {
  }

  /** Adds what the observed steps of a filled gap contribute. */
  method AddObserved(changes: seq<Observed>, known: seq<Diff>, unlisted: nat) returns (grown: seq<Diff>, omitted: nat)
    ensures grown == known + Contributions(changes) && omitted == unlisted + Omitted(changes, |changes|)
  {
    grown, omitted := known, unlisted;
    var parts := Parts(changes);
    ghost var flat: seq<Diff>, count: nat := [], 0;
    for i := 0 to |changes|
      invariant flat == Flat(parts, i) && grown == known + flat
      invariant count == Omitted(changes, i) && omitted == unlisted + count
    {
      FlatNext(parts, i);
      OmittedNext(changes, i);
      Associate(known, flat, parts[i]);
      flat, count := flat + parts[i], count + Unlisted(changes[i]);
      grown := grown + parts[i];
      omitted := omitted + Unlisted(changes[i]);
    }
  }

  /** What the filled gaps among the first n add to the diffs. */
  ghost function Observations(log: seq<Observed>, spans: seq<Span>, n: nat): seq<Diff>
    requires n <= |spans|
  {
    if n == 0 then []
    else
      var changes := ObservedChanges(log, spans[n - 1]);
      Observations(log, spans, n - 1) + (if FullyObserved(log, spans[n - 1]) then Contributions(changes) else [])
  }

  ghost function AllOmitted(log: seq<Observed>, spans: seq<Span>, n: nat): nat
    requires n <= |spans|
  {
    if n == 0 then 0
    else
      var changes := ObservedChanges(log, spans[n - 1]);
      AllOmitted(log, spans, n - 1) + (if FullyObserved(log, spans[n - 1]) then Omitted(changes, |changes|) else 0)
  }

  predicate FromLe(a: Diff, b: Diff) { a.from <= b.from }

  /** fillObservedGaps: a gap goes only when every one of its steps was observed; the others stay, in
      order, and the diffs gain exactly the observations of the filled gaps. */
  method FillGaps(log: seq<Observed>, spans: seq<Span>, known: seq<Diff>)
    returns (left: seq<Span>, inferred: seq<Span>, all: seq<Diff>, unlisted: nat)
    requires forall g :: g in spans ==> g.from <= g.to
    ensures left == Unaccounted(log, spans, |spans|) && inferred == Accounted(log, spans, |spans|)
    ensures var grown := known + Observations(log, spans, |spans|);
            Permutes(all, grown) && InOrder(all, FromLe) && Stable(all, grown, FromLe)
    ensures unlisted == AllOmitted(log, spans, |spans|)
  {
    left, inferred, unlisted := [], [], 0;
    var grown := known;
    for i := 0 to |spans|
      invariant left == Unaccounted(log, spans, i) && inferred == Accounted(log, spans, i)
      invariant grown == known + Observations(log, spans, i) && unlisted == AllOmitted(log, spans, i)
    {
      assert spans[i] in spans;
      var changes := ObservedChanges(log, spans[i]);
      CountIffFullyObserved(log, spans[i]);
      if |Steps(changes)| != spans[i].to - spans[i].from {
        left := left + [spans[i]];
      } else {
        Associate(known, Observations(log, spans, i), Contributions(changes));
        grown, unlisted := AddObserved(changes, grown, unlisted);
        inferred := inferred + [spans[i]];
      }
    }
    all := StableSort(grown, FromLe);
  }

  /** A gap is left exactly when it was a gap and some step of it was not observed. */
  lemma {:induction false} LeftIffUnobserved(log: seq<Observed>, spans: seq<Span>, n: nat, g: Span)
    requires n <= |spans|
    ensures g in Unaccounted(log, spans, n) <==> g in spans[..n] && !FullyObserved(log, g)
    ensures g in Accounted(log, spans, n) <==> g in spans[..n] && FullyObserved(log, g)
  {
    if n > 0 {
      LeftIffUnobserved(log, spans, n - 1, g);
      assert spans[..n] == spans[..n - 1] + [spans[n - 1]];
    }
  }

  /** What one gap adds, if it is filled. */
  ghost predicate ObservedAt(log: seq<Observed>, gap: Span, d: Diff) {
    FullyObserved(log, gap) && exists c :: c in log && Covers(gap, c.seqNo) && Observes(c, d)
  }

  lemma ContributionsExact(log: seq<Observed>, gap: Span, d: Diff)
    ensures FullyObserved(log, gap) ==> (d in Contributions(ObservedChanges(log, gap)) <==> ObservedAt(log, gap, d))
  {
    var changes := ObservedChanges(log, gap);
    if d in Contributions(changes) {
      var i := FlatMember(Parts(changes), |changes|, d);
      assert changes[i] in changes;
      ContributionIff(changes[i], d);
    }
    if c :| c in log && Covers(gap, c.seqNo) && Observes(c, d) {
      assert c in changes;
      var i :| 0 <= i < |changes| && changes[i] == c;
      ContributionIff(c, d);
      InFlat(Parts(changes), |changes|, i, d);
    }
  }

  /** The diffs that filling adds are exactly what the observed steps of the filled gaps say. */
  lemma {:induction false} ObservationsExact(log: seq<Observed>, spans: seq<Span>, n: nat, d: Diff)
    requires n <= |spans|
    ensures d in Observations(log, spans, n) <==> exists i :: 0 <= i < n && ObservedAt(log, spans[i], d)
  {
    if n > 0 {
      ObservationsExact(log, spans, n - 1, d);
      ObservationsNext(log, spans, n, d);
    }
  }

  lemma ObservationsNext(log: seq<Observed>, spans: seq<Span>, n: nat, d: Diff)
    requires 0 < n <= |spans|
    ensures d in Observations(log, spans, n) <==> d in Observations(log, spans, n - 1) || ObservedAt(log, spans[n - 1], d)
  {
    ContributionsExact(log, spans[n - 1], d);
  }

  // ---------- Trimming and coverage ----------

  /** A recorded tuple as a diff; `shown` renders a dynamically typed field. */
  function AsDiff(r: Receipts.Recorded, shown: Receipts.Val -> string): Diff {
    Diff(r.from, r.to, shown(r.path), shown(r.before), shown(r.after))
  }

  function AsDiffs(rs: seq<Receipts.Recorded>, shown: Receipts.Val -> string): (ds: seq<Diff>)
    ensures |ds| == |rs| && forall i :: 0 <= i < |rs| ==> ds[i] == AsDiff(rs[i], shown)
  {
    if rs == [] then [] else [AsDiff(rs[0], shown)] + AsDiffs(rs[1..], shown)
  }

  lemma SameSpans(a: seq<Receipts.Recorded>, b: seq<Receipts.Recorded>, shown: Receipts.Val -> string)
    requires forall r :: r in a <==> r in b
    ensures SpansOf(AsDiffs(a, shown)) == SpansOf(AsDiffs(b, shown))
  {
    OneWay(a, b, shown);
    OneWay(b, a, shown);
  }

  lemma OneWay(a: seq<Receipts.Recorded>, b: seq<Receipts.Recorded>, shown: Receipts.Val -> string)
    requires forall r :: r in a ==> r in b
    ensures SpansOf(AsDiffs(a, shown)) <= SpansOf(AsDiffs(b, shown))
  {
    var left, bs := AsDiffs(a, shown), AsDiffs(b, shown);
    forall x | x in SpansOf(left) ensures x in SpansOf(bs) {
      var i :| 0 <= i < |a| && SpanOf(left[i]) == x;
      assert a[i] in b;
      var j :| 0 <= j < |b| && b[j] == a[i];
      assert bs[j] in bs && SpanOf(bs[j]) == x;
    }
  }

  /** Whatever receipts were trimmed, and whatever order the two tables were walked in, the covered
      steps and the gaps of a revision range are the same. */
  lemma TrimKeepsCoverage(table: map<Receipts.Key, Receipts.Stored>, chosen: set<Receipts.Key>,
                          revision: Receipts.Val -> Option<nat>, shown: Receipts.Val -> string,
                          workspace: string, lo: nat, hi: nat, before: seq<Receipts.Recorded>, after: seq<Receipts.Recorded>)
    requires lo <= hi && Within(SpansOf(AsDiffs(before, shown)), hi)
    requires forall r :: r in before <==> Receipts.RecordedIn(table, revision, workspace, lo, hi, r)
    requires forall r :: r in after <==> Receipts.RecordedIn(Receipts.TrimSome(table, chosen), revision, workspace, lo, hi, r)
    ensures Within(SpansOf(AsDiffs(after, shown)), hi)
    ensures Tiles(SpansOf(AsDiffs(after, shown)), lo, hi) == Tiles(SpansOf(AsDiffs(before, shown)), lo, hi)
  {
    forall r ensures r in before <==> r in after {
      Receipts.TrimSomeKeepsRecorded(table, chosen, revision, workspace, lo, hi, r);
    }
    SameSpans(before, after, shown);
  }
}
