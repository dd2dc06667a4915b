/**
 revision_diff: receipts walked in revision order against a moving cursor, gaps filled from
 the workspace's own observations, and the net change of a fully covered range.
 */
module RevisionCoverage {
  import opened Basics
  import opened Sorting
  import opened RevisionTiles

  /** A recorded revision step of one path; an empty hash is a file that does not exist or is not known. */
  datatype Diff = Diff(from: nat, to: nat, path: string, before: string, after: string)

  function SpanOf(d: Diff): Span { Span(d.from, d.to) }

  function SpansOf(ds: seq<Diff>): (r: set<Span>) { set d | d in ds :: SpanOf(d) }

  // ---------- The order of receipts ----------

  predicate DiffLe(a: Diff, b: Diff) {
    if a.from != b.from then a.from < b.from
    else if a.to != b.to then a.to < b.to
    else Before(a.path, b.path)
  }

  lemma DiffOrder()
    ensures TotalPreorder(DiffLe)
  {
    forall a, b ensures DiffLe(a, b) || DiffLe(b, a) { BeforeTotal(a.path, b.path); }
    forall a, b, c | DiffLe(a, b) && DiffLe(b, c) ensures DiffLe(a, c) {
      if Before(a.path, b.path) && Before(b.path, c.path) { BeforeTransitive(a.path, b.path, c.path); }
    }
  }

  // ---------- Coverage ----------

  /** Of the first n diffs, those whose span is an accepted step, in order. */
  function Accepted(ds: seq<Diff>, n: nat, steps: set<Span>): seq<Diff>
    requires n <= |ds|
  {
    if n == 0 then [] else Accepted(ds, n - 1, steps) + (if SpanOf(ds[n - 1]) in steps then [ds[n - 1]] else [])
  }

  lemma {:induction false} GapSpansAppend(a: seq<Tile>, b: seq<Tile>)
    ensures GapSpans(a + b) == GapSpans(a) + GapSpans(b)
  {
    if a == [] {
      assert a + b == b;
    } else {
      GapSpansAppend(a[1..], b);
      assert (a + b)[1..] == a[1..] + b && (a + b)[0] == a[0];
      Associate(if a[0].Gap? then [a[0].span] else [], GapSpans(a[1..]), GapSpans(b));
    }
  }

  /** Where the walk stands: `done` is laid, the rest of the tiling starts at the cursor, and the last
      step laid, if any, ends there. */
  ghost predicate Standing(s: set<Span>, lo: nat, hi: nat, done: seq<Tile>, cursor: nat, last: seq<Diff>) {
    && Within(s, hi) && lo <= cursor <= hi
    && Tiles(s, lo, hi) == done + Tiles(s, cursor, hi)
    && (last == [] ==> done == [] && cursor == lo)
    && (last != [] ==> last[|last| - 1].to == cursor)
    && (forall t :: t in done && t.Step? ==>
          t.span.to <= cursor && last != [] && (t.span == SpanOf(last[|last| - 1]) || t.span.to <= last[|last| - 1].from))
  }

  /** The next step of the tiling is the least span ahead. */
  lemma NextTiles(s: set<Span>, cursor: nat, hi: nat, m: Span)
    requires Within(s, hi) && cursor <= hi && IsLeast(Ahead(s, cursor), m)
    ensures m in s && Tiles(s, cursor, hi) == GapTile(cursor, m.from) + [Step(m)] + Tiles(s, m.to, hi)
  {
    assert m == Least(Ahead(s, cursor));
  }

  lemma LaidTiles(all: seq<Tile>, done: seq<Tile>, gap: seq<Tile>, m: Span, rest: seq<Tile>)
    requires all == done + (gap + [Step(m)] + rest)
    ensures all == done + gap + [Step(m)] + rest && m in StepSpans(all)
  {
    assert all[|done| + |gap|] == Step(m);
  }

  lemma LaidGaps(done: seq<Tile>, from: nat, to: nat, m: Span)
    ensures GapSpans(done + GapTile(from, to) + [Step(m)]) == GapSpans(done) + (if to > from then [Span(from, to)] else [])
  {
    GapSpansAppend(done + GapTile(from, to), [Step(m)]);
    GapSpansAppend(done, GapTile(from, to));
  }

  /** The next diff starts a new step. */
  lemma NextStep(s: set<Span>, lo: nat, hi: nat, done: seq<Tile>, cursor: nat, last: seq<Diff>, item: Diff)
    requires Standing(s, lo, hi, done, cursor, last) && IsLeast(Ahead(s, cursor), SpanOf(item))
    ensures Standing(s, lo, hi, done + GapTile(cursor, item.from) + [Step(SpanOf(item))], item.to, last + [item])
    ensures SpanOf(item) in StepSpans(Tiles(s, lo, hi))
    ensures GapSpans(done + GapTile(cursor, item.from) + [Step(SpanOf(item))]) ==
            GapSpans(done) + (if item.from > cursor then [Span(cursor, item.from)] else [])
  {
    var m := SpanOf(item);
    NextTiles(s, cursor, hi, m);
    LaidTiles(Tiles(s, lo, hi), done, GapTile(cursor, m.from), m, Tiles(s, m.to, hi));
    LaidGaps(done, cursor, m.from, m);
  }

  /** A diff that starts before the cursor is accepted only as part of the last step. */
  lemma Redundant(s: set<Span>, lo: nat, hi: nat, done: seq<Tile>, cursor: nat, last: seq<Diff>, item: Diff)
    requires Standing(s, lo, hi, done, cursor, last) && item.from < cursor && item.from < item.to
    requires last != [] ==> last[|last| - 1].from <= item.from && SpanOf(last[|last| - 1]) in StepSpans(Tiles(s, lo, hi))
    ensures SpanOf(item) in StepSpans(Tiles(s, lo, hi)) <==> last != [] && SpanOf(last[|last| - 1]) == SpanOf(item)
  {
    StepsRecorded(s, cursor, hi);
    if SpanOf(item) in StepSpans(Tiles(s, lo, hi)) {
      var t :| t in done + Tiles(s, cursor, hi) && t.Step? && t.span == SpanOf(item);
      assert t in done;
    }
  }

  lemma SameStep(s: set<Span>, lo: nat, hi: nat, done: seq<Tile>, cursor: nat, last: seq<Diff>, item: Diff)
    requires Standing(s, lo, hi, done, cursor, last) && last != [] && SpanOf(last[|last| - 1]) == SpanOf(item)
    ensures Standing(s, lo, hi, done, cursor, last + [item])
  {
  }

  /** The last diff kept belongs to a step of the tiling and starts no later than the ones ahead. */
  ghost predicate LastKept(known: seq<Diff>, steps: set<Span>, item: Diff) {
    known != [] ==> SpanOf(known[|known| - 1]) in steps && known[|known| - 1].from <= item.from
  }

  /** One turn of the walk. */
  method Visit(item: Diff, known: seq<Diff>, spans: seq<Span>, cursor: nat, ghost s: set<Span>, ghost lo: nat, ghost hi: nat, ghost done: seq<Tile>)
    returns (kept: seq<Diff>, gaps: seq<Span>, next: nat, ghost laid: seq<Tile>)
    requires Standing(s, lo, hi, done, cursor, known) && spans == GapSpans(done) && item.from < item.to
    requires LastKept(known, StepSpans(Tiles(s, lo, hi)), item)
    requires item.from >= cursor ==> IsLeast(Ahead(s, cursor), SpanOf(item))
    ensures Standing(s, lo, hi, laid, next, kept) && gaps == GapSpans(laid) && cursor <= next && item.from < next
    ensures LastKept(kept, StepSpans(Tiles(s, lo, hi)), item)
    ensures kept == known + if SpanOf(item) in StepSpans(Tiles(s, lo, hi)) then [item] else []
  {
    kept, gaps, next, laid := known, spans, cursor, done;
    var last := |known| - 1;
    var sameRevision := last >= 0 && known[last].from == item.from && known[last].to == item.to;
    if item.from < cursor { Redundant(s, lo, hi, done, cursor, known, item); }
    if item.to <= cursor {
      if !sameRevision { return; }
    } else if item.from < cursor {
      return;
    }
    if item.from >= cursor {
      NextStep(s, lo, hi, done, cursor, known, item);
      laid := done + GapTile(cursor, item.from) + [Step(SpanOf(item))];
    } else {
      SameStep(s, lo, hi, done, cursor, known, item);
    }
    if item.from > cursor { gaps := spans + [Span(cursor, item.from)]; }
    kept := known + [item];
    if item.to > cursor { next := item.to; }
  }

  /** Where the walk stands before the i-th receipt. */
  ghost predicate Reached(items: seq<Diff>, i: nat, lo: nat, hi: nat, known: seq<Diff>, spans: seq<Span>, cursor: nat, done: seq<Tile>) {
    && i <= |items| && lo <= hi && Within(SpansOf(items), hi)
    && Standing(SpansOf(items), lo, hi, done, cursor, known)
    && spans == GapSpans(done) && known == Accepted(items, i, StepSpans(Tiles(SpansOf(items), lo, hi)))
    && AllBefore(items, i, cursor)
    && (i < |items| ==> LastKept(known, StepSpans(Tiles(SpansOf(items), lo, hi)), items[i]))
  }

  method Turn(items: seq<Diff>, i: nat, ghost lo: nat, ghost hi: nat, known: seq<Diff>, spans: seq<Span>, cursor: nat, ghost done: seq<Tile>)
    returns (kept: seq<Diff>, gaps: seq<Span>, next: nat, ghost laid: seq<Tile>)
    requires i < |items| && InOrder(items, DiffLe) && items[i].from < items[i].to
    requires Reached(items, i, lo, hi, known, spans, cursor, done)
    ensures Reached(items, i + 1, lo, hi, kept, gaps, next, laid)
  {
    ghost var s := SpansOf(items);
    if items[i].from >= cursor { LeastIsNext(items, i, s, cursor); }
    kept, gaps, next, laid := Visit(items[i], known, spans, cursor, s, lo, hi, done);
    MoreBefore(items, i, cursor, next);
    if i + 1 < |items| { Onward(kept, StepSpans(Tiles(s, lo, hi)), items, i); }
  }

  /** The walk over receipts in order. */
  method Walk(items: seq<Diff>, lo: nat, hi: nat) returns (known: seq<Diff>, spans: seq<Span>, cursor: nat, ghost done: seq<Tile>)
    requires lo <= hi && InOrder(items, DiffLe) && Within(SpansOf(items), hi)
    requires forall i :: 0 <= i < |items| ==> lo <= items[i].from < items[i].to
    ensures Standing(SpansOf(items), lo, hi, done, cursor, known) && Ahead(SpansOf(items), cursor) == {}
    ensures spans == GapSpans(done) && known == Accepted(items, |items|, StepSpans(Tiles(SpansOf(items), lo, hi)))
  {
    known, spans, cursor, done := [], [], lo, [];
    assert [] + Tiles(SpansOf(items), lo, hi) == Tiles(SpansOf(items), lo, hi);
    for i := 0 to |items|
      invariant Reached(items, i, lo, hi, known, spans, cursor, done)
    {
      known, spans, cursor, done := Turn(items, i, lo, hi, known, spans, cursor, done);
    }
    NothingAhead(items, SpansOf(items), cursor);
  }

  predicate AllBefore(items: seq<Diff>, n: nat, cursor: nat)
    requires n <= |items|
  {
    forall j :: 0 <= j < n ==> items[j].from < cursor
  }

  lemma MoreBefore(items: seq<Diff>, i: nat, cursor: nat, next: nat)
    requires i < |items| && AllBefore(items, i, cursor) && cursor <= next && items[i].from < next
    ensures AllBefore(items, i + 1, next)
  {
  }

  lemma Onward(known: seq<Diff>, steps: set<Span>, items: seq<Diff>, i: nat)
    requires i + 1 < |items| && InOrder(items, DiffLe) && LastKept(known, steps, items[i])
    ensures LastKept(known, steps, items[i + 1])
  {
    assert DiffLe(items[i], items[i + 1]);
  }

  /** coverRevisionRange: the gaps are those of the tiling, and the diffs kept are those of its steps. */
  method CoverRange(recorded: seq<Diff>, lo: nat, hi: nat) returns (known: seq<Diff>, spans: seq<Span>, ghost sorted: seq<Diff>)
    requires lo <= hi && forall d :: d in recorded ==> lo <= d.from < d.to <= hi
    ensures Within(SpansOf(recorded), hi)
    ensures spans == GapSpans(Tiles(SpansOf(recorded), lo, hi))
    ensures Permutes(sorted, recorded) && InOrder(sorted, DiffLe)
    ensures known == Accepted(sorted, |sorted|, StepSpans(Tiles(SpansOf(recorded), lo, hi)))
  {
    DiffOrder();
    var items := Sort(recorded, DiffLe);
    sorted := items;
    PermutedMembers(items, recorded);
    assert SpansOf(items) == SpansOf(recorded);
    var cursor;
    ghost var done;
    known, spans, cursor, done := Walk(items, lo, hi);
    GapSpansAppend(done, GapTile(cursor, hi));
    if cursor < hi { spans := spans + [Span(cursor, hi)]; }
  }

  /** In order, the first diff not before the cursor is the least. */
  lemma LeastIsNext(items: seq<Diff>, i: nat, s: set<Span>, cursor: nat)
    requires i < |items| && InOrder(items, DiffLe) && s == SpansOf(items) && items[i].from >= cursor
    requires AllBefore(items, i, cursor)
    ensures IsLeast(Ahead(s, cursor), SpanOf(items[i]))
  {
    assert items[i] in items;
    forall x | x in Ahead(s, cursor) ensures NoLater(SpanOf(items[i]), x) {
      var j :| 0 <= j < |items| && SpanOf(items[j]) == x;
      if i < j { assert DiffLe(items[i], items[j]); }
    }
  }

  lemma NothingAhead(items: seq<Diff>, s: set<Span>, cursor: nat)
    requires s == SpansOf(items) && AllBefore(items, |items|, cursor)
    ensures Ahead(s, cursor) == {}
  {
    forall x | x in s ensures x.from < cursor {
      var j :| 0 <= j < |items| && SpanOf(items[j]) == x;
    }
  }
}
