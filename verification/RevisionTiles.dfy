/**
 How recorded revision steps and gaps tile a revision range, defined on the set of recorded
 spans alone: from the cursor, the least span that starts at or after it is the next step.
 */
module RevisionTiles {
  /** The revisions after `from` up to and including `to`. */
  datatype Span = Span(from: nat, to: nat)

  datatype Tile = Step(span: Span) | Gap(span: Span)

  predicate Covers(x: Span, p: nat) { x.from < p <= x.to }

  predicate NoLater(a: Span, b: Span) { a.from < b.from || (a.from == b.from && a.to <= b.to) }

  ghost predicate IsLeast(s: set<Span>, m: Span) { m in s && forall x :: x in s ==> NoLater(m, x) }

  lemma {:induction false} LeastExists(s: set<Span>) returns (m: Span)
    requires s != {}
    ensures IsLeast(s, m)
    decreases s
  {
    var x :| x in s;
    if s == {x} { return x; }
    var least := LeastExists(s - {x});
    m := if NoLater(x, least) then x else least;
    forall y | y in s ensures NoLater(m, y) {
      if y != x { assert y in s - {x}; }
    }
  }

  ghost function Least(s: set<Span>): (m: Span)
    requires s != {}
    ensures IsLeast(s, m)
  {
    assert exists m :: IsLeast(s, m) by { var m := LeastExists(s); }
    var m :| IsLeast(s, m);
    m
  }

  function Ahead(s: set<Span>, cursor: nat): (r: set<Span>) { set x | x in s && x.from >= cursor }

  ghost predicate Within(s: set<Span>, hi: nat) { forall x :: x in s ==> x.from < x.to <= hi }

  function GapTile(from: nat, to: nat): seq<Tile> { if from < to then [Gap(Span(from, to))] else [] }

  ghost function Tiles(s: set<Span>, cursor: nat, hi: nat): seq<Tile>
    requires Within(s, hi) && cursor <= hi
    decreases hi - cursor
  {
    var ahead := Ahead(s, cursor);
    if ahead == {} then GapTile(cursor, hi)
    else
      var m := Least(ahead);
      assert m in s;
      GapTile(cursor, m.from) + [Step(m)] + Tiles(s, m.to, hi)
  }

  function GapSpans(tiles: seq<Tile>): seq<Span> {
    if tiles == [] then []
    else (if tiles[0].Gap? then [tiles[0].span] else []) + GapSpans(tiles[1..])
  }

  function StepSpans(tiles: seq<Tile>): (r: set<Span>) { set t | t in tiles && t.Step? :: t.span }

  /** Tiles end to end from `from` to `to`, none of them empty. */
  predicate Chain(tiles: seq<Tile>, from: nat, to: nat)
    decreases |tiles|
  {
    if tiles == [] then from == to
    else tiles[0].span.from == from && from < tiles[0].span.to && Chain(tiles[1..], tiles[0].span.to, to)
  }

  /** p lies in some gap. */
  predicate InGap(tiles: seq<Tile>, p: nat) { exists i :: 0 <= i < |tiles| && tiles[i].Gap? && Covers(tiles[i].span, p) }

  predicate InStep(tiles: seq<Tile>, p: nat) { exists i :: 0 <= i < |tiles| && tiles[i].Step? && Covers(tiles[i].span, p) }

  // ---------- The tiling ----------

  lemma {:induction false} ChainAppend(a: seq<Tile>, b: seq<Tile>, from: nat, mid: nat, to: nat)
    requires Chain(a, from, mid) && Chain(b, mid, to)
    ensures Chain(a + b, from, to)
    decreases |a|
  {
    if a == [] {
      assert a + b == b;
    } else {
      ChainAppend(a[1..], b, a[0].span.to, mid, to);
      assert (a + b)[1..] == a[1..] + b;
    }
  }

  /** Steps and gaps tile the range in order, with no overlap and no empty tile. */
  lemma {:induction false} TilesChain(s: set<Span>, cursor: nat, hi: nat)
    requires Within(s, hi) && cursor <= hi
    ensures Chain(Tiles(s, cursor, hi), cursor, hi)
    decreases hi - cursor
  {
    var ahead := Ahead(s, cursor);
    if ahead != {} {
      var m := Least(ahead);
      TilesChain(s, m.to, hi);
      assert Chain(GapTile(cursor, m.from), cursor, m.from);
      assert Chain([Step(m)], m.from, m.to);
      ChainAppend(GapTile(cursor, m.from), [Step(m)], cursor, m.from, m.to);
      ChainAppend(GapTile(cursor, m.from) + [Step(m)], Tiles(s, m.to, hi), cursor, m.to, hi);
    }
  }

  /** Along a chain every position lies in a tile, and only in one. */
  lemma {:induction false} ChainCovers(tiles: seq<Tile>, from: nat, to: nat, p: nat)
    requires Chain(tiles, from, to) && from < p <= to
    ensures InGap(tiles, p) <==> !InStep(tiles, p)
    decreases |tiles|
  {
    ChainFrom(tiles, from, to);
    var rest := tiles[1..];
    if p <= tiles[0].span.to {
      ChainFrom(rest, tiles[0].span.to, to);
      assert forall i :: 0 < i < |tiles| ==> tiles[i] == rest[i - 1];
      assert Covers(tiles[0].span, p);
    } else {
      ChainCovers(rest, tiles[0].span.to, to, p);
      ShiftTiles(tiles, p);
    }
  }

  lemma {:induction false} ChainFrom(tiles: seq<Tile>, from: nat, to: nat)
    requires Chain(tiles, from, to)
    ensures from <= to && forall i :: 0 <= i < |tiles| ==> from <= tiles[i].span.from < tiles[i].span.to <= to
    decreases |tiles|
  {
    if tiles != [] {
      ChainFrom(tiles[1..], tiles[0].span.to, to);
      assert forall i :: 0 < i < |tiles| ==> tiles[i] == tiles[1..][i - 1];
    }
  }

  lemma ShiftTiles(tiles: seq<Tile>, p: nat)
    requires tiles != [] && !Covers(tiles[0].span, p)
    ensures InGap(tiles, p) <==> InGap(tiles[1..], p)
    ensures InStep(tiles, p) <==> InStep(tiles[1..], p)
  {
    var rest := tiles[1..];
    assert forall i :: 0 <= i < |rest| ==> rest[i] == tiles[i + 1];
    assert forall i :: 0 < i < |tiles| ==> tiles[i] == rest[i - 1];
  }

  lemma {:induction false} StepsRecorded(s: set<Span>, cursor: nat, hi: nat)
    requires Within(s, hi) && cursor <= hi
    ensures forall t :: t in Tiles(s, cursor, hi) && t.Step? ==> t.span in s && t.span.from >= cursor
    decreases hi - cursor
  {
    var ahead := Ahead(s, cursor);
    if ahead != {} {
      var m := Least(ahead);
      StepsRecorded(s, m.to, hi);
    }
  }

  /** A position outside the gaps is covered by a recorded span: no step is claimed without evidence. */
  lemma UncoveredInGap(s: set<Span>, lo: nat, hi: nat, p: nat)
    requires Within(s, hi) && lo < p <= hi && forall x :: x in s ==> !Covers(x, p)
    ensures InGap(Tiles(s, lo, hi), p)
  {
    var tiles := Tiles(s, lo, hi);
    TilesChain(s, lo, hi);
    ChainCovers(tiles, lo, hi, p);
    StepsRecorded(s, lo, hi);
    forall i | 0 <= i < |tiles| && tiles[i].Step? ensures !Covers(tiles[i].span, p) { assert tiles[i] in tiles; }
  }

  ghost predicate EqualOrDisjoint(s: set<Span>) {
    forall x, y :: x in s && y in s ==> x == y || x.to <= y.from || y.to <= x.from
  }

  /** No span lies across the cursor. */
  ghost predicate NoneAcross(s: set<Span>, cursor: nat) { forall x :: x in s ==> x.from >= cursor || x.to <= cursor }

  lemma {:induction false} CoveredInStep(s: set<Span>, cursor: nat, hi: nat, x: Span, p: nat)
    requires Within(s, hi) && cursor < p <= hi && EqualOrDisjoint(s) && NoneAcross(s, cursor) && x in s && Covers(x, p)
    ensures InStep(Tiles(s, cursor, hi), p)
    decreases hi - cursor
  {
    assert x in Ahead(s, cursor);
    var m := Least(Ahead(s, cursor));
    var tiles := Tiles(s, cursor, hi);
    var n := |GapTile(cursor, m.from)|;
    assert tiles[n] == Step(m);
    if p <= m.to {
      assert Covers(tiles[n].span, p);
    } else {
      CoveredInStep(s, m.to, hi, x, p);
      var rest := Tiles(s, m.to, hi);
      var i :| 0 <= i < |rest| && rest[i].Step? && Covers(rest[i].span, p);
      assert tiles[n + 1 + i] == rest[i];
    }
  }

  /** When recorded spans are pairwise equal or disjoint, a position is in a gap exactly when no
      recorded span covers it. */
  lemma GapIffUncovered(s: set<Span>, lo: nat, hi: nat, p: nat)
    requires Within(s, hi) && lo < p <= hi && EqualOrDisjoint(s) && forall x :: x in s ==> x.from >= lo
    ensures InGap(Tiles(s, lo, hi), p) <==> forall x :: x in s ==> !Covers(x, p)
  {
    TilesChain(s, lo, hi);
    ChainCovers(Tiles(s, lo, hi), lo, hi, p);
    if x :| x in s && Covers(x, p) {
      CoveredInStep(s, lo, hi, x, p);
    } else {
      UncoveredInGap(s, lo, hi, p);
    }
  }

  // ---------- Overlapping spans ----------

  /** Some recorded span runs across e. */
  ghost predicate Crossed(s: set<Span>, e: nat) { exists x :: x in s && x.from < e < x.to }

  ghost predicate Starts(s: set<Span>, e: nat) { exists y :: y in s && y.from == e }

  /** Wherever a recorded span runs past the end of an accepted step, another one starts there. */
  ghost predicate Continued(s: set<Span>, lo: nat, hi: nat)
    requires Within(s, hi) && lo <= hi
  {
    var tiles := Tiles(s, lo, hi);
    forall i :: 0 <= i < |tiles| && tiles[i].Step? && Crossed(s, tiles[i].span.to) ==> Starts(s, tiles[i].span.to)
  }

  ghost predicate Covered(s: set<Span>, p: nat) { exists x :: x in s && Covers(x, p) }

  lemma {:induction false} NextTile(tiles: seq<Tile>, from: nat, to: nat, i: nat)
    requires Chain(tiles, from, to) && i < |tiles|
    ensures i + 1 < |tiles| ==> tiles[i + 1].span.from == tiles[i].span.to
    ensures i + 1 == |tiles| ==> tiles[i].span.to == to
    ensures i == 0 ==> tiles[0].span.from == from
    decreases |tiles|
  {
    var rest := tiles[1..];
    if i > 0 {
      NextTile(rest, tiles[0].span.to, to, i - 1);
      assert tiles[i] == rest[i - 1];
      if i + 1 < |tiles| { assert tiles[i + 1] == rest[i]; }
    } else if |tiles| > 1 {
      assert tiles[1] == rest[0];
    }
  }

  /** No recorded span starts inside a gap, and a gap does not follow a gap. */
  lemma {:induction false} GapTileFacts(s: set<Span>, cursor: nat, hi: nat, i: nat)
    requires Within(s, hi) && cursor <= hi && i < |Tiles(s, cursor, hi)| && Tiles(s, cursor, hi)[i].Gap?
    ensures var g := Tiles(s, cursor, hi)[i].span; forall x :: x in s ==> !(g.from <= x.from < g.to)
    ensures i > 0 ==> Tiles(s, cursor, hi)[i - 1].Step?
    decreases hi - cursor
  {
    var tiles, ahead := Tiles(s, cursor, hi), Ahead(s, cursor);
    if ahead == {} {
      assert tiles == GapTile(cursor, hi);
      forall x | x in s ensures !(tiles[i].span.from <= x.from < tiles[i].span.to) { assert x in ahead <==> x.from >= cursor; }
    } else {
      var m := Least(ahead);
      var n := |GapTile(cursor, m.from)|;
      if i < n {
        forall x | x in s ensures !(cursor <= x.from < m.from) { assert x in ahead <==> x.from >= cursor; }
      } else {
        var rest := Tiles(s, m.to, hi);
        assert tiles[n] == Step(m) && i > n && tiles[i] == rest[i - n - 1];
        GapTileFacts(s, m.to, hi, i - n - 1);
        if i > n + 1 { assert tiles[i - 1] == rest[i - n - 2]; }
      }
    }
  }

  /** If the walk is continued past every crossed step, nothing covered is left in a gap. */
  lemma ContinuedCovers(s: set<Span>, lo: nat, hi: nat, p: nat)
    requires Within(s, hi) && lo < p <= hi && (forall x :: x in s ==> x.from >= lo) && Continued(s, lo, hi) && Covered(s, p)
    ensures !InGap(Tiles(s, lo, hi), p)
  {
    var tiles := Tiles(s, lo, hi);
    TilesChain(s, lo, hi);
    var x :| x in s && Covers(x, p);
    forall i | 0 <= i < |tiles| && tiles[i].Gap? ensures !Covers(tiles[i].span, p) {
      GapTileFacts(s, lo, hi, i);
      NextTile(tiles, lo, hi, if i > 0 then i - 1 else 0);
      if i > 0 { NotPastStep(s, tiles[i - 1].span.to, tiles[i].span, x, p); }
    }
  }

  lemma NotPastStep(s: set<Span>, e: nat, gap: Span, x: Span, p: nat)
    requires x in s && Covers(x, p) && gap.from == e && (Crossed(s, e) ==> Starts(s, e))
    requires forall y :: y in s ==> !(gap.from <= y.from < gap.to)
    ensures !Covers(gap, p)
  {
    assert x.from < e < x.to ==> Crossed(s, e);
    assert gap.from < gap.to ==> !Starts(s, e);
  }

  /** If nothing covered is left in a gap, the walk is continued past every crossed step. */
  lemma CoversContinued(s: set<Span>, lo: nat, hi: nat, i: nat)
    requires Within(s, hi) && lo <= hi && (forall p :: lo < p <= hi && Covered(s, p) ==> !InGap(Tiles(s, lo, hi), p))
    requires i < |Tiles(s, lo, hi)| && Crossed(s, Tiles(s, lo, hi)[i].span.to)
    ensures Starts(s, Tiles(s, lo, hi)[i].span.to)
  {
    var tiles := Tiles(s, lo, hi);
    var e := tiles[i].span.to;
    TilesChain(s, lo, hi);
    ChainFrom(tiles, lo, hi);
    NextTile(tiles, lo, hi, i);
    StepsRecorded(s, lo, hi);
    var x :| x in s && x.from < e < x.to;
    assert Covers(x, e + 1) && Covered(s, e + 1);
    assert tiles[i + 1] in tiles && Covers(tiles[i + 1].span, e + 1);
    if tiles[i + 1].Gap? { assert InGap(tiles, e + 1); }
  }

  /** For any recorded spans: being in a gap and being covered by no span are the same for every revision
      of the range exactly when, wherever a span runs past the end of an accepted step, another one
      starts there. */
  lemma GapsExactIffContinued(s: set<Span>, lo: nat, hi: nat)
    requires Within(s, hi) && lo <= hi && forall x :: x in s ==> x.from >= lo
    ensures (forall p :: lo < p <= hi ==> (InGap(Tiles(s, lo, hi), p) <==> !Covered(s, p))) <==> Continued(s, lo, hi)
  {
    var tiles := Tiles(s, lo, hi);
    forall p | lo < p <= hi && !Covered(s, p) ensures InGap(tiles, p) {
      forall x | x in s ensures !Covers(x, p) {}
      UncoveredInGap(s, lo, hi, p);
    }
    if Continued(s, lo, hi) {
      forall p | lo < p <= hi && Covered(s, p) ensures !InGap(tiles, p) { ContinuedCovers(s, lo, hi, p); }
    }
    if forall p :: lo < p <= hi ==> (InGap(tiles, p) <==> !Covered(s, p)) {
      forall i | 0 <= i < |tiles| && tiles[i].Step? && Crossed(s, tiles[i].span.to) ensures Starts(s, tiles[i].span.to) {
        CoversContinued(s, lo, hi, i);
      }
    }
  }

  /** Overlapping spans are skipped conservatively: of [1, 3] and [2, 5] only the first is a step, and
      revision 4 is in a gap although the second covers it. */
  lemma OverlapSkipped()
    ensures var s := {Span(1, 3), Span(2, 5)};
            && Tiles(s, 1, 5) == [Step(Span(1, 3)), Gap(Span(3, 5))]
            && InGap(Tiles(s, 1, 5), 4) && Covers(Span(2, 5), 4)
  {
    var s := {Span(1, 3), Span(2, 5)};
    assert Span(1, 3) in Ahead(s, 1);
    var m := Least(Ahead(s, 1));
    assert m == Span(1, 3);
    assert Ahead(s, 3) == {};
    assert Tiles(s, 3, 5) == [Gap(Span(3, 5))];
    assert GapTile(1, 1) == [];
    var tiles := [Step(Span(1, 3)), Gap(Span(3, 5))];
    assert Tiles(s, 1, 5) == tiles;
    assert tiles[1].Gap? && Covers(tiles[1].span, 4);
  }
}
