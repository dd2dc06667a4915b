/** Bounded edit distance over byte strings, and the name matcher that asks for it. */
module EditDistance {
  import opened Basics

  type byte = b: int | 0 <= b < 256

  function Min(x: int, y: int): int { if x <= y then x else y }

  /** The Levenshtein recurrence: the distance between the first `i` bytes of `a` and the first
      `j` bytes of `b`. */
  function Lev(a: seq<byte>, b: seq<byte>, i: nat, j: nat): nat
    requires i <= |a| && j <= |b|
    decreases i + j
  {
    if i == 0 then j
    else if j == 0 then i
    else
      Min(Min(Lev(a, b, i - 1, j) + 1, Lev(a, b, i, j - 1) + 1),
          Lev(a, b, i - 1, j - 1) + (if a[i - 1] == b[j - 1] then 0 else 1))
  }

  function Distance(a: seq<byte>, b: seq<byte>): nat { Lev(a, b, |a|, |b|) }

  // ---------- What the recurrence means: the cheapest edit script ----------

  datatype Edit = Keep | Change(c: byte) | Insert(c: byte) | Delete

  /** The string a script turns `a` into, if it fits `a` exactly. */
  function Rewrite(script: seq<Edit>, a: seq<byte>): Option<seq<byte>>
    decreases |script|
  {
    if script == [] then (if a == [] then Some([]) else None)
    else
      match Last(script)
      case Insert(c) =>
        var r := Rewrite(Front(script), a);
        if r.None? then None else Some(r.value + [c])
      case Delete => if a == [] then None else Rewrite(Front(script), Front(a))
      case Keep =>
        if a == [] then None
        else
          var r := Rewrite(Front(script), Front(a));
          if r.None? then None else Some(r.value + [Last(a)])
      case Change(c) =>
        if a == [] then None
        else
          var r := Rewrite(Front(script), Front(a));
          if r.None? then None else Some(r.value + [c])
  }

  function Cost(script: seq<Edit>): nat
    decreases |script|
  {
    if script == [] then 0 else Cost(Front(script)) + (if Last(script).Keep? then 0 else 1)
  }

  lemma {:induction false} ScriptsCostAtLeast(script: seq<Edit>, a: seq<byte>, b: seq<byte>, i: nat, j: nat)
    requires i <= |a| && j <= |b| && Rewrite(script, a[..i]) == Some(b[..j])
    ensures Cost(script) >= Lev(a, b, i, j)
    decreases |script|
  {
    if script != [] {
      if i > 0 { assert Front(a[..i]) == a[..i - 1]; }
      if j > 0 { assert Front(b[..j]) == b[..j - 1] && Last(b[..j]) == b[j - 1]; }
      match Last(script) {
        case Insert(c) =>
          PrefixOf(Rewrite(Front(script), a[..i]).value, c, b, j);
          ScriptsCostAtLeast(Front(script), a, b, i, j - 1);
        case Delete => ScriptsCostAtLeast(Front(script), a, b, i - 1, j);
        case Keep =>
          PrefixOf(Rewrite(Front(script), a[..i - 1]).value, a[i - 1], b, j);
          ScriptsCostAtLeast(Front(script), a, b, i - 1, j - 1);
        case Change(c) =>
          PrefixOf(Rewrite(Front(script), a[..i - 1]).value, c, b, j);
          ScriptsCostAtLeast(Front(script), a, b, i - 1, j - 1);
      }
    }
  }

  lemma PrefixOf(r: seq<byte>, c: byte, b: seq<byte>, j: nat)
    requires j <= |b| && r + [c] == b[..j]
    ensures j > 0 && r == b[..j - 1] && c == b[j - 1]
  {
    assert |r + [c]| == j;
    assert (r + [c])[j - 1] == c && (r + [c])[..j - 1] == r;
  }

  lemma {:induction false} CheapestScript(a: seq<byte>, b: seq<byte>, i: nat, j: nat) returns (script: seq<Edit>)
    requires i <= |a| && j <= |b|
    ensures Rewrite(script, a[..i]) == Some(b[..j]) && Cost(script) == Lev(a, b, i, j)
    decreases i + j
  {
    if i > 0 { assert Front(a[..i]) == a[..i - 1] && Last(a[..i]) == a[i - 1]; }
    if j > 0 { assert b[..j - 1] + [b[j - 1]] == b[..j]; }
    if i == 0 && j == 0 {
      script := [];
    } else if i == 0 || (j > 0 && Lev(a, b, i, j) == Lev(a, b, i, j - 1) + 1) {
      var s := CheapestScript(a, b, i, j - 1);
      script := s + [Insert(b[j - 1])];
      assert Front(script) == s;
    } else if j == 0 || Lev(a, b, i, j) == Lev(a, b, i - 1, j) + 1 {
      var s := CheapestScript(a, b, i - 1, j);
      script := s + [Delete];
      assert Front(script) == s;
    } else {
      var s := CheapestScript(a, b, i - 1, j - 1);
      script := s + [if a[i - 1] == b[j - 1] then Keep else Change(b[j - 1])];
      assert Front(script) == s;
    }
  }

  /** The distance is the least cost of any script turning one string into the other. */
  lemma DistanceIsLeastCost(a: seq<byte>, b: seq<byte>)
    ensures exists script :: Rewrite(script, a) == Some(b) && Cost(script) == Distance(a, b)
    ensures forall script :: Rewrite(script, a) == Some(b) ==> Cost(script) >= Distance(a, b)
  {
    assert a[..|a|] == a && b[..|b|] == b;
    var best := CheapestScript(a, b, |a|, |b|);
    forall script | Rewrite(script, a) == Some(b) ensures Cost(script) >= Distance(a, b) {
      ScriptsCostAtLeast(script, a, b, |a|, |b|);
    }
  }

  // ---------- The two early exits ----------

  lemma {:induction false} LengthGap(a: seq<byte>, b: seq<byte>, i: nat, j: nat)
    requires i <= |a| && j <= |b|
    ensures Lev(a, b, i, j) >= i - j && Lev(a, b, i, j) >= j - i
    decreases i + j
  {
    if i > 0 && j > 0 {
      var i', j' := LevFrom(a, b, i, j);
      LengthGap(a, b, i', j');
    }
  }

  /** The cell a cell's value comes from: the lengths change there by no more than the value does. */
  lemma LevFrom(a: seq<byte>, b: seq<byte>, i: nat, j: nat) returns (i': nat, j': nat)
    requires 0 < i <= |a| && 0 < j <= |b|
    ensures i - 1 <= i' <= i && j - 1 <= j' <= j && i' + j' < i + j
    ensures var d := Lev(a, b, i, j) - Lev(a, b, i', j'); d >= 0 && -d <= (i - j) - (i' - j') <= d
  {
    if Lev(a, b, i, j) == Lev(a, b, i, j - 1) + 1 { i', j' := i, j - 1; }
    else if Lev(a, b, i, j) == Lev(a, b, i - 1, j) + 1 { i', j' := i - 1, j; }
    else { i', j' := i - 1, j - 1; }
  }

  /** Row minima never decrease: every earlier row of the table has an entry no larger than
      any entry of a later row. */
  lemma {:induction false} RowBelow(a: seq<byte>, b: seq<byte>, row: nat, i: nat, j: nat) returns (k: nat)
    requires row <= i <= |a| && j <= |b|
    ensures k <= j && Lev(a, b, row, k) <= Lev(a, b, i, j)
    decreases i + j
  {
    if row == i {
      k := j;
    } else if j == 0 {
      k := 0;
    } else {
      var i', j' := LevFrom(a, b, i, j);
      k := RowBelow(a, b, row, i', j');
    }
  }

  /** Line `i` of the distance table. */
  ghost function Line(a: seq<byte>, b: seq<byte>, i: nat): (line: seq<int>)
    requires i <= |a|
    ensures |line| == |b| + 1 && forall j :: 0 <= j <= |b| ==> line[j] == Lev(a, b, i, j)
  {
    seq(|b| + 1, j requires 0 <= j <= |b| => Lev(a, b, i, j))
  }

  /** `line` follows from the line above it by the recurrence, for the byte `c` of the left string. */
  ghost predicate Follows(line: seq<int>, above: seq<int>, b: seq<byte>, c: byte, i: nat) {
    && |line| == |above| == |b| + 1 && line[0] == i
    && forall j :: 1 <= j <= |b| ==>
         line[j] == Min(Min(above[j] + 1, line[j - 1] + 1), above[j - 1] + (if c == b[j - 1] then 0 else 1))
  }

  lemma LineFollows(a: seq<byte>, b: seq<byte>, i: nat)
    requires 1 <= i <= |a|
    ensures Follows(Line(a, b, i), Line(a, b, i - 1), b, a[i - 1], i)
  {
    var line, above := Line(a, b, i), Line(a, b, i - 1);
    assert line[0] == Lev(a, b, i, 0);
    forall j | 1 <= j <= |b|
      ensures line[j] == Min(Min(above[j] + 1, line[j - 1] + 1), above[j - 1] + (if a[i - 1] == b[j - 1] then 0 else 1))
    {
      Cell(a, b, i, j, line, above);
    }
  }

  lemma Cell(a: seq<byte>, b: seq<byte>, i: nat, j: nat, line: seq<int>, above: seq<int>)
    requires 1 <= i <= |a| && 1 <= j <= |b| && |line| == |above| == |b| + 1
    requires line[j] == Lev(a, b, i, j) && line[j - 1] == Lev(a, b, i, j - 1)
    requires above[j] == Lev(a, b, i - 1, j) && above[j - 1] == Lev(a, b, i - 1, j - 1)
    ensures line[j] == Min(Min(above[j] + 1, line[j - 1] + 1), above[j - 1] + (if a[i - 1] == b[j - 1] then 0 else 1))
  {
  }

  /** A row of the table above the bound rules the whole distance out. */
  lemma LineExceeds(a: seq<byte>, b: seq<byte>, i: nat, bound: int)
    requires i <= |a| && forall k :: 0 <= k <= |b| ==> bound < Line(a, b, i)[k]
    ensures Distance(a, b) > bound
  {
    var k := RowBelow(a, b, i, |a|, |b|);
    assert Line(a, b, i)[k] == Lev(a, b, i, k);
  }

  /** Fills one line of the table from the line above and returns its minimum. */
  method FillRow(right: seq<byte>, c: byte, i: nat, previous: array<int>, current: array<int>, ghost line: seq<int>)
    returns (smallest: int)
    requires previous != current && current.Length == |right| + 1
    requires Follows(line, previous[..], right, c, i)
    modifies current
    ensures current[..] == line
    ensures smallest in line && forall k :: 0 <= k <= |right| ==> smallest <= line[k]
  {
    current[0] := i;
    smallest := current[0];
    for j := 1 to |right| + 1
      invariant current[..j] == line[..j]
      invariant smallest in line[..j] && forall k :: 0 <= k < j ==> smallest <= line[k]
    {
      assert current[j - 1] == current[..j][j - 1];
      var cost := if c == right[j - 1] then 0 else 1;
      current[j] := Min(Min(previous[j] + 1, current[j - 1] + 1), previous[j - 1] + cost);
      smallest := Min(smallest, current[j]);
      assert line[..j + 1] == line[..j] + [line[j]];
    }
  }

  /** The distance itself, or bound + 1 when an early exit proved it larger than bound. */
  method EditDistance(left: seq<byte>, right: seq<byte>, bound: int) returns (d: int)
    ensures d == Distance(left, right) || (d == bound + 1 && Distance(left, right) > bound)
    ensures d <= bound <==> Distance(left, right) <= bound
  {
    LengthGap(left, right, |left|, |right|);
    if |left| - |right| > bound || |right| - |left| > bound {
      return bound + 1;
    }
    var previous := new int[|right| + 1];
    var current := new int[|right| + 1];
    for j := 0 to |right| + 1
      invariant forall k :: 0 <= k < j ==> previous[k] == k
    {
      previous[j] := j;
    }
    FirstLine(left, right, previous[..]);
    var i := 1;
    while i <= |left|
      invariant 1 <= i <= |left| + 1
      invariant previous != current && current.Length == |right| + 1
      invariant fresh(previous) && fresh(current)
      invariant previous[..] == Line(left, right, i - 1)
    {
      LineFollows(left, right, i);
      var smallest := FillRow(right, left[i - 1], i, previous, current, Line(left, right, i));
      if smallest > bound {
        LineExceeds(left, right, i, bound);
        return bound + 1;
      }
      previous, current := current, previous;
      i := i + 1;
    }
    return previous[|right|];
  }

  lemma FirstLine(a: seq<byte>, b: seq<byte>, row: seq<int>)
    requires |row| == |b| + 1 && forall j :: 0 <= j <= |b| ==> row[j] == j
    ensures row == Line(a, b, 0)
  {
  }

  const UNDERSCORE: byte := 95

  predicate HasPrefix(s: seq<byte>, prefix: seq<byte>): (r: bool)
    ensures r <==> exists rest :: s == prefix + rest
  {
    assert |prefix| <= |s| && s[..|prefix|] == prefix ==> s == prefix + s[|prefix|..];
    |prefix| <= |s| && s[..|prefix|] == prefix
  }

  /** Whether a rejected name is a slip for a declared one. */
  method NearMiss(key: seq<byte>, sibling: seq<byte>) returns (near: bool)
    ensures near <==>
            && key != sibling && |key| >= 4 && |sibling| >= 4
            && (|| (exists rest :: sibling == key + [0x5F] + rest)
                || (exists rest :: key == sibling + [0x5F] + rest)
                || Distance(key, sibling) <= (if |key| >= 8 then 2 else 1))
  {
    if key == sibling || |key| < 4 || |sibling| < 4 {
      return false;
    }
    if HasPrefix(sibling, key + [UNDERSCORE]) || HasPrefix(key, sibling + [UNDERSCORE]) {
      return true;
    }
    var allowed := 1;
    if |key| >= 8 { allowed := 2; }
    var d := EditDistance(key, sibling, allowed);
    return d <= allowed;
  }
}
