/**
 Line windows of a document: the byte range of a run of lines, the number of lines, and the
 windows a reader pages through.
 */
module LineWindows {
  import opened Basics

  datatype Result<+T> = Ok(value: T) | Err(error: Error)

  datatype Error = LineBelowOne | LastBeforeFirst | OutsideDocument | StartPastEnd(start: int, total: nat)

  // ---------- Newlines ----------

  /** The first newline at or after i, or the end. */
  function Newline(content: string, i: nat): (r: nat)
    requires i <= |content|
    ensures i <= r <= |content| && (r < |content| ==> content[r] == '\n')
    ensures forall j :: i <= j < r ==> content[j] != '\n'
    decreases |content| - i
  {
    if i == |content| || content[i] == '\n' then i else Newline(content, i + 1)
  }

  function Count(content: string, i: nat): nat
    requires i <= |content|
    decreases |content| - i
  {
    if i == |content| then 0 else (if content[i] == '\n' then 1 else 0) + Count(content, i + 1)
  }

  function LineCount(content: string): nat {
    if content == "" then 0
    else Count(content, 0) + if content[|content| - 1] != '\n' then 1 else 0
  }

  /** Where the k-th line after i starts, if k newlines follow. */
  function Skip(content: string, i: nat, k: nat): (r: Option<nat>)
    requires i <= |content|
    ensures r.Some? ==> i <= r.value <= |content|
    decreases k
  {
    var n := Newline(content, i);
    if k == 0 then Some(i) else if n == |content| then None else Skip(content, n + 1, k - 1)
  }

  /** Where a run of k lines from i ends. */
  function EndOf(content: string, i: nat, k: nat, includeNewline: bool): (r: nat)
    requires i <= |content|
    ensures i <= r <= |content|
    decreases k
  {
    var n := Newline(content, i);
    if k == 0 then i
    else if n == |content| then n
    else if k == 1 then (if includeNewline then n + 1 else n)
    else EndOf(content, n + 1, k - 1, includeNewline)
  }

  /** The byte range of the lines first to last, and when there is one. */
  function Span(content: string, first: int, last: int, includeNewline: bool): (r: Result<(nat, nat)>)
    ensures r.Ok? ==> r.value.0 <= r.value.1 <= |content|
  {
    if first < 1 then Err(LineBelowOne)
    else if last < first then Err(LastBeforeFirst)
    else
      var start := Skip(content, 0, first - 1);
      if start.None? || (start.value >= |content| && !(start.value == |content| && first == 1)) then Err(OutsideDocument)
      else Ok((start.value, EndOf(content, start.value, last - first + 1, includeNewline)))
  }

  /** bytes.IndexByte, as an offset from the start of the document. */
  method FindNewline(content: string, i: nat) returns (n: nat)
    requires i <= |content|
    ensures n == Newline(content, i)
  {
    n := i;
    while n < |content| && content[n] != '\n'
      invariant i <= n <= |content| && Newline(content, i) == Newline(content, n)
    {
      n := n + 1;
    }
  }

  /** The first loop of lineSpan. */
  method FindStart(content: string, first: nat) returns (start: Option<nat>)
    requires first >= 1
    ensures start == Skip(content, 0, first - 1)
  {
    var at: nat := 0;
    var current := 1;
    while current < first
      invariant 1 <= current <= first && at <= |content|
      invariant Skip(content, 0, first - 1) == Skip(content, at, first - current)
      decreases first - current
    {
      var index := FindNewline(content, at);
      if index == |content| { return None; }
      at := index + 1;
      current := current + 1;
    }
    return Some(at);
  }

  /** The second loop. */
  method FindEnd(content: string, start: nat, first: nat, last: nat, includeNewline: bool) returns (end: nat)
    requires start <= |content| && first <= last
    ensures end == EndOf(content, start, last - first + 1, includeNewline)
  {
    end := start;
    var current := first;
    while current <= last
      invariant first <= current <= last + 1 && start <= end <= |content|
      invariant EndOf(content, start, last - first + 1, includeNewline) == EndOf(content, end, last - current + 1, includeNewline)
      decreases last + 1 - current
    {
      var index := FindNewline(content, end);
      if index == |content| { return |content|; }
      if current == last { return if includeNewline then index + 1 else index; }
      end := index + 1;
      current := current + 1;
    }
  }

  /** lineSpan. */
  method LineSpan(content: string, first: int, last: int, includeNewline: bool) returns (r: Result<(nat, nat)>)
    ensures r == Span(content, first, last, includeNewline)
  {
    if first < 1 { return Err(LineBelowOne); }
    if last < first { return Err(LastBeforeFirst); }
    var start := FindStart(content, first);
    if start.None? { return Err(OutsideDocument); }
    if start.value >= |content| && !(start.value == |content| && first == 1) { return Err(OutsideDocument); }
    var end := FindEnd(content, start.value, first, last, includeNewline);
    return Ok((start.value, end));
  }

  // ---------- Which lines exist ----------

  lemma {:induction false} CountFrom(content: string, i: nat)
    requires i <= |content|
    ensures var n := Newline(content, i); Count(content, i) == if n == |content| then 0 else 1 + Count(content, n + 1)
    decreases |content| - i
  {
    if i < |content| && content[i] != '\n' { CountFrom(content, i + 1); }
  }

  lemma {:induction false} SkipIffCount(content: string, i: nat, k: nat)
    requires i <= |content|
    ensures Skip(content, i, k).Some? <==> k <= Count(content, i)
    ensures Skip(content, i, k).Some? ==> Count(content, Skip(content, i, k).value) == Count(content, i) - k
    ensures Skip(content, i, k).Some? && k > 0 ==> Skip(content, i, k).value > 0 && content[Skip(content, i, k).value - 1] == '\n'
    decreases k
  {
    CountFrom(content, i);
    var n := Newline(content, i);
    if k > 0 && n < |content| { SkipIffCount(content, n + 1, k - 1); }
  }

  /** Exactly the lines up to the line count can be addressed, and line one of an empty document. */
  lemma SpanOkIff(content: string, first: int, last: int, includeNewline: bool)
    ensures Span(content, first, last, includeNewline).Ok? <==>
            1 <= first <= last && (first <= LineCount(content) || first == 1)
  {
    if 1 <= first <= last {
      SkipIffCount(content, 0, first - 1);
      CountZero(content);
      var start := Skip(content, 0, first - 1);
      if start.Some? && start.value < |content| && content[|content| - 1] == '\n' { SomeNewline(content, start.value); }
    }
  }

  lemma CountZero(content: string)
    ensures Count(content, |content|) == 0
  {
  }

  lemma {:induction false} SkipTwice(content: string, i: nat, j: nat, k: nat)
    requires i <= |content| && Skip(content, i, j).Some?
    ensures Skip(content, i, j + k) == Skip(content, Skip(content, i, j).value, k)
    decreases j
  {
    if j > 0 { SkipTwice(content, Newline(content, i) + 1, j - 1, k); }
  }

  /** A run of whole lines ends where the next line starts, or at the end. */
  lemma {:induction false} EndIsNextStart(content: string, i: nat, k: nat)
    requires i <= |content| && k > 0
    ensures EndOf(content, i, k, true) == if Skip(content, i, k).Some? then Skip(content, i, k).value else |content|
    decreases k
  {
    var n := Newline(content, i);
    if n < |content| && k > 1 { EndIsNextStart(content, n + 1, k - 1); }
    if n < |content| && k == 1 { assert Skip(content, n + 1, 0) == Some(n + 1); }
  }

  /** Without its newline a run of lines ends just before it; the last line of a document may have none. */
  lemma {:induction false} WithoutNewline(content: string, i: nat, k: nat)
    requires i <= |content| && k > 0
    ensures var full, bare := EndOf(content, i, k, true), EndOf(content, i, k, false);
            && i <= bare && (bare < |content| ==> content[bare] == '\n' && full == bare + 1) && (bare == |content| ==> full == bare)
    ensures k == 1 ==> forall j :: i <= j < EndOf(content, i, k, false) ==> content[j] != '\n'
    decreases k
  {
    var n := Newline(content, i);
    if n < |content| && k > 1 { WithoutNewline(content, n + 1, k - 1); }
  }

  /** lineByteRange: one line without its newline, starting where the line starts. */
  lemma OneLineSpan(content: string, line: int)
    requires Span(content, line, line, false).Ok?
    ensures var bare := Span(content, line, line, false).value;
            && (forall j :: bare.0 <= j < bare.1 ==> content[j] != '\n')
            && (bare.1 == |content| || content[bare.1] == '\n')
            && (bare.0 == 0 || content[bare.0 - 1] == '\n')
            && Span(content, line, line, true) == Ok((bare.0, if bare.1 < |content| then bare.1 + 1 else bare.1))
  {
    var start := Skip(content, 0, line - 1).value;
    WithoutNewline(content, start, 1);
    SkipIffCount(content, 0, line - 1);
  }

  // ---------- Windows ----------

  /** boundedLines: the window and the lines delivered; (0, 0) asks for the whole document. */
  function Bounded(content: string, startLine: int, endLine: int): Result<(string, int, int)> {
    if startLine == 0 && endLine == 0 then Ok((content, 0, 0))
    else
      var first := if startLine == 0 then 1 else startLine;
      var wanted := if endLine == 0 then first else endLine;
      var total := LineCount(content);
      if wanted < first then Err(LastBeforeFirst)
      else if first > total then Err(StartPastEnd(first, total))
      else
        var last := if wanted > total then total else wanted;
        var span := Span(content, first, last, true);
        if span.Ok? then Ok((content[span.value.0..span.value.1], first, last)) else Err(span.error)
  }

  /** The lines first to last. */
  function Window(content: string, first: nat, last: nat): string
    requires 1 <= first <= last && first <= LineCount(content)
  {
    SpanOkIff(content, first, last, true);
    var span := Span(content, first, last, true).value;
    content[span.0..span.1]
  }

  /** A window within the document is always delivered: the range error is unreachable, and the
      lines delivered are the ones asked for, cut at the last line. */
  lemma BoundedDelivers(content: string, startLine: int, endLine: int)
    requires 1 <= startLine <= LineCount(content) && (endLine == 0 || startLine <= endLine)
    ensures var wanted := if endLine == 0 then startLine else endLine;
            var last := if wanted > LineCount(content) then LineCount(content) else wanted;
            Bounded(content, startLine, endLine) == Ok((Window(content, startLine, last), startLine, last))
  {
    var wanted := if endLine == 0 then startLine else endLine;
    var last := if wanted > LineCount(content) then LineCount(content) else wanted;
    SpanOkIff(content, startLine, last, true);
  }

  /** Every request: (0, 0) gets the whole document, a missing start is line one, a missing end the start;
      an end before the start and a start past the last line are refused, and so is a negative start. */
  lemma BoundedAnswers(content: string, startLine: int, endLine: int)
    ensures var r := Bounded(content, startLine, endLine);
            var whole := startLine == 0 && endLine == 0;
            var first := if startLine == 0 then 1 else startLine;
            var wanted := if endLine == 0 then first else endLine;
            && (whole ==> r == Ok((content, 0, 0)))
            && (!whole && wanted < first <==> r == Err(LastBeforeFirst))
            && (!whole && first <= wanted && LineCount(content) < first <==> r == Err(StartPastEnd(first, LineCount(content))))
            && (!whole && first <= wanted && first <= LineCount(content) && first < 1 <==> r == Err(LineBelowOne))
            && (!whole && 1 <= first <= wanted && first <= LineCount(content) ==>
                  r == Ok((Window(content, first, wanted), first, if LineCount(content) < wanted then LineCount(content) else wanted)))
  {
    var first := if startLine == 0 then 1 else startLine;
    var wanted := if endLine == 0 then first else endLine;
    var last := if wanted > LineCount(content) then LineCount(content) else wanted;
    SpanOkIff(content, first, last, true);
    if !(startLine == 0 && endLine == 0) && 1 <= first <= wanted && first <= LineCount(content) { WindowPastEnd(content, first, wanted); }
  }

  /** A window reaching past the last line is the window to the last line. */
  lemma WindowPastEnd(content: string, first: nat, wanted: nat)
    requires 1 <= first <= wanted && first <= LineCount(content)
    ensures var last := if wanted > LineCount(content) then LineCount(content) else wanted;
            Window(content, first, wanted) == Window(content, first, last)
  {
    if wanted > LineCount(content) {
      WindowRange(content, first, wanted);
      WindowRange(content, first, LineCount(content));
      SkipIffCount(content, 0, wanted);
      SkipIffCount(content, 0, LineCount(content));
      var next := Skip(content, 0, LineCount(content));
      if next.Some? { LastStart(content, next.value); }
    }
  }

  /** Where a window starts and ends. */
  lemma WindowRange(content: string, first: nat, last: nat)
    requires 1 <= first <= last && first <= LineCount(content)
    ensures Skip(content, 0, first - 1).Some?
    ensures var start, next := Skip(content, 0, first - 1).value, Skip(content, 0, last);
            && (next.Some? ==> start <= next.value <= |content|)
            && Window(content, first, last) == content[start..if next.Some? then next.value else |content|]
  {
    SpanOkIff(content, first, last, true);
    SkipTwice(content, 0, first - 1, last - first + 1);
    EndIsNextStart(content, Skip(content, 0, first - 1).value, last - first + 1);
  }

  /** All lines together are the document. */
  lemma WholeWindow(content: string, last: nat)
    requires content != "" && last >= LineCount(content)
    ensures LineCount(content) >= 1 && Window(content, 1, last) == content
  {
    SkipIffCount(content, 0, 0);
    OneLine(content);
    WindowRange(content, 1, last);
    SkipIffCount(content, 0, last);
    var next := Skip(content, 0, last);
    if next.Some? {
      LastStart(content, next.value);
    }
    assert content[0..|content|] == content;
  }

  lemma OneLine(content: string)
    requires content != ""
    ensures LineCount(content) >= 1
  {
    if content[|content| - 1] == '\n' { SomeNewline(content, 0); }
  }

  lemma {:induction false} SomeNewline(content: string, i: nat)
    requires i < |content| && content[|content| - 1] == '\n'
    ensures Count(content, i) >= 1
    decreases |content| - i
  {
    if i < |content| - 1 { SomeNewline(content, i + 1); }
  }

  /** After the last newline of a document that ends in one, nothing is left. */
  lemma LastStart(content: string, i: nat)
    requires content != "" && i <= |content| && Count(content, i) == 0 && content[|content| - 1] == '\n'
    ensures i == |content|
  {
    if i < |content| { SomeNewline(content, i); }
  }

  /** Reading a document page by page, `size` lines at a time. */
  function Pages(content: string, first: nat, size: nat): string
    requires first >= 1 && size >= 1
    decreases LineCount(content) + 1 - first
  {
    if first > LineCount(content) then ""
    else Window(content, first, first + size - 1) + Pages(content, first + size, size)
  }

  /** Where line k + 1 starts, or the end. */
  function Start(content: string, k: nat): (r: nat)
    ensures r <= |content|
  {
    var start := Skip(content, 0, k);
    if start.Some? then start.value else |content|
  }

  lemma WindowFromTo(content: string, first: nat, last: nat)
    requires 1 <= first <= last && first <= LineCount(content)
    ensures Start(content, first - 1) <= Start(content, last)
    ensures Window(content, first, last) == content[Start(content, first - 1)..Start(content, last)]
  {
    WindowRange(content, first, last);
  }

  /** Consecutive windows join without loss or overlap. */
  lemma WindowsJoin(content: string, first: nat, mid: nat, last: nat)
    requires 1 <= first <= mid < last && mid < LineCount(content)
    ensures Window(content, first, mid) + Window(content, mid + 1, last) == Window(content, first, last)
  {
    WindowFromTo(content, first, mid);
    WindowFromTo(content, mid + 1, last);
    WindowFromTo(content, first, last);
    JoinAt(content, Start(content, first - 1), Start(content, mid), Start(content, last));
  }

  lemma JoinAt(s: string, a: nat, b: nat, c: nat)
    requires a <= b <= c <= |s|
    ensures s[a..b] + s[b..c] == s[a..c]
  {
  }

  /** From any line on, the pages read the rest of the document. */
  lemma {:induction false} PagesAreTheRest(content: string, first: nat, size: nat)
    requires first >= 1 && size >= 1
    ensures Pages(content, first, size) == content[Start(content, first - 1)..]
    decreases LineCount(content) + 1 - first
  {
    if first > LineCount(content) {
      NothingPast(content, first - 1);
    } else {
      PagesAreTheRest(content, first + size, size);
      PagesFrom(content, first, size, first + size - 1);
    }
  }

  lemma PagesFrom(content: string, first: nat, size: nat, mid: nat)
    requires 1 <= first <= LineCount(content) && size >= 1 && mid == first + size - 1
    requires Pages(content, mid + 1, size) == content[Start(content, mid)..]
    ensures Pages(content, first, size) == content[Start(content, first - 1)..]
  {
    PageStep(content, first, size, mid);
    WindowFromTo(content, first, mid);
    SplitAt(content, Start(content, first - 1), Start(content, mid));
  }

  lemma SplitAt(s: string, a: nat, b: nat)
    requires a <= b <= |s|
    ensures s[a..b] + s[b..] == s[a..]
  {
  }

  lemma NothingPast(content: string, k: nat)
    requires k >= LineCount(content)
    ensures Start(content, k) == |content|
  {
    SkipIffCount(content, 0, k);
    var start := Skip(content, 0, k);
    if content != "" && start.Some? { LastStart(content, start.value); }
  }

  lemma PageStep(content: string, first: nat, size: nat, mid: nat)
    requires 1 <= first <= LineCount(content) && size >= 1 && mid == first + size - 1
    ensures Pages(content, first, size) == Window(content, first, mid) + Pages(content, mid + 1, size)
  {
  }

  /** Following line windows from the first line reads the whole document. */
  lemma PagesAreTheDocument(content: string, size: nat)
    requires size >= 1
    ensures Pages(content, 1, size) == content
  {
    PagesAreTheRest(content, 1, size);
    assert content[0..] == content;
  }

  // ---------- Capping ----------

  method CountLines(content: string) returns (count: nat)
    ensures count == LineCount(content)
  {
    if |content| == 0 { return 0; }
    count := 0;
    var i := |content|;
    while i > 0
      invariant 0 <= i <= |content| && count == Count(content, i)
    {
      i := i - 1;
      if content[i] == '\n' { count := count + 1; }
    }
    if content[|content| - 1] != '\n' { count := count + 1; }
  }

  /** capLines: the first `max` lines, and whether anything was cut; zero means no cap. */
  method CapLines(content: string, max: int) returns (kept: string, cut: bool)
    ensures cut <==> 0 < max < LineCount(content)
    ensures !cut ==> kept == content
    ensures cut ==> kept == Window(content, 1, max) && |kept| < |content|
  {
    var count := CountLines(content);
    if max <= 0 || count <= max { return content, false; }
    SpanOkIff(content, 1, max, true);
    var span := LineSpan(content, 1, max, true);
    kept, cut := content[..span.value.1], true;
    CutShorter(content, max);
  }

  lemma CutShorter(content: string, max: nat)
    requires 1 <= max < LineCount(content)
    ensures Skip(content, 0, max).Some? && Skip(content, 0, max).value < |content|
    ensures Window(content, 1, max) == content[..Skip(content, 0, max).value]
  {
    SkipIffCount(content, 0, max);
    WindowRange(content, 1, max);
    CountZero(content);
  }
}
