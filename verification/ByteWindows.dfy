/**
 Byte windows of a source read, cut at UTF-8 character boundaries and continued from the
 offset the previous window names.
 */
module ByteWindows {
  type Byte = b: int | 0 <= b < 256

  /** The byte can begin a character: it is not of the form 10xxxxxx. */
  predicate RuneStart(b: Byte): (r: bool)
    ensures r <==> b / 0x40 != 2
  {
    !(0x80 <= b < 0xC0)
  }

  // ---------- Well-formed UTF-8, section 4 of RFC 3629 ----------

  predicate InRange(s: seq<Byte>, i: nat, lo: int, hi: int) { i < |s| && lo <= s[i] <= hi }

  predicate Tail(s: seq<Byte>, i: nat) { InRange(s, i, 0x80, 0xBF) }

  predicate Char2(s: seq<Byte>, i: nat) { InRange(s, i, 0xC2, 0xDF) && Tail(s, i + 1) }

  predicate Char3(s: seq<Byte>, i: nat) {
    && Tail(s, i + 2)
    && (|| (InRange(s, i, 0xE0, 0xE0) && InRange(s, i + 1, 0xA0, 0xBF))
        || (InRange(s, i, 0xE1, 0xEC) && Tail(s, i + 1))
        || (InRange(s, i, 0xED, 0xED) && InRange(s, i + 1, 0x80, 0x9F))
        || (InRange(s, i, 0xEE, 0xEF) && Tail(s, i + 1)))
  }

  predicate Char4(s: seq<Byte>, i: nat) {
    && Tail(s, i + 2) && Tail(s, i + 3)
    && (|| (InRange(s, i, 0xF0, 0xF0) && InRange(s, i + 1, 0x90, 0xBF))
        || (InRange(s, i, 0xF1, 0xF3) && Tail(s, i + 1))
        || (InRange(s, i, 0xF4, 0xF4) && InRange(s, i + 1, 0x80, 0x8F)))
  }

  /** The length of the character at i, zero if there is none. */
  function CharLength(s: seq<Byte>, i: nat): (n: nat)
    ensures n <= 4 && (n > 0 ==> i + n <= |s|)
    ensures n > 0 ==> i < |s| && RuneStart(s[i]) && forall j :: i < j < i + n ==> !RuneStart(s[j])
  {
    if InRange(s, i, 0x00, 0x7F) then 1
    else if Char2(s, i) then 2
    else if Char3(s, i) then 3
    else if Char4(s, i) then 4
    else 0
  }

  /** From i on the bytes are a sequence of characters. */
  predicate Valid(s: seq<Byte>, i: nat)
    requires i <= |s|
    decreases |s| - i
  {
    i == |s| || (CharLength(s, i) > 0 && Valid(s, i + CharLength(s, i)))
  }

  // What well-formed means: the encoding of a sequence of Unicode scalar values, section 3 of RFC 3629.

  type Scalar = c: int | 0 <= c < 0x110000 && !(0xD800 <= c < 0xE000)

  function Encoded(c: Scalar): (e: seq<Byte>)
    ensures 1 <= |e| <= 4
  {
    if c < 0x80 then [c]
    else if c < 0x800 then [0xC0 + c / 0x40, 0x80 + c % 0x40]
    else if c < 0x10000 then [0xE0 + c / 0x1000, 0x80 + c / 0x40 % 0x40, 0x80 + c % 0x40]
    else [0xF0 + c / 0x40000, 0x80 + c / 0x1000 % 0x40, 0x80 + c / 0x40 % 0x40, 0x80 + c % 0x40]
  }

  function EncodedAll(cs: seq<Scalar>): seq<Byte> { if cs == [] then [] else Encoded(cs[0]) + EncodedAll(cs[1..]) }

  lemma EncodedIsChar(c: Scalar, s: seq<Byte>, i: nat)
    requires i + |Encoded(c)| <= |s| && s[i..i + |Encoded(c)|] == Encoded(c)
    ensures CharLength(s, i) == |Encoded(c)|
  {
    var e := Encoded(c);
    assert s[i] == e[0];
    if |e| > 1 { assert s[i + 1] == e[1]; }
    if |e| > 2 { assert s[i + 2] == e[2]; }
    if |e| > 3 { assert s[i + 3] == e[3]; }
  }

  lemma CharIsEncoded(s: seq<Byte>, i: nat) returns (c: Scalar)
    requires CharLength(s, i) > 0
    ensures Encoded(c) == s[i..i + CharLength(s, i)]
  {
    var n := CharLength(s, i);
    if n == 1 { c := s[i]; }
    else if n == 2 { c := Two(s[i], s[i + 1]); }
    else if n == 3 { c := Three(s[i], s[i + 1], s[i + 2]); }
    else { c := Four(s[i], s[i + 1], s[i + 2], s[i + 3]); }
  }

  lemma Two(p: Byte, q: Byte) returns (c: Scalar)
    requires 0xC2 <= p <= 0xDF && 0x80 <= q <= 0xBF
    ensures Encoded(c) == [p, q]
  {
    var a: int, b: int := p, q;
    c := (a - 0xC0) * 0x40 + (b - 0x80);
  }

  lemma Three(p: Byte, q: Byte, r: Byte) returns (c: Scalar)
    requires Char3([p, q, r], 0)
    ensures Encoded(c) == [p, q, r]
  {
    var a: int, b: int, d: int := p, q, r;
    var high := (a - 0xE0) * 0x40 + (b - 0x80);
    c := high * 0x40 + (d - 0x80);
    assert c / 0x40 == high && c / 0x1000 == a - 0xE0;
  }

  lemma Four(p: Byte, q: Byte, r: Byte, t: Byte) returns (c: Scalar)
    requires Char4([p, q, r, t], 0)
    ensures Encoded(c) == [p, q, r, t]
  {
    var a: int, b: int, d: int, e: int := p, q, r, t;
    var top := (a - 0xF0) * 0x40 + (b - 0x80);
    var high := top * 0x40 + (d - 0x80);
    c := high * 0x40 + (e - 0x80);
    assert c / 0x40 == high && c / 0x1000 == top && c / 0x40000 == a - 0xF0;
  }

  lemma Splits(s: seq<Byte>, i: nat, e: seq<Byte>, rest: seq<Byte>)
    requires i <= |s| && s[i..] == e + rest
    ensures i + |e| <= |s| && s[i..i + |e|] == e && s[i + |e|..] == rest
  {
    assert |s[i..]| == |e| + |rest|;
    assert s[i..i + |e|] == s[i..][..|e|];
    assert s[i + |e|..] == s[i..][|e|..];
  }

  lemma {:induction false} EncodedIsValid(s: seq<Byte>, i: nat, cs: seq<Scalar>)
    requires i <= |s| && s[i..] == EncodedAll(cs)
    ensures Valid(s, i)
    decreases |cs|
  {
    if cs != [] {
      Splits(s, i, Encoded(cs[0]), EncodedAll(cs[1..]));
      EncodedIsChar(cs[0], s, i);
      EncodedIsValid(s, i + |Encoded(cs[0])|, cs[1..]);
    }
  }

  lemma {:induction false} ValidIsEncoded(s: seq<Byte>, i: nat) returns (cs: seq<Scalar>)
    requires i <= |s| && Valid(s, i)
    ensures s[i..] == EncodedAll(cs)
    decreases |s| - i
  {
    if i == |s| {
      cs := [];
    } else {
      var n := CharLength(s, i);
      var c := CharIsEncoded(s, i);
      var rest := ValidIsEncoded(s, i + n);
      cs := [c] + rest;
      assert s[i..] == s[i..i + n] + s[i + n..];
      assert cs[1..] == rest;
    }
  }

  /** Well-formed text is exactly the encoding of some scalar values. */
  lemma ValidIffEncoded(s: seq<Byte>)
    ensures Valid(s, 0) <==> exists cs :: s == EncodedAll(cs)
  {
    assert s[0..] == s;
    if Valid(s, 0) { var cs := ValidIsEncoded(s, 0); }
    if cs :| s == EncodedAll(cs) { EncodedIsValid(s, 0, cs); }
  }

  /** A character ends or begins at j, reading from i. */
  predicate Boundary(s: seq<Byte>, i: nat, j: nat)
    requires i <= |s|
    decreases |s| - i
  {
    i == j || (CharLength(s, i) > 0 && Boundary(s, i + CharLength(s, i), j))
  }

  /** In well-formed text the bytes that can begin a character are exactly those that do. */
  lemma {:induction false} StartIffBoundary(s: seq<Byte>, i: nat, j: nat)
    requires i <= j < |s| && Valid(s, i)
    ensures RuneStart(s[j]) <==> Boundary(s, i, j)
    decreases |s| - i
  {
    var n := CharLength(s, i);
    if i < j && j < i + n {
      NoBoundaryBelow(s, i + n, j);
    } else if i < j {
      StartIffBoundary(s, i + n, j);
    }
  }

  lemma {:induction false} NoBoundaryBelow(s: seq<Byte>, i: nat, j: nat)
    requires j < i <= |s|
    ensures !Boundary(s, i, j)
    decreases |s| - i
  {
    var n := CharLength(s, i);
    if n > 0 { NoBoundaryBelow(s, i + n, j); }
  }

  // ---------- One window ----------

  /** From `end` back to a place where a character can begin, but not below `start`. */
  function Back(content: seq<Byte>, start: nat, end: nat): (r: nat)
    requires start <= end <= |content|
    ensures start <= r <= end
    ensures r == |content| || r == start || RuneStart(content[r])
    ensures forall j :: r < j <= end ==> j < |content| && !RuneStart(content[j])
  {
    if end < |content| && end > start && !RuneStart(content[end]) then Back(content, start, end - 1) else end
  }

  function WindowEnd(content: seq<Byte>, start: nat, max: nat): (r: nat)
    requires start <= |content|
    ensures start <= r <= |content| && r <= start + max
  {
    Back(content, start, if |content| < start + max then |content| else start + max)
  }

  datatype Request = Request(byteOffset: int, maxBytes: int, expectedRevision: string, view: string, compact: bool)

  datatype Reply =
    | Whole(content: seq<Byte>)
    | InvalidWindow
    | RequiresSource
    | RevisionChanged
    | RevisionRequired
    | InvalidOffset
    | Window(content: seq<Byte>, start: nat, end: nat, selection: nat, revision: string, max: int)

  const DEFAULT_BYTES := 65536
  const MAX_BYTES := 1048576

  predicate SourceView(view: string) { view == "" || view == "source" }

  /** The request names no window, and is not a compact source read, which gets one anyway. */
  predicate Unbounded(r: Request) {
    r.maxBytes == 0 && r.byteOffset == 0 && r.expectedRevision == "" && !(r.compact && SourceView(r.view))
  }

  function Limit(r: Request): int { if r.maxBytes == 0 then DEFAULT_BYTES else r.maxBytes }

  /** The window does not reach the end of the selection; the reply then says how to continue. */
  predicate Truncated(reply: Reply)
    requires reply.Window?
  {
    reply.end < reply.selection
  }

  /** When each reply is given: the tests in their order, each on the request. */
  predicate Given(content: seq<Byte>, revision: string, request: Request, reply: Reply) {
    var source := request.view == "" || request.view == "source";
    var bounded := request.maxBytes != 0 || request.byteOffset != 0 || request.expectedRevision != "" || (request.compact && source);
    var size := if request.maxBytes == 0 then 65536 else request.maxBytes;
    var sized := 4 <= size <= 1048576 && 0 <= request.byteOffset;
    var current := request.expectedRevision == "" || request.expectedRevision == revision;
    var anchored := request.byteOffset <= 0 || request.expectedRevision != "";
    var placed := request.byteOffset == |content| || (0 <= request.byteOffset < |content| && RuneStart(content[request.byteOffset]));
    && (reply.Whole? <==> !bounded)
    && (reply.InvalidWindow? <==> bounded && !sized)
    && (reply.RequiresSource? <==> bounded && sized && !source)
    && (reply.RevisionChanged? <==> bounded && sized && source && !current)
    && (reply.RevisionRequired? <==> bounded && sized && source && current && !anchored)
    && (reply.InvalidOffset? <==> bounded && sized && source && current && anchored && !placed)
    && (reply.Window? ==>
          && 0 <= request.byteOffset <= reply.end <= |content| == reply.selection
          && reply.content == content[request.byteOffset..reply.end] && reply.start == request.byteOffset
          && reply.revision == revision && reply.max == size && |reply.content| <= size)
  }

  /** The loop of boundReadResult. */
  method FindEnd(content: seq<Byte>, start: nat, max: nat) returns (end: nat)
    requires start <= |content|
    ensures end == WindowEnd(content, start, max)
  {
    end := if |content| < start + max then |content| else start + max;
    while end < |content| && end > start && !RuneStart(content[end])
      invariant start <= end <= |content| && Back(content, start, end) == WindowEnd(content, start, max)
      decreases end
    {
      end := end - 1;
    }
  }

  /** readWithByteWindow and boundReadResult, for a read that yields `content` at `revision`. */
  method Read(content: seq<Byte>, revision: string, request: Request) returns (reply: Reply)
    ensures reply == ReplyTo(content, revision, request) && Given(content, revision, request, reply)
  {
    var max := request.maxBytes;
    if request.compact && max == 0 && SourceView(request.view) { max := DEFAULT_BYTES; }
    if max == 0 && request.byteOffset == 0 && request.expectedRevision == "" { return Whole(content); }
    if max == 0 { max := DEFAULT_BYTES; }
    if max < 4 || max > MAX_BYTES || request.byteOffset < 0 { return InvalidWindow; }
    if request.view != "" && request.view != "source" { return RequiresSource; }
    if request.expectedRevision != "" && request.expectedRevision != revision { return RevisionChanged; }
    if request.byteOffset > 0 && request.expectedRevision == "" { return RevisionRequired; }
    var start := request.byteOffset;
    if start > |content| || (start < |content| && !RuneStart(content[start])) { return InvalidOffset; }
    var end := FindEnd(content, start, max);
    return Window(content[start..end], start, end, |content|, revision, max);
  }

  /** When a read is whole, when it is refused, and which bytes its window holds otherwise. */
  function ReplyTo(content: seq<Byte>, revision: string, request: Request): Reply {
    var start := request.byteOffset;
    if Unbounded(request) then Whole(content)
    else if !(4 <= Limit(request) <= MAX_BYTES) || start < 0 then InvalidWindow
    else if !SourceView(request.view) then RequiresSource
    else if request.expectedRevision != "" && request.expectedRevision != revision then RevisionChanged
    else if start > 0 && request.expectedRevision == "" then RevisionRequired
    else if start > |content| || (start < |content| && !RuneStart(content[start])) then InvalidOffset
    else
      var end := WindowEnd(content, start, Limit(request));
      Window(content[start..end], start, end, |content|, revision, Limit(request))
  }

  /** A window of at least four bytes over well-formed text ends on a character boundary and, unless
      it reaches the end, is not empty. */
  lemma WindowAdvances(content: seq<Byte>, start: nat, max: nat)
    requires start <= |content| && max >= 4 && Valid(content, 0) && Boundary(content, 0, start)
    ensures var end := WindowEnd(content, start, max);
            && Boundary(content, 0, end) && (end < |content| ==> start < end && RuneStart(content[end]))
  {
    BoundaryValid(content, 0, start);
    var end := WindowEnd(content, start, max);
    if start + max < |content| {
      NextWithin(content, start, start + max, end);
      StartIffBoundary(content, 0, end);
    } else {
      EndIsBoundary(content, 0);
    }
  }

  lemma {:induction false} BoundaryValid(s: seq<Byte>, i: nat, j: nat)
    requires i <= |s| && Valid(s, i) && Boundary(s, i, j)
    ensures j <= |s| && Valid(s, j)
    decreases |s| - i
  {
    if i != j { BoundaryValid(s, i + CharLength(s, i), j); }
  }

  lemma {:induction false} EndIsBoundary(s: seq<Byte>, i: nat)
    requires i <= |s| && Valid(s, i)
    ensures Boundary(s, i, |s|)
    decreases |s| - i
  {
    if i < |s| { EndIsBoundary(s, i + CharLength(s, i)); }
  }

  /** The next character begins within four bytes, so stepping back stops there at the latest. */
  lemma NextWithin(s: seq<Byte>, start: nat, limit: nat, end: nat)
    requires start + 4 <= limit < |s| && Valid(s, start) && end == Back(s, start, limit)
    ensures start < end && RuneStart(s[end])
  {
    var n := CharLength(s, start);
    assert start + n <= limit;
    assert Valid(s, start + n);
    assert RuneStart(s[start + n]);
  }

  // ---------- Paging ----------

  /** The request that continues after a truncated reply. */
  function Continue(request: Request, reply: Reply): Request
    requires reply.Window?
  {
    request.(byteOffset := reply.end, expectedRevision := reply.revision, maxBytes := reply.max)
  }

  /** The request starts at a character of well-formed content that has a revision. */
  predicate Follows(content: seq<Byte>, revision: string, request: Request) {
    Valid(content, 0) && revision != "" && 0 <= request.byteOffset <= |content| && Boundary(content, 0, request.byteOffset)
  }

  /** Following the continuation is never refused: its offset begins a character. */
  lemma ContinuationAccepted(content: seq<Byte>, revision: string, request: Request)
    requires Follows(content, revision, request)
    requires var reply := ReplyTo(content, revision, request); reply.Window? && Truncated(reply)
    ensures var reply := ReplyTo(content, revision, request);
            var more := Continue(request, reply);
            var next := ReplyTo(content, revision, more);
            next.Window? && next.start == reply.end && reply.end > reply.start && Follows(content, revision, more)
  {
    WindowAdvances(content, request.byteOffset, Limit(request));
  }

  /** The replies to a request and to the continuations that follow from it. */
  function Replies(content: seq<Byte>, revision: string, request: Request): (replies: seq<Reply>)
    requires Follows(content, revision, request)
    ensures replies != [] && replies[0] == ReplyTo(content, revision, request)
    decreases |content| - request.byteOffset
  {
    var reply := ReplyTo(content, revision, request);
    if reply.Window? && Truncated(reply) then
      ContinuationAccepted(content, revision, request);
      [reply] + Replies(content, revision, Continue(request, reply))
    else
      [reply]
  }

  /** The content delivered by a reply; a refusal delivers none. */
  function Delivered(reply: Reply): seq<Byte> { if reply.Whole? || reply.Window? then reply.content else [] }

  function AllDelivered(replies: seq<Reply>): seq<Byte> {
    if replies == [] then [] else Delivered(replies[0]) + AllDelivered(replies[1..])
  }

  /** The windows concatenate to the rest of the selection. */
  lemma {:induction false} RepliesDeliver(content: seq<Byte>, revision: string, request: Request)
    requires Follows(content, revision, request) && ReplyTo(content, revision, request).Window?
    ensures AllDelivered(Replies(content, revision, request)) == content[request.byteOffset..]
    decreases |content| - request.byteOffset
  {
    var reply := ReplyTo(content, revision, request);
    WindowContent(content, revision, request);
    if Truncated(reply) {
      ContinuationAccepted(content, revision, request);
      var more := Continue(request, reply);
      RepliesDeliver(content, revision, more);
      DeliveredMore(content, reply, Replies(content, revision, more));
    } else {
      DeliveredCons(reply, []);
      assert [reply] + [] == [reply];
    }
  }

  lemma WindowContent(content: seq<Byte>, revision: string, request: Request)
    requires ReplyTo(content, revision, request).Window?
    ensures var reply := ReplyTo(content, revision, request);
            && reply.start == request.byteOffset && reply.start <= reply.end <= |content|
            && reply.content == content[reply.start..reply.end] && reply.selection == |content|
  {
  }

  lemma DeliveredMore(content: seq<Byte>, reply: Reply, rest: seq<Reply>)
    requires reply.Window? && reply.start <= reply.end <= |content| && reply.content == content[reply.start..reply.end]
    requires AllDelivered(rest) == content[reply.end..]
    ensures AllDelivered([reply] + rest) == content[reply.start..]
  {
    DeliveredCons(reply, rest);
    assert content[reply.start..reply.end] + content[reply.end..] == content[reply.start..];
  }

  lemma DeliveredCons(reply: Reply, replies: seq<Reply>)
    ensures AllDelivered([reply] + replies) == Delivered(reply) + AllDelivered(replies)
  {
    assert ([reply] + replies)[1..] == replies;
  }

  /** Once the first request gets a window, so does every continuation: none is longer than asked for,
      every one but the last holds at least one byte, and only the last is not marked truncated. */
  lemma {:induction false} PageSizes(content: seq<Byte>, revision: string, request: Request, i: nat)
    requires Follows(content, revision, request) && ReplyTo(content, revision, request).Window?
    requires i < |Replies(content, revision, request)|
    ensures var replies := Replies(content, revision, request);
            && replies[i].Window? && |replies[i].content| <= Limit(request)
            && (Truncated(replies[i]) <==> i < |replies| - 1) && (Truncated(replies[i]) ==> |replies[i].content| > 0)
    decreases |content| - request.byteOffset
  {
    var reply := ReplyTo(content, revision, request);
    if Truncated(reply) {
      ContinuationAccepted(content, revision, request);
      if i > 0 { PageSizes(content, revision, Continue(request, reply), i - 1); }
    }
  }

  /** Reading from offset zero and following the continuations, the whole selection arrives, whether in
      one piece or in windows of any accepted size. */
  lemma PagingRoundTrip(content: seq<Byte>, revision: string, request: Request)
    requires Valid(content, 0) && revision != "" && request.byteOffset == 0
    requires var reply := ReplyTo(content, revision, request); reply.Whole? || reply.Window?
    ensures Follows(content, revision, request) && AllDelivered(Replies(content, revision, request)) == content
  {
    assert Boundary(content, 0, 0);
    var reply := ReplyTo(content, revision, request);
    if reply.Window? {
      RepliesDeliver(content, revision, request);
      assert content[0..] == content;
    } else {
      DeliveredCons(reply, []);
      assert [reply] + [] == [reply];
    }
  }

  // ---------- Paging while the file changes ----------

  /** The source as one request of a session finds it. */
  datatype Source = Source(content: seq<Byte>, revision: string)

  /** The replies of a session: a request, and the continuation of each truncated window in turn, each
      against the source as it is by then. */
  function Session(sources: seq<Source>, request: Request): (replies: seq<Reply>)
    ensures |replies| <= |sources|
  {
    if sources == [] then []
    else
      var reply := ReplyTo(sources[0].content, sources[0].revision, request);
      [reply] + if reply.Window? && Truncated(reply) then Session(sources[1..], Continue(request, reply)) else []
  }

  ghost predicate Identified(sources: seq<Source>) {
    && (forall i :: 0 <= i < |sources| ==> sources[i].revision != "")
    && (forall i, j :: 0 <= i < j < |sources| && sources[i].revision == sources[j].revision ==> sources[i].content == sources[j].content)
  }

  /** Every window of a session with an expected revision is of that revision. */
  lemma {:induction false} SessionExpected(sources: seq<Source>, request: Request, i: nat)
    requires Identified(sources) && request.expectedRevision != "" && i < |Session(sources, request)| && Session(sources, request)[i].Window?
    ensures sources[i].revision == request.expectedRevision
  {
    var reply := ReplyTo(sources[0].content, sources[0].revision, request);
    if i > 0 { SessionExpected(sources[1..], Continue(request, reply), i - 1); }
  }

  /** All windows of one session come from one revision, that of the first: once the source has changed,
      the next continuation is refused and the session ends. */
  lemma OneRevision(sources: seq<Source>, request: Request, i: nat)
    requires Identified(sources) && i < |Session(sources, request)| && Session(sources, request)[i].Window?
    ensures sources[i] == sources[0] && Session(sources, request)[i].revision == sources[0].revision
  {
    var reply := ReplyTo(sources[0].content, sources[0].revision, request);
    if i > 0 { SessionExpected(sources[1..], Continue(request, reply), i - 1); }
    WindowOf(sources, request, i);
  }

  lemma {:induction false} WindowOf(sources: seq<Source>, request: Request, i: nat)
    requires i < |Session(sources, request)| && Session(sources, request)[i].Window?
    ensures Session(sources, request)[i].revision == sources[i].revision
  {
    var reply := ReplyTo(sources[0].content, sources[0].revision, request);
    if i > 0 { WindowOf(sources[1..], Continue(request, reply), i - 1); }
  }

  /** The windows of a session join to one stretch of that revision's content. */
  lemma {:induction false} SessionDelivers(sources: seq<Source>, request: Request)
    requires Identified(sources) && Session(sources, request) != []
    requires forall i :: 0 <= i < |Session(sources, request)| ==> Session(sources, request)[i].Window?
    ensures var replies := Session(sources, request);
            var last := replies[|replies| - 1];
            && 0 <= request.byteOffset <= last.end <= |sources[0].content|
            && AllDelivered(replies) == sources[0].content[request.byteOffset..last.end]
            && (!Truncated(last) ==> last.end == |sources[0].content|)
  {
    var replies := Session(sources, request);
    var reply := replies[0];
    WindowContent(sources[0].content, sources[0].revision, request);
    DeliveredCons(reply, replies[1..]);
    assert replies == [reply] + replies[1..];
    if |replies| > 1 {
      var more := Continue(request, reply);
      OneRevision(sources, request, 1);
      forall i | 0 <= i < |Session(sources[1..], more)| ensures Session(sources[1..], more)[i].Window? {
        assert Session(sources[1..], more)[i] == replies[i + 1];
      }
      SessionDelivers(sources[1..], more);
      JoinAt(sources[0].content, request.byteOffset, reply.end, replies[|replies| - 1].end);
    }
  }

  lemma JoinAt(s: seq<Byte>, a: nat, b: nat, c: nat)
    requires a <= b <= c <= |s|
    ensures s[a..b] + s[b..c] == s[a..c]
  {
  }
}
