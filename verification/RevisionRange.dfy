/** Decoding the two endpoints of a revision_diff request against the workspace's revision. */
module RevisionRange {
  import opened Basics
  import opened Decimals

  /** A 64-bit revision sequence number. */
  type Sequence = n: nat | n < 0x1_0000_0000_0000_0000

  const PREFIX := "wsrev_"

  function Token(n: nat): string { PREFIX + Decimal(n) }

  /** revisionEndpoint: the sequence number a token names. */
  function Endpoint(token: string): Option<nat> {
    if |token| >= |PREFIX| && token[..|PREFIX|] == PREFIX then
      var n := Parse(token[|PREFIX|..]);
      if n.Some? && n.value < 0x1_0000_0000_0000_0000 then n else None
    else None
  }

  lemma EndpointOfToken(n: Sequence)
    ensures Endpoint(Token(n)) == Some(n)
  {
    ParseDecimal(n);
    assert Token(n)[..|PREFIX|] == PREFIX && Token(n)[|PREFIX|..] == Decimal(n);
  }

  /** Exactly one token names each revision. */
  lemma TokenOfEndpoint(token: string)
    requires Endpoint(token).Some?
    ensures Endpoint(token).value <= 0xFFFF_FFFF_FFFF_FFFF
    ensures Token(Endpoint(token).value) == token
  {
    DecimalOfNat(token[|PREFIX|..]);
    assert token == token[..|PREFIX|] + token[|PREFIX|..];
  }

  datatype Warning = Clamped(token: string) | Swapped(from: string, to: string)

  datatype Range = Range(from: string, to: string, fromSeq: nat, toSeq: nat, warnings: seq<Warning>)

  datatype Decoded = Accepted(range: Range) | Invalid | Newer

  function Resolve(token: string, current: nat): string { if token == "current" then Token(current) else token }

  function AtLeastOne(n: nat): nat { if n == 0 then 1 else n }

  function Min(a: nat, b: nat): nat { if a <= b then a else b }

  function Max(a: nat, b: nat): nat { if a <= b then b else a }

  /** An accepted range runs forward from the first revision on, ends no later than the workspace, and
      its tokens name its sequence numbers. It is the requested range read as meant: "current" is the
      workspace's revision, revision zero is one, and a reversed range is swapped. */
  ghost predicate Sound(r: Range, a: nat, b: nat, current: nat) {
    && 1 <= r.fromSeq <= r.toSeq <= current
    && r.fromSeq == Min(AtLeastOne(a), AtLeastOne(b)) && r.toSeq == Max(AtLeastOne(a), AtLeastOne(b))
    && r.from == Token(r.fromSeq) && r.to == Token(r.toSeq)
    && r.warnings == (if a == 0 then [Clamped(Token(0))] else []) + (if b == 0 then [Clamped(Token(0))] else [])
                     + (if AtLeastOne(a) > AtLeastOne(b) then [Swapped(Token(AtLeastOne(a)), Token(AtLeastOne(b)))] else [])
  }

  /** The requests that are accepted: both ends name revisions, none newer than the workspace. */
  predicate Acceptable(from: string, to: string, current: nat) {
    var a, b := Endpoint(Resolve(from, current)), Endpoint(Resolve(to, current));
    a.Some? && b.Some? && Max(AtLeastOne(a.value), AtLeastOne(b.value)) <= current
  }

  /** decodeRevisionRange. */
  method DecodeRange(from: string, to: string, current: Sequence) returns (r: Decoded)
    ensures r.Accepted? <==> Acceptable(from, to, current)
    ensures var a, b := Endpoint(Resolve(from, current)), Endpoint(Resolve(to, current));
            && (r.Invalid? <==> a.None? || b.None?)
            && (r.Newer? <==> a.Some? && b.Some? && Max(AtLeastOne(a.value), AtLeastOne(b.value)) > current)
            && (r.Accepted? ==> Sound(r.range, a.value, b.value, current))
  {
    var left, right := Resolve(from, current), Resolve(to, current);
    var a, b := Endpoint(left), Endpoint(right);
    if a.None? || b.None? { return Invalid; }
    TokenOfEndpoint(left);
    TokenOfEndpoint(right);
    var fromSeq, toSeq := a.value, b.value;
    var warnings: seq<Warning> := [];
    if fromSeq == 0 {
      warnings := warnings + [Clamped(left)];
      fromSeq, left := 1, Token(1);
    }
    if toSeq == 0 {
      warnings := warnings + [Clamped(right)];
      toSeq, right := 1, Token(1);
    }
    if fromSeq > toSeq {
      warnings := warnings + [Swapped(left, right)];
      fromSeq, toSeq := toSeq, fromSeq;
      left, right := right, left;
    }
    if toSeq > current { return Newer; }
    return Accepted(Range(left, right, fromSeq, toSeq, warnings));
  }

  /** A range up to "current" is accepted exactly when the workspace has a revision and the other end
      names one of its revisions, zero standing for the first; "current" itself always does. */
  lemma CurrentResolves(from: string, current: Sequence)
    ensures Acceptable(from, "current", current) <==>
              current >= 1 && (from == "current" || (Endpoint(from).Some? && Endpoint(from).value <= current))
    ensures Acceptable(from, "current", current) <==> Acceptable("current", from, current)
  {
    EndpointOfToken(current);
  }
}
