/**
 Coalescing late diagnostic batches: superseded observations are dropped only within their own
 lane, and a positive finding only when a later batch proves its omission.
 */
module Diagnostics {
  import opened Basics

  /** One stream of one provider for one document. */
  datatype Lane = Lane(provider: string, document: string, kind: string)

  datatype Batch = Batch(
    lane: Lane, expectedVersion: Option<int>, documentVersion: Option<int>, complete: bool,
    progressPending: bool, timedOut: bool, findings: seq<string>)

  predicate Proven(b: Batch) {
    && b.complete && b.documentVersion.Some? && b.expectedVersion.Some?
    && b.documentVersion.value >= b.expectedVersion.value && !b.progressPending && !b.timedOut
  }

  predicate Older(a: Option<int>, b: Option<int>) { a.Some? && b.Some? && a.value < b.value }

  /** The batch is about an older version than the one before it in its lane. */
  predicate Stale(prior: Batch, b: Batch) {
    Older(b.expectedVersion, prior.expectedVersion) || Older(b.documentVersion, prior.documentVersion)
  }

  /** The prior body has findings whose omission the new one cannot prove. */
  predicate Retains(prior: Batch, b: Batch) { |prior.findings| > 0 && !Proven(b) }

  // ---------- One lane ----------

  /** A lane's entries after one more batch: only its last entry can change. */
  function Absorb(entries: seq<Batch>, b: Batch): seq<Batch> {
    if entries == [] then [b]
    else
      var n := |entries| - 1;
      if Stale(entries[n], b) then entries
      else if Retains(entries[n], b) then entries[..n] + [entries[n].(complete := false), b]
      else entries[..n] + [b]
  }

  /** A lane's entries after its first n batches. */
  function LaneEntries(batches: seq<Batch>, n: nat): seq<Batch>
    requires n <= |batches|
  {
    if n == 0 then [] else Absorb(LaneEntries(batches, n - 1), batches[n - 1])
  }

  predicate OnlyLastComplete(entries: seq<Batch>) { forall i :: 0 <= i < |entries| - 1 ==> !entries[i].complete }

  /** At most the last entry of a lane stays complete. */
  lemma {:induction false} AtMostLastComplete(batches: seq<Batch>, n: nat)
    requires n <= |batches|
    ensures OnlyLastComplete(LaneEntries(batches, n))
  {
    if n > 0 { AtMostLastComplete(batches, n - 1); }
  }

  ghost predicate Has(entries: seq<Batch>, finding: string) {
    exists i :: 0 <= i < |entries| && finding in entries[i].findings
  }

  /** Neither version of the batch, where known, is older than the prior one's. */
  predicate UpToDate(prior: Batch, b: Batch) {
    && (prior.expectedVersion.Some? && b.expectedVersion.Some? ==> prior.expectedVersion.value <= b.expectedVersion.value)
    && (prior.documentVersion.Some? && b.documentVersion.Some? ==> prior.documentVersion.value <= b.documentVersion.value)
  }

  /** The last of the first n batches that was not about an older version than the one accepted before it. */
  function LastAccepted(batches: seq<Batch>, n: nat): (j: Option<nat>)
    requires n <= |batches|
    ensures j.Some? ==> j.value < n
  {
    if n == 0 then None
    else
      var before := LastAccepted(batches, n - 1);
      if before.None? || UpToDate(batches[before.value], batches[n - 1]) then Some(n - 1) else before
  }

  /** The batch was not version-stale when it arrived. */
  predicate Accepted(batches: seq<Batch>, j: nat)
    requires j < |batches|
  {
    var prior := LastAccepted(batches, j);
    prior.None? || UpToDate(batches[prior.value], batches[j])
  }

  /** A lane's last entry is its last accepted batch, as received. */
  lemma {:induction false} LastEntry(batches: seq<Batch>, n: nat)
    requires n <= |batches|
    ensures var entries, last := LaneEntries(batches, n), LastAccepted(batches, n);
            (entries == [] <==> last.None?) && (last.Some? ==> entries[|entries| - 1] == batches[last.value])
  {
    if n > 0 {
      LastEntry(batches, n - 1);
      AbsorbLast(LaneEntries(batches, n - 1), batches[n - 1]);
    }
  }

  lemma AbsorbLast(entries: seq<Batch>, b: Batch)
    ensures var after := Absorb(entries, b);
            && after != []
            && after[|after| - 1] == if entries == [] || UpToDate(entries[|entries| - 1], b) then b else entries[|entries| - 1]
  {
  }

  lemma AcceptedIff(batches: seq<Batch>, n: nat)
    requires n < |batches|
    ensures Accepted(batches, n) <==> var entries := LaneEntries(batches, n); entries == [] || !Stale(entries[|entries| - 1], batches[n])
  {
    LastEntry(batches, n);
  }

  lemma AbsorbKeeps(entries: seq<Batch>, b: Batch, finding: string)
    requires Has(entries, finding)
    ensures Has(Absorb(entries, b), finding) || (Proven(b) && !Stale(entries[|entries| - 1], b))
  {
    var n := |entries| - 1;
    var i :| 0 <= i < |entries| && finding in entries[i].findings;
    if !(Proven(b) && !Stale(entries[n], b)) {
      assert finding in Absorb(entries, b)[i].findings;
    }
  }

  lemma AbsorbAdds(entries: seq<Batch>, b: Batch, finding: string)
    requires finding in b.findings && (entries == [] || !Stale(entries[|entries| - 1], b))
    ensures Has(Absorb(entries, b), finding)
  {
    var r := Absorb(entries, b);
    assert r[|r| - 1] == b;
  }

  /** A finding of an accepted batch disappears only when a later publication-proven batch of the lane
      was accepted. */
  lemma {:induction false} FindingLostOnlyToProof(batches: seq<Batch>, j: nat, n: nat, finding: string)
    requires j < n <= |batches| && Accepted(batches, j) && finding in batches[j].findings
    ensures Has(LaneEntries(batches, n), finding) || exists m :: j < m < n && Proven(batches[m]) && Accepted(batches, m)
    decreases n
  {
    if n == j + 1 {
      FindingFirst(batches, j, finding);
    } else {
      FindingLostOnlyToProof(batches, j, n - 1, finding);
      if Has(LaneEntries(batches, n - 1), finding) {
        FindingNext(batches, n, finding);
        assert Proven(batches[n - 1]) && Accepted(batches, n - 1) ==> j < n - 1 < n;
      }
    }
  }

  lemma FindingNext(batches: seq<Batch>, n: nat, finding: string)
    requires 0 < n <= |batches| && Has(LaneEntries(batches, n - 1), finding)
    ensures Has(LaneEntries(batches, n), finding) || (Proven(batches[n - 1]) && Accepted(batches, n - 1))
  {
    AcceptedIff(batches, n - 1);
    AbsorbKeeps(LaneEntries(batches, n - 1), batches[n - 1], finding);
  }

  lemma FindingFirst(batches: seq<Batch>, j: nat, finding: string)
    requires j < |batches| && Accepted(batches, j) && finding in batches[j].findings
    ensures Has(LaneEntries(batches, j + 1), finding)
  {
    AcceptedIff(batches, j);
    AbsorbAdds(LaneEntries(batches, j), batches[j], finding);
  }

  /** The entry is one of the first n batches, at most with its completeness taken back. */
  ghost predicate FromBatch(batches: seq<Batch>, n: nat, entry: Batch)
    requires n <= |batches|
  {
    exists j :: 0 <= j < n && entry.(complete := false) == batches[j].(complete := false) && (entry.complete ==> batches[j].complete)
  }

  lemma AbsorbAt(entries: seq<Batch>, b: Batch, i: nat)
    requires i < |Absorb(entries, b)|
    ensures var e := Absorb(entries, b)[i];
            e == b || (i < |entries| && (e == entries[i] || e == entries[i].(complete := false)))
  {
  }

  /** Nothing is made up, and publication metadata stays with its own findings. */
  lemma {:induction false} EntriesAreBatches(batches: seq<Batch>, n: nat, i: nat)
    requires n <= |batches| && i < |LaneEntries(batches, n)|
    ensures FromBatch(batches, n, LaneEntries(batches, n)[i])
    decreases n
  {
    var before := LaneEntries(batches, n - 1);
    AbsorbAt(before, batches[n - 1], i);
    if LaneEntries(batches, n)[i] != batches[n - 1] { EntriesAreBatches(batches, n - 1, i); }
  }

  // ---------- Exactly what is listed ----------

  /** The batch proves that what it does not report is gone: it is complete, for a version at least the
      one expected, with nothing pending and no timeout. */
  predicate Clears(b: Batch) {
    && b.complete && !b.timedOut && !b.progressPending
    && b.expectedVersion.Some? && b.documentVersion.Some? && b.expectedVersion.value <= b.documentVersion.value
  }

  /** Among the first n batches, m is the first accepted one after j. */
  predicate NextAccepted(batches: seq<Batch>, n: nat, j: nat, m: nat)
    requires n <= |batches|
  {
    j < m < n && Accepted(batches, m) && forall i :: j < i < m ==> !Accepted(batches, i)
  }

  /** Batch j is still listed after the first n: it was accepted, and the next accepted batch of the lane,
      if any, did not clear it while it had findings to clear. */
  ghost predicate StillListed(batches: seq<Batch>, n: nat, j: nat)
    requires n <= |batches|
  {
    && j < n && Accepted(batches, j)
    && forall m: nat :: NextAccepted(batches, n, j, m) ==> !ClearedBy(batches, j, m)
  }

  predicate Ascending(places: seq<nat>) { forall i, k :: 0 <= i < k < |places| ==> places[i] < places[k] }

  /** Entry i is the batch at its place, with its completeness withdrawn unless it is the last. */
  predicate EntryAt(batches: seq<Batch>, entries: seq<Batch>, places: seq<nat>, i: nat)
    requires i < |entries| == |places|
  {
    && places[i] < |batches|
    && entries[i] == if i < |places| - 1 then batches[places[i]].(complete := false) else batches[places[i]]
  }

  /** The entries are the batches at these places, in order; all but the last with completeness withdrawn. */
  predicate Lists(batches: seq<Batch>, entries: seq<Batch>, places: seq<nat>) {
    |entries| == |places| && Ascending(places) && forall i :: 0 <= i < |places| ==> EntryAt(batches, entries, places, i)
  }

  ghost predicate ListsExactly(batches: seq<Batch>, n: nat, entries: seq<Batch>, places: seq<nat>)
    requires n <= |batches|
  {
    Lists(batches, entries, places) && forall j: nat :: j in places <==> StillListed(batches, n, j)
  }

  /** The batches listed before the last one arrived, but for the one accepted last, are unaffected. */
  lemma ListedBefore(batches: seq<Batch>, n: nat, j: nat)
    requires 0 < n <= |batches| && j < n - 1
    requires LastAccepted(batches, n - 1) != Some(j) || !Accepted(batches, n - 1)
    ensures StillListed(batches, n, j) <==> StillListed(batches, n - 1, j)
  {
    if Accepted(batches, j) && !NextAccepted(batches, n, j, n - 1) {
      assert forall m: nat :: NextAccepted(batches, n, j, m) <==> NextAccepted(batches, n - 1, j, m);
    } else if Accepted(batches, j) {
      NoneBetween(batches, n - 1, j);
    }
  }

  /** If nothing after j was accepted, j is the last accepted batch. */
  lemma {:induction false} NoneBetween(batches: seq<Batch>, n: nat, j: nat)
    requires j < n <= |batches| && Accepted(batches, j) && forall i :: j < i < n ==> !Accepted(batches, i)
    ensures LastAccepted(batches, n) == Some(j)
    decreases n
  {
    if n - 1 > j {
      NoneBetween(batches, n - 1, j);
      assert !Accepted(batches, n - 1);
    }
  }

  lemma {:induction false} LastIsAccepted(batches: seq<Batch>, n: nat)
    requires n <= |batches|
    ensures var last := LastAccepted(batches, n);
            last.Some? ==> Accepted(batches, last.value) && forall i :: last.value < i < n ==> !Accepted(batches, i)
    ensures LastAccepted(batches, n).None? ==> n == 0
  {
    if n > 0 { LastIsAccepted(batches, n - 1); }
  }

  /** What becomes of the last accepted batch when another one is accepted. */
  lemma LastListed(batches: seq<Batch>, n: nat, last: nat)
    requires 0 < n <= |batches| && LastAccepted(batches, n - 1) == Some(last) && Accepted(batches, n - 1)
    ensures StillListed(batches, n, last) <==> !ClearedBy(batches, last, n - 1)
    ensures StillListed(batches, n - 1, last)
  {
    LastIsAccepted(batches, n - 1);
    assert NextAccepted(batches, n, last, n - 1);
  }

  /** A lane's entries are exactly the batches still listed, in the order received. */
  lemma {:induction false} EntriesExact(batches: seq<Batch>, n: nat) returns (places: seq<nat>)
    requires n <= |batches|
    ensures ListsExactly(batches, n, LaneEntries(batches, n), places)
  {
    if n == 0 {
      places := [];
    } else {
      var before := EntriesExact(batches, n - 1);
      if Accepted(batches, n - 1) {
        AcceptedEntries(batches, n);
        places := ExactAccepted(batches, n, LaneEntries(batches, n - 1), LaneEntries(batches, n), before);
      }
      else {
        places := before;
        RefusedEntries(batches, n);
        forall j: nat ensures j in places <==> StillListed(batches, n, j) { ListedRefused(batches, n, j); }
      }
    }
  }

  /** Who is listed once batch n - 1 has been accepted. */
  lemma ListedAfter(batches: seq<Batch>, n: nat, j: nat)
    requires 0 < n <= |batches| && Accepted(batches, n - 1)
    ensures var last := LastAccepted(batches, n - 1);
            StillListed(batches, n, j) <==>
              || j == n - 1
              || (StillListed(batches, n - 1, j) && (last == Some(j) ==> !ClearedBy(batches, j, n - 1)))
  {
    if LastAccepted(batches, n - 1) == Some(j) { LastListed(batches, n, j); }
    else if j < n - 1 { ListedBefore(batches, n, j); }
  }

  /** Batch n - 1 is accepted after the entries e and leaves the entries e'. */
  predicate Accepts(batches: seq<Batch>, n: nat, e: seq<Batch>, e': seq<Batch>)
    requires 0 < n <= |batches|
  {
    var last, k := LastAccepted(batches, n - 1), |e| - 1;
    if last.None? then e' == [batches[n - 1]]
    else e != [] && e' == if ClearedBy(batches, last.value, n - 1) then e[..k] + [batches[n - 1]]
                          else e[..k] + [e[k].(complete := false), batches[n - 1]]
  }

  /** Nothing of batch j has to stay once batch m is accepted. */
  predicate ClearedBy(batches: seq<Batch>, j: nat, m: nat)
    requires j < |batches| && m < |batches|
  {
    batches[j].findings == [] || Clears(batches[m])
  }

  lemma RefusedEntries(batches: seq<Batch>, n: nat)
    requires 0 < n <= |batches| && !Accepted(batches, n - 1)
    ensures LaneEntries(batches, n) == LaneEntries(batches, n - 1)
  {
    LastEntry(batches, n - 1);
    AbsorbRefused(LaneEntries(batches, n - 1), batches[n - 1]);
  }

  lemma AbsorbRefused(entries: seq<Batch>, b: Batch)
    requires entries != [] && !UpToDate(entries[|entries| - 1], b)
    ensures Absorb(entries, b) == entries
  {
  }

  /** A refused batch changes nothing about who is listed. */
  lemma ListedRefused(batches: seq<Batch>, n: nat, j: nat)
    requires 0 < n <= |batches| && !Accepted(batches, n - 1)
    ensures StillListed(batches, n, j) <==> StillListed(batches, n - 1, j)
  {
    if j < n - 1 { ListedBefore(batches, n, j); }
  }

  lemma AcceptedEntries(batches: seq<Batch>, n: nat)
    requires 0 < n <= |batches| && Accepted(batches, n - 1)
    ensures Accepts(batches, n, LaneEntries(batches, n - 1), LaneEntries(batches, n))
  {
    LastEntry(batches, n - 1);
    AbsorbAccepted(LaneEntries(batches, n - 1), batches[n - 1]);
  }

  lemma AbsorbAccepted(entries: seq<Batch>, b: Batch)
    requires entries != [] ==> UpToDate(entries[|entries| - 1], b)
    ensures entries == [] ==> Absorb(entries, b) == [b]
    ensures entries != [] ==>
              var k := |entries| - 1;
              Absorb(entries, b) == if entries[k].findings == [] || Clears(b) then entries[..k] + [b] else entries[..k] + [entries[k].(complete := false), b]
  {
  }

  lemma ExactAccepted(batches: seq<Batch>, n: nat, e: seq<Batch>, e': seq<Batch>, before: seq<nat>) returns (places: seq<nat>)
    requires 0 < n <= |batches| && Accepted(batches, n - 1) && ListsExactly(batches, n - 1, e, before) && Accepts(batches, n, e, e')
    ensures ListsExactly(batches, n, e', places)
  {
    var last := LastAccepted(batches, n - 1);
    if last.None? {
      places := FirstExact(batches, n, e, e', before);
    } else {
      LastPlace(batches, n - 1, e, before, last.value);
      places := NextPlaces(batches, n, before, last.value);
      NextLists(batches, n, e, e', before, last.value);
      MembersExact(batches, n, before, last.value);
    }
  }

  lemma NextLists(batches: seq<Batch>, n: nat, e: seq<Batch>, e': seq<Batch>, before: seq<nat>, last: nat)
    requires 0 < n <= |batches| && LastAccepted(batches, n - 1) == Some(last) && Accepts(batches, n, e, e')
    requires Lists(batches, e, before) && before != [] && forall i :: 0 <= i < |before| ==> before[i] < n - 1
    ensures Lists(batches, e', NextPlaces(batches, n, before, last))
  {
    var k := |e| - 1;
    if ClearedBy(batches, last, n - 1) {
      assert e' == e[..k] + [batches[n - 1]] && NextPlaces(batches, n, before, last) == before[..k] + [n - 1] by { assert |before| == |e|; }
      ReplaceLists(batches, e, before, n - 1);
    } else {
      assert e' == e[..k] + [e[k].(complete := false), batches[n - 1]] && NextPlaces(batches, n, before, last) == before + [n - 1];
      AppendLists(batches, e, before, n - 1);
    }
  }

  function NextPlaces(batches: seq<Batch>, n: nat, before: seq<nat>, last: nat): seq<nat>
    requires 0 < n <= |batches| && last < |batches| && before != []
  {
    (if ClearedBy(batches, last, n - 1) then before[..|before| - 1] else before) + [n - 1]
  }

  lemma MembersExact(batches: seq<Batch>, n: nat, before: seq<nat>, last: nat)
    requires 0 < n <= |batches| && Accepted(batches, n - 1) && LastAccepted(batches, n - 1) == Some(last)
    requires before != [] && before[|before| - 1] == last && forall i :: 0 <= i < |before| - 1 ==> before[i] < last
    requires forall j: nat :: j in before <==> StillListed(batches, n - 1, j)
    ensures forall j: nat :: j in NextPlaces(batches, n, before, last) <==> StillListed(batches, n, j)
  {
    forall j: nat ensures j in NextPlaces(batches, n, before, last) <==> StillListed(batches, n, j) {
      MemberExact(batches, n, before, last, j);
    }
  }

  lemma FirstExact(batches: seq<Batch>, n: nat, e: seq<Batch>, e': seq<Batch>, before: seq<nat>) returns (places: seq<nat>)
    requires 0 < n <= |batches| && LastAccepted(batches, n - 1).None? && Accepted(batches, n - 1) && Accepts(batches, n, e, e')
    ensures ListsExactly(batches, n, e', places)
  {
    LastIsAccepted(batches, n - 1);
    places := [n - 1];
    forall j: nat ensures j in places <==> StillListed(batches, n, j) { ListedAfter(batches, n, j); }
  }

  lemma MemberExact(batches: seq<Batch>, n: nat, before: seq<nat>, last: nat, j: nat)
    requires 0 < n <= |batches| && Accepted(batches, n - 1) && LastAccepted(batches, n - 1) == Some(last)
    requires before != [] && before[|before| - 1] == last && forall i :: 0 <= i < |before| - 1 ==> before[i] < last
    requires j in before <==> StillListed(batches, n - 1, j)
    ensures j in NextPlaces(batches, n, before, last) <==> StillListed(batches, n, j)
  {
    ListedAfter(batches, n, j);
    AcceptedMembers(before, last, n - 1, !ClearedBy(batches, last, n - 1), j);
  }

  /** Batch p comes after the entry before it, which stays with its completeness withdrawn. */
  lemma AppendLists(batches: seq<Batch>, e: seq<Batch>, before: seq<nat>, p: nat)
    requires Lists(batches, e, before) && before != [] && p < |batches| && forall i :: 0 <= i < |before| ==> before[i] < p
    ensures var k := |e| - 1; Lists(batches, e[..k] + [e[k].(complete := false), batches[p]], before + [p])
  {
    var k := |e| - 1;
    var after := e[..k] + [e[k].(complete := false), batches[p]];
    forall i | 0 <= i <= k + 1 ensures EntryAt(batches, after, before + [p], i) {
      if i <= k { assert EntryAt(batches, e, before, i); }
    }
  }

  /** Batch p takes the place of the entry before it. */
  lemma ReplaceLists(batches: seq<Batch>, e: seq<Batch>, before: seq<nat>, p: nat)
    requires Lists(batches, e, before) && before != [] && p < |batches| && forall i :: 0 <= i < |before| ==> before[i] < p
    ensures var k := |e| - 1; Lists(batches, e[..k] + [batches[p]], before[..k] + [p])
  {
    var k := |e| - 1;
    forall i | 0 <= i <= k ensures EntryAt(batches, e[..k] + [batches[p]], before[..k] + [p], i) {
      if i < k { assert EntryAt(batches, e, before, i); }
    }
  }

  lemma AcceptedMembers(before: seq<nat>, last: nat, p: nat, stays: bool, j: nat)
    requires before != [] && before[|before| - 1] == last && forall i :: 0 <= i < |before| - 1 ==> before[i] < last
    ensures j in (if stays then before else before[..|before| - 1]) + [p] <==> j == p || (j in before && (j == last ==> stays))
  {
    var front := before[..|before| - 1];
    assert before == front + [last];
    assert last !in front;
  }

  /** The last accepted batch is the last one listed. */
  lemma LastPlace(batches: seq<Batch>, n: nat, entries: seq<Batch>, places: seq<nat>, last: nat)
    requires n <= |batches| && LastAccepted(batches, n) == Some(last)
    requires ListsExactly(batches, n, entries, places)
    ensures places != [] && places[|places| - 1] == last && forall i :: 0 <= i < |places| - 1 ==> places[i] < last
  {
    LastIsAccepted(batches, n);
    assert StillListed(batches, n, last);
    var k := |places| - 1;
    assert places[k] in places && StillListed(batches, n, places[k]);
    var i :| 0 <= i < |places| && places[i] == last;
  }

  // ---------- All lanes together ----------

  function InLane(batches: seq<Batch>, lane: Lane): seq<Batch> {
    if batches == [] then []
    else InLane(batches[..|batches| - 1], lane) + (if batches[|batches| - 1].lane == lane then [batches[|batches| - 1]] else [])
  }

  /** The position of a lane's last entry. */
  ghost predicate LastAt(out: seq<Batch>, lane: Lane, i: nat) {
    && i < |out| && out[i].lane == lane
    && forall k :: i < k < |out| ==> out[k].lane != lane
  }

  ghost predicate Indexed(out: seq<Batch>, index: map<Lane, nat>) {
    && (forall lane :: lane in index ==> LastAt(out, lane, index[lane]))
    && (forall k :: 0 <= k < |out| ==> out[k].lane in index)
  }

  lemma {:induction false} InLaneAppend(a: seq<Batch>, b: Batch, lane: Lane)
    ensures InLane(a + [b], lane) == InLane(a, lane) + if b.lane == lane then [b] else []
  {
    assert (a + [b])[..|a|] == a;
  }

  lemma {:induction false} InLaneNone(out: seq<Batch>, lane: Lane)
    requires forall k :: 0 <= k < |out| ==> out[k].lane != lane
    ensures InLane(out, lane) == []
  {
    if out != [] { InLaneNone(out[..|out| - 1], lane); }
  }

  lemma {:induction false} OtherLane(out: seq<Batch>, i: nat, b: Batch, lane: Lane)
    requires i < |out| && out[i].lane == b.lane && lane != b.lane
    ensures InLane(out[i := b], lane) == InLane(out, lane)
    decreases |out|
  {
    var n := |out| - 1;
    if i == n {
      assert out[i := b][..n] == out[..n];
    } else {
      assert out[i := b][..n] == out[..n][i := b];
      OtherLane(out[..n], i, b, lane);
    }
  }

  lemma SkipLast(out: seq<Batch>, lane: Lane)
    requires out != [] && out[|out| - 1].lane != lane
    ensures InLane(out, lane) == InLane(out[..|out| - 1], lane)
  {
  }

  lemma TakeLast(out: seq<Batch>, lane: Lane)
    requires out != [] && out[|out| - 1].lane == lane
    ensures InLane(out, lane) == InLane(out[..|out| - 1], lane) + [out[|out| - 1]]
  {
  }

  /** Changing the last entry of a lane in place changes the last of its entries. */
  lemma {:induction false} OwnLane(out: seq<Batch>, i: nat, b: Batch)
    requires LastAt(out, b.lane, i)
    ensures var entries := InLane(out, b.lane);
            && entries != [] && entries[|entries| - 1] == out[i]
            && InLane(out[i := b], b.lane) == entries[..|entries| - 1] + [b]
    decreases |out|
  {
    var n := |out| - 1;
    var front := out[..n];
    if i == n {
      assert out[i := b][..n] == front;
      TakeLast(out, b.lane);
      TakeLast(out[i := b], b.lane);
    } else {
      assert out[i := b][..n] == front[i := b];
      OwnLane(front, i, b);
      SkipLast(out, b.lane);
      SkipLast(out[i := b], b.lane);
    }
  }

  /** A lane's batches, coalesced alone. */
  function Whole(own: seq<Batch>): seq<Batch> { LaneEntries(own, |own|) }

  ghost predicate LaneLocal(out: seq<Batch>, batches: seq<Batch>) {
    forall lane :: InLane(out, lane) == Whole(InLane(batches, lane))
  }

  /** One batch absorbed into its lane, the others untouched. */
  ghost predicate Absorbed(before: seq<Batch>, after: seq<Batch>, b: Batch) {
    && InLane(after, b.lane) == Absorb(InLane(before, b.lane), b)
    && forall lane :: lane != b.lane ==> InLane(after, lane) == InLane(before, lane)
  }

  lemma {:induction false} SameEntries(a: seq<Batch>, c: seq<Batch>, n: nat)
    requires n <= |a| && n <= |c| && forall k :: 0 <= k < n ==> c[k] == a[k]
    ensures LaneEntries(c, n) == LaneEntries(a, n)
  {
    if n > 0 { SameEntries(a, c, n - 1); }
  }

  lemma WholeAppend(own: seq<Batch>, b: Batch)
    ensures Whole(own + [b]) == Absorb(Whole(own), b)
  {
    SameEntries(own, own + [b], |own|);
    assert (own + [b])[|own|] == b;
  }

  lemma NextLaneLocal(before: seq<Batch>, after: seq<Batch>, batches: seq<Batch>, b: Batch)
    requires LaneLocal(before, batches) && Absorbed(before, after, b)
    ensures LaneLocal(after, batches + [b])
  {
    forall lane ensures InLane(after, lane) == Whole(InLane(batches + [b], lane)) {
      InLaneAppend(batches, b, lane);
      if lane == b.lane {
        WholeAppend(InLane(batches, lane), b);
      } else {
        assert InLane(batches + [b], lane) == InLane(batches, lane);
      }
    }
  }

  lemma AbsorbFirst(out: seq<Batch>, b: Batch)
    requires forall k :: 0 <= k < |out| ==> out[k].lane != b.lane
    ensures Absorbed(out, out + [b], b)
  {
    InLaneNone(out, b.lane);
    forall lane ensures InLane(out + [b], lane) == InLane(out, lane) + if b.lane == lane then [b] else [] {
      InLaneAppend(out, b, lane);
    }
  }

  lemma AbsorbStale(out: seq<Batch>, i: nat, b: Batch)
    requires LastAt(out, b.lane, i) && Stale(out[i], b)
    ensures Absorbed(out, out, b)
  {
    OwnLane(out, i, b);
  }

  lemma AbsorbReplace(out: seq<Batch>, i: nat, b: Batch)
    requires LastAt(out, b.lane, i) && !Stale(out[i], b) && !Retains(out[i], b)
    ensures Absorbed(out, out[i := b], b)
  {
    forall lane ensures lane != b.lane ==> InLane(out[i := b], lane) == InLane(out, lane) {
      if lane != b.lane { OtherLane(out, i, b, lane); }
    }
    OwnLane(out, i, b);
  }

  lemma AbsorbRetain(out: seq<Batch>, i: nat, b: Batch)
    requires LastAt(out, b.lane, i) && !Stale(out[i], b) && Retains(out[i], b)
    ensures Absorbed(out, out[i := out[i].(complete := false)] + [b], b)
  {
    var demoted := out[i].(complete := false);
    var mid := out[i := demoted];
    forall lane ensures lane != b.lane ==> InLane(mid + [b], lane) == InLane(out, lane) {
      if lane != b.lane { OtherLane(out, i, demoted, lane); }
      InLaneAppend(mid, b, lane);
    }
    OwnLane(out, i, demoted);
    InLaneAppend(mid, b, b.lane);
    var entries := InLane(out, b.lane);
    assert entries[..|entries| - 1] + [demoted] + [b] == entries[..|entries| - 1] + [demoted, b];
  }

  lemma IndexedAppend(out: seq<Batch>, index: map<Lane, nat>, b: Batch)
    requires Indexed(out, index)
    ensures Indexed(out + [b], index[b.lane := |out|])
  {
  }

  lemma IndexedReplace(out: seq<Batch>, index: map<Lane, nat>, i: nat, b: Batch)
    requires Indexed(out, index) && i < |out| && out[i].lane == b.lane
    ensures Indexed(out[i := b], index)
  {
    var after := out[i := b];
    assert forall k :: 0 <= k < |out| ==> after[k].lane == out[k].lane;
  }

  /** One turn of the loop. */
  method Arrive(out: seq<Batch>, index: map<Lane, nat>, batch: Batch) returns (after: seq<Batch>, index': map<Lane, nat>)
    requires Indexed(out, index)
    ensures Indexed(after, index') && Absorbed(out, after, batch)
  {
    after, index' := out, index;
    var key := batch.lane;
    if key in index {
      var i := index[key];
      var prior := out[i];
      if Older(batch.expectedVersion, prior.expectedVersion) {
        AbsorbStale(out, i, batch);
        return;
      }
      if Older(batch.documentVersion, prior.documentVersion) {
        AbsorbStale(out, i, batch);
        return;
      }
      if |prior.findings| > 0 && !Proven(batch) {
        AbsorbRetain(out, i, batch);
        IndexedReplace(out, index, i, prior.(complete := false));
        after := out[i := prior.(complete := false)];
        IndexedAppend(after, index, batch);
        index' := index[key := |after|];
        after := after + [batch];
      } else {
        AbsorbReplace(out, i, batch);
        IndexedReplace(out, index, i, batch);
        after := out[i := batch];
      }
    } else {
      AbsorbFirst(out, batch);
      IndexedAppend(out, index, batch);
      index' := index[key := |out|];
      after := out + [batch];
    }
  }

  /** coalesceLateDiagnosticBatches: each lane's part of the output is that lane's batches coalesced alone. */
  method Coalesce(batches: seq<Batch>) returns (out: seq<Batch>)
    ensures forall lane :: InLane(out, lane) == Whole(InLane(batches, lane))
    ensures forall lane :: ExactIn(InLane(batches, lane), InLane(out, lane))
  {
    out := [];
    var index: map<Lane, nat> := map[];
    for n := 0 to |batches|
      invariant Indexed(out, index)
      invariant LaneLocal(out, batches[..n])
    {
      ghost var before := out;
      assert batches[..n + 1] == batches[..n] + [batches[n]];
      out, index := Arrive(out, index, batches[n]);
      NextLaneLocal(before, out, batches[..n], batches[n]);
    }
    assert batches[..|batches|] == batches;
    forall lane ensures ExactIn(InLane(batches, lane), InLane(out, lane)) {
      var places := EntriesExact(InLane(batches, lane), |InLane(batches, lane)|);
    }
  }

  /** The entries are exactly the batches of the lane still listed. */
  ghost predicate ExactIn(own: seq<Batch>, entries: seq<Batch>) { exists places :: ListsExactly(own, |own|, entries, places) }

  // ---------- Merging items by fingerprint ----------

  datatype Item = Item(id: string, body: string)

  /** The latest body of each fingerprint. */
  function Latest(items: seq<Item>): map<string, Item> {
    if items == [] then map[] else Latest(items[..|items| - 1])[items[|items| - 1].id := items[|items| - 1]]
  }

  ghost predicate LastItemAt(items: seq<Item>, id: string, i: nat) {
    && i < |items| && items[i].id == id
    && forall k :: i < k < |items| ==> items[k].id != id
  }

  ghost predicate Located(items: seq<Item>, index: map<string, nat>) {
    && (forall id :: id in index ==> LastItemAt(items, id, index[id]))
    && (forall k :: 0 <= k < |items| ==> items[k].id in index)
  }

  lemma LatestAppend(items: seq<Item>, item: Item)
    ensures Latest(items + [item]) == Latest(items)[item.id := item]
  {
    assert (items + [item])[..|items|] == items;
  }

  lemma {:induction false} LatestReplace(items: seq<Item>, i: nat, item: Item)
    requires LastItemAt(items, item.id, i)
    ensures Latest(items[i := item]) == Latest(items)[item.id := item]
    decreases |items|
  {
    var n := |items| - 1;
    var front := items[..n];
    if i == n {
      assert items[i := item][..n] == front;
    } else {
      assert items[i := item][..n] == front[i := item];
      LatestReplace(front, i, item);
    }
  }

  function Ids(items: seq<Item>): (r: seq<string>)
    ensures |r| == |items| && forall i :: 0 <= i < |items| ==> r[i] == items[i].id
  {
    seq(|items|, i requires 0 <= i < |items| => items[i].id)
  }

  function WithId(ids: seq<string>, id: string): seq<string> { if id in ids then ids else ids + [id] }

  /** The fingerprints in order of first appearance: those listed, then the new ones as observed. */
  function FirstSeen(ids: seq<string>, observed: seq<Item>, n: nat): seq<string>
    requires n <= |observed|
  {
    if n == 0 then ids else WithId(FirstSeen(ids, observed, n - 1), observed[n - 1].id)
  }

  ghost predicate OncePerId(items: seq<Item>) { forall i, j :: 0 <= i < j < |items| ==> items[i].id != items[j].id }

  /** mergeDiagnosticItems: one entry per fingerprint, at its first position, with its latest body. */
  method MergeItems(items: seq<Item>, observed: seq<Item>) returns (merged: seq<Item>)
    ensures Latest(merged) == Latest(items + observed)
    ensures Ids(merged) == FirstSeen(Ids(items), observed, |observed|) && (OncePerId(items) ==> OncePerId(merged))
  {
    var index := IndexItems(items);
    merged := items;
    ghost var seen := items;
    assert items + observed[..0] == items;
    for n := 0 to |observed|
      invariant Located(merged, index) && (OncePerId(items) ==> OncePerId(merged))
      invariant Ids(merged) == FirstSeen(Ids(items), observed, n)
      invariant seen == items + observed[..n] && Latest(merged) == Latest(seen)
    {
      LatestAppend(seen, observed[n]);
      ExtendSeen(items, observed, n);
      seen := seen + [observed[n]];
      merged, index := Put(merged, index, observed[n]);
    }
    assert observed[..|observed|] == observed;
  }

  lemma ExtendSeen(items: seq<Item>, observed: seq<Item>, n: nat)
    requires n < |observed|
    ensures items + observed[..n + 1] == items + observed[..n] + [observed[n]]
  {
  }

  method IndexItems(items: seq<Item>) returns (index: map<string, nat>)
    ensures Located(items, index)
  {
    index := map[];
    for i := 0 to |items|
      invariant Located(items[..i], index)
    {
      assert items[..i + 1] == items[..i] + [items[i]];
      index := index[items[i].id := i];
    }
    assert items[..|items|] == items;
  }

  lemma PutInPlace(items: seq<Item>, index: map<string, nat>, i: nat, item: Item)
    requires Located(items, index) && LastItemAt(items, item.id, i)
    ensures Located(items[i := item], index) && Ids(items[i := item]) == Ids(items) && item.id in Ids(items)
    ensures OncePerId(items) ==> OncePerId(items[i := item])
  {
    var after := items[i := item];
    assert forall k :: 0 <= k < |items| ==> after[k].id == items[k].id;
    assert Ids(items)[i] == item.id;
  }

  lemma PutAtEnd(items: seq<Item>, index: map<string, nat>, item: Item)
    requires Located(items, index) && item.id !in index
    ensures Located(items + [item], index[item.id := |items|]) && Ids(items + [item]) == Ids(items) + [item.id] && item.id !in Ids(items)
    ensures OncePerId(items) ==> OncePerId(items + [item])
  {
    NotListed(items, item.id);
  }

  method Put(items: seq<Item>, index: map<string, nat>, item: Item) returns (after: seq<Item>, index': map<string, nat>)
    requires Located(items, index)
    ensures Located(after, index') && (OncePerId(items) ==> OncePerId(after)) && Ids(after) == WithId(Ids(items), item.id)
    ensures Latest(after) == Latest(items)[item.id := item]
  {
    if item.id in index {
      var i := index[item.id];
      PutInPlace(items, index, i, item);
      LatestReplace(items, i, item);
      after, index' := items[i := item], index;
    } else {
      PutAtEnd(items, index, item);
      LatestAppend(items, item);
      after, index' := items + [item], index[item.id := |items|];
    }
  }

  lemma NotListed(items: seq<Item>, id: string)
    requires forall k :: 0 <= k < |items| ==> items[k].id != id
    ensures id !in Ids(items)
  {
  }
}
