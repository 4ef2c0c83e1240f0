// What alterations of an honest journal the verifier detects, and which it cannot.
module Tamper {
  import opened Wrappers
  import opened Json
  import opened Evidence
  import opened Verification
  import opened Chain

  // The part of Chained that binds positions: every payload names the digest
  // of the payload before it, and every stored hash is the payload's digest.
  ghost predicate Linked(p: Primitives, events: seq<Event>) {
    forall i :: 0 <= i < |events| ==> LinkedAt(p, events, i)
  }

  ghost predicate LinkedAt(p: Primitives, events: seq<Event>, i: nat)
    requires i < |events|
  {
    var payload := UnsignedPayload(events[i]);
    && Get(payload, PreviousEventHash) == HashJson(PreviousOf(events, i))
    && StoredHash(events[i]) == Some(p.digest(payload))
  }

  lemma ChainedIsLinked(p: Primitives, trusted: Keyring, events: seq<Event>)
    requires Chained(p, trusted, events)
    ensures Linked(p, events)
  {
    forall i | 0 <= i < |events|
      ensures LinkedAt(p, events, i)
    {
      assert EventOk(p, events[i], PreviousOf(events, i), trusted);
    }
  }

  lemma StoredHashIsDigest(p: Primitives, events: seq<Event>, i: nat)
    requires Linked(p, events) && i < |events|
    ensures Get(events[i], EventHash) == JStr(p.digest(UnsignedPayload(events[i])))
  {
    assert LinkedAt(p, events, i);
  }

  function Payloads(events: seq<Event>): seq<Event> {
    seq(|events|, i requires 0 <= i < |events| => UnsignedPayload(events[i]))
  }

  // One shared payload anchors two chains: it sits at the same position in
  // both, and everything before it agrees.
  lemma {:induction false} SharedPayloadAnchors(p: Primitives, a: seq<Event>, b: seq<Event>, i: nat, j: nat)
    requires IdealDigest(p) && Linked(p, a) && Linked(p, b)
    requires i < |a| && j < |b| && UnsignedPayload(a[i]) == UnsignedPayload(b[j])
    ensures i == j && Payloads(a[..i + 1]) == Payloads(b[..i + 1])
  {
    OnlyFirstIsUnlinked(p, a);
    OnlyFirstIsUnlinked(p, b);
    assert LinkedAt(p, a, i) && LinkedAt(p, b, j);
    assert PreviousOf(a, i) == PreviousOf(b, j);
    if i > 0 {
      assert LinkedAt(p, a, i - 1) && LinkedAt(p, b, j - 1);
      SharedPayloadAnchors(p, a, b, i - 1, j - 1);
      assert Payloads(a[..i + 1]) == Payloads(a[..i]) + [UnsignedPayload(a[i])];
      assert Payloads(b[..i + 1]) == Payloads(b[..i]) + [UnsignedPayload(b[i])];
    }
  }

  lemma OnlyFirstIsUnlinked(p: Primitives, events: seq<Event>)
    requires Linked(p, events)
    ensures forall i :: 0 < i <= |events| ==> PreviousOf(events, i).Some?
  {
    forall i | 0 < i <= |events|
      ensures PreviousOf(events, i).Some?
    {
      assert LinkedAt(p, events, i - 1);
    }
  }

  // The last hash commits to the whole history: two accepted journals that
  // end in the same event_hash record the same payloads.
  lemma LastHashCommitsToHistory(p: Primitives, trustedA: Keyring, trustedB: Keyring, a: seq<Event>, b: seq<Event>)
    requires IdealDigest(p) && Accepts(p, trustedA, a) && Accepts(p, trustedB, b)
    requires |a| > 0 && |b| > 0 && Get(a[|a| - 1], EventHash) == Get(b[|b| - 1], EventHash)
    ensures Payloads(a) == Payloads(b)
  {
    hide Chained, Accepts, Linked;
    AcceptsExactly(p, trustedA, a);
    AcceptsExactly(p, trustedB, b);
    ChainedIsLinked(p, trustedA, a);
    ChainedIsLinked(p, trustedB, b);
    LinkedHashCommits(p, a, b);
  }

  lemma LinkedHashCommits(p: Primitives, a: seq<Event>, b: seq<Event>)
    requires IdealDigest(p) && Linked(p, a) && Linked(p, b)
    requires |a| > 0 && |b| > 0 && Get(a[|a| - 1], EventHash) == Get(b[|b| - 1], EventHash)
    ensures Payloads(a) == Payloads(b)
  {
    hide Linked;
    StoredHashIsDigest(p, a, |a| - 1);
    StoredHashIsDigest(p, b, |b| - 1);
    SharedPayloadAnchors(p, a, b, |a| - 1, |b| - 1);
    assert a[..|a|] == a && b[..|b|] == b;
  }

  // Every prefix of an honest journal is accepted: cutting the tail leaves no trace.
  lemma PrefixIsAccepted(p: Primitives, trusted: Keyring, honest: seq<Event>, k: nat)
    requires Chained(p, trusted, honest) && CountsArePositions(honest) && k <= |honest|
    ensures Accepts(p, trusted, honest[..k])
    ensures Chained(p, trusted, honest[..k]) && CountsArePositions(honest[..k])
  {
    hide EventOk, Accepts;
    var prefix := honest[..k];
    assert forall i :: 0 <= i < k ==> prefix[i] == honest[i] && PreviousOf(prefix, i) == PreviousOf(honest, i);
    PositionsCover(prefix);
    AcceptsExactly(p, trusted, prefix);
  }

  // Tamper evidence is exactly "prefix": a journal put together from events of
  // an honest one - reordered, thinned out, repeated - is accepted without a
  // witness if and only if it is a prefix of it.
  lemma RearrangementAcceptedIffPrefix(p: Primitives, trusted: Keyring, honest: seq<Event>, altered: seq<Event>)
    requires IdealDigest(p) && Chained(p, trusted, honest) && CountsArePositions(honest)
    requires forall e :: e in altered ==> e in honest
    ensures Accepts(p, trusted, altered) <==> altered <= honest
  {
    hide EventOk, Accepts, LinkedAt;
    if altered <= honest {
      PrefixIsAccepted(p, trusted, honest, |altered|);
      assert honest[..|altered|] == altered;
    }
    if Accepts(p, trusted, altered) {
      AcceptsExactly(p, trusted, altered);
      ChainedIsLinked(p, trusted, altered);
      ChainedIsLinked(p, trusted, honest);
      forall i | 0 <= i < |altered|
        ensures i < |honest| && altered[i] == honest[i]
      {
        assert altered[i] in honest;
        var j :| 0 <= j < |honest| && honest[j] == altered[i];
        SharedPayloadAnchors(p, altered, honest, i, j);
      }
      assert |altered| == 0 || altered[|altered| - 1] == honest[|altered| - 1];
    }
  }

  // The signature of the event verifies under the trusted key its key id names.
  predicate Signed(p: Primitives, trusted: Keyring, e: Event) {
    var keyId := Get(e, KeyId);
    keyId.JStr? && keyId.s in trusted
    && SignedBy(p, trusted[keyId.s], p.digest(UnsignedPayload(e)), Get(e, Signature))
  }

  // About an altered journal: whoever altered it has no trusted key, so each of
  // its events whose signature verifies has the digest of an event that the
  // writers of one of the honest journals signed.
  ghost predicate OnlyWritersSigned(p: Primitives, trusted: Keyring, honest: seq<seq<Event>>, altered: seq<Event>) {
    forall e :: e in altered && Signed(p, trusted, e) ==> SignedFor(p, honest, e)
  }

  ghost predicate SignedFor(p: Primitives, honest: seq<seq<Event>>, e: Event) {
    exists k, i :: 0 <= k < |honest| && 0 <= i < |honest[k]|
                   && p.digest(UnsignedPayload(e)) == p.digest(UnsignedPayload(honest[k][i]))
  }

  // The journal records the first events of the history, or all of them.
  predicate RecordsPrefix(altered: seq<Event>, history: seq<Event>) {
    |altered| <= |history| && Payloads(altered) == Payloads(history[..|altered|])
  }

  lemma SignedPayloadIsHonest(p: Primitives, trusted: Keyring, honest: seq<seq<Event>>, altered: seq<Event>, i: nat)
    returns (k: nat, j: nat)
    requires IdealDigest(p) && OnlyWritersSigned(p, trusted, honest, altered)
    requires i < |altered| && EventOk(p, altered[i], PreviousOf(altered, i), trusted)
    ensures k < |honest| && j < |honest[k]| && UnsignedPayload(altered[i]) == UnsignedPayload(honest[k][j])
  {
    var e := altered[i];
    assert e in altered && Signed(p, trusted, e);
    assert SignedFor(p, honest, e);
    k, j :| 0 <= k < |honest| && 0 <= j < |honest[k]|
            && p.digest(UnsignedPayload(e)) == p.digest(UnsignedPayload(honest[k][j]));
  }

  // Any journal at all, whatever it is made of: if it is accepted, and its
  // signatures are those of the writers of some honest journals, it records the
  // beginning of one of them.
  lemma AcceptedJournalRecordsPrefix(p: Primitives, trusted: Keyring, honest: seq<seq<Event>>, altered: seq<Event>)
    requires IdealDigest(p) && OnlyWritersSigned(p, trusted, honest, altered)
    requires forall k :: 0 <= k < |honest| ==> Linked(p, honest[k])
    requires Accepts(p, trusted, altered)
    ensures altered == [] || exists k :: 0 <= k < |honest| && RecordsPrefix(altered, honest[k])
  {
    hide EventOk, Accepts, LinkedAt, Linked, OnlyWritersSigned;
    AcceptsExactly(p, trusted, altered);
    ChainedIsLinked(p, trusted, altered);
    if |altered| > 0 {
      var last := |altered| - 1;
      var k, j := SignedPayloadIsHonest(p, trusted, honest, altered, last);
      SharedPayloadAnchors(p, altered, honest[k], last, j);
      assert altered[..last + 1] == altered;
      assert RecordsPrefix(altered, honest[k]);
    }
  }

  // The same of a file with any lines: what it verifies as is such a beginning.
  lemma AcceptedFileRecordsPrefix(p: Primitives, trusted: Keyring, honest: seq<seq<Event>>, lines: seq<Line>)
    requires IdealDigest(p) && forall k :: 0 <= k < |honest| ==> Linked(p, honest[k])
    requires var r := Verify(p, trusted, Readable(lines), None);
             r.Finished? && r.report.valid && OnlyWritersSigned(p, trusted, honest, r.events)
    ensures var events := Verify(p, trusted, Readable(lines), None).events;
            events == [] || exists k :: 0 <= k < |honest| && RecordsPrefix(events, honest[k])
  {
    hide Verify, Linked, Accepts, OnlyWritersSigned, RecordsPrefix;
    AcceptedFileIsEvents(p, trusted, lines);
    AcceptedJournalRecordsPrefix(p, trusted, honest, Verify(p, trusted, Readable(lines), None).events);
  }

  // ----- truncation against a witness -----

  ghost predicate UniqueIds(events: seq<Event>) {
    forall i, j :: 0 <= i < j < |events| ==> Get(events[i], EventId) != Get(events[j], EventId)
  }

  lemma CheckpointEventIsWitness(p: Primitives, trusted: Keyring, e: Event, expected: Option<string>)
    requires EventOk(p, e, expected, trusted) && IsCheckpoint(e)
    ensures LoadWitness(p, Stored(e), trusted) == Some((Some(e), []))
  {
  }

  // Keeping the first k events of an honest journal, checked against the
  // witness of the checkpoint at position c: which issues there are, and so
  // when the journal still verifies, whatever other checkpoints it holds.
  lemma WitnessDecidesTruncation(p: Primitives, trusted: Keyring, honest: seq<Event>, c: nat, k: nat)
    requires FaithfulText(p) && Chained(p, trusted, honest) && CountsArePositions(honest) && UniqueIds(honest)
    requires c < |honest| && k <= |honest| && IsCheckpoint(honest[c]) && Get(honest[c], EventId).JStr?
    ensures Verify(p, trusted, Readable(Objects(honest[..k])), Some(Stored(honest[c])))
            == Finished(
                 if k > c then Report(true, k, [])
                 else Report(false, k, [Issue(0, CheckpointNotFound)]
                                       + if k < c then [Issue(0, CheckpointTruncation)] else []),
                 honest[..k])
  {
    hide EventOk, ScanLines, LoadWitness, Chained, EventIssues, Accepts;
    var kept, wit := honest[..k], honest[c];
    var id := WitnessId(p, Some(wit));
    WitnessLoads(p, trusted, honest, c);
    PrefixIsAccepted(p, trusted, honest, k);
    ScanObjects(p, trusted, id, kept);
    FoundIffKept(honest, c, k);
    PositionsCover(kept);
    assert Get(wit, EventId) == JStr(id.value);
    assert AsInt(Get(wit, CheckpointCount)) == Some(c);
  }

  lemma WitnessLoads(p: Primitives, trusted: Keyring, honest: seq<Event>, c: nat)
    requires Chained(p, trusted, honest) && c < |honest| && IsCheckpoint(honest[c])
    ensures LoadWitness(p, Stored(honest[c]), trusted) == Some((Some(honest[c]), []))
  {
    hide EventOk, LoadWitness;
    CheckpointEventIsWitness(p, trusted, honest[c], PreviousOf(honest, c));
  }

  lemma FoundIffKept(honest: seq<Event>, c: nat, k: nat)
    requires UniqueIds(honest) && c < |honest| && k <= |honest| && Get(honest[c], EventId).JStr?
    ensures Holds(honest[..k], Get(honest[c], EventId).s) <==> k > c
  {
    var kept, id := honest[..k], Get(honest[c], EventId).s;
    if k > c {
      assert kept[c] == honest[c];
    }
    if Holds(kept, id) {
      var i :| 0 <= i < |kept| && Get(kept[i], EventId) == JStr(id);
      assert kept[i] == honest[i];
      assert !(i < c) && !(c < i);
    }
  }

  // ----- one altered payload -----

  predicate IssuesOnLine(issues: seq<Issue>, line: nat) {
    forall i :: 0 <= i < |issues| ==> issues[i].line == line
  }

  lemma EventIssuesNameTheLine(p: Primitives, e: Event, line: nat, expected: Option<string>, trusted: Keyring)
    ensures IssuesOnLine(EventIssues(p, e, line, expected, trusted), line)
  {
  }

  // Damage stays local. Replacing one event of an accepted journal by another
  // payload under the stored event_hash gives issues of that line only, at
  // least one of them, and leaves every other event verified. (The verifier
  // itself fails when the new schema_version or event_type is a list or an
  // object.)
  lemma DamageStaysLocal(p: Primitives, trusted: Keyring, events: seq<Event>, i: nat, damaged: Event)
    requires IdealDigest(p) && Accepts(p, trusted, events) && i < |events|
    requires !IsCheckpoint(events[i]) && !IsCheckpoint(damaged)
    requires UnsignedPayload(damaged) != UnsignedPayload(events[i])
    requires Get(damaged, EventHash) == Get(events[i], EventHash)
    ensures var outcome := Verify(p, trusted, Readable(Objects(events[i := damaged])), None);
            if Crashes(damaged) then outcome == Crashed
            else
              && outcome.Finished? && outcome.events == events[i := damaged]
              && !outcome.report.valid
              && outcome.report.issues == EventIssues(p, damaged, i + 1, PreviousOf(events, i), trusted)
              && outcome.report.issues != [] && IssuesOnLine(outcome.report.issues, i + 1)
              && outcome.report.verified == |events| - 1
  {
    hide Chained, EventIssues, Accepts, ScanLines, Crashes, StoredHash, UnsignedPayload, Covered, LastCheckpoint;
    AcceptsExactly(p, trusted, events);
    var after := events[i := damaged];
    HashMismatchIsReported(p, trusted, events, i, damaged);
    ScanDamaged(p, trusted, events, i, damaged, |events|);
    assert after[..|events|] == after;
    EventIssuesNameTheLine(p, damaged, i + 1, PreviousOf(events, i), trusted);
    if Crashes(damaged) {
      assert WitnessId(p, None) == None;
    } else {
      LastCheckpointIgnores(events, i, damaged);
      StillCovered(events, after);
      CoveredReport(p, trusted, after);
    }
  }

  lemma StillCovered(events: seq<Event>, after: seq<Event>)
    requires Covered(events) && LastCheckpoint(after) == LastCheckpoint(events) && |after| == |events|
    ensures Covered(after)
  {
  }

  lemma HashMismatchIsReported(p: Primitives, trusted: Keyring, events: seq<Event>, i: nat, damaged: Event)
    requires IdealDigest(p) && Chained(p, trusted, events) && i < |events|
    requires UnsignedPayload(damaged) != UnsignedPayload(events[i])
    requires Get(damaged, EventHash) == Get(events[i], EventHash)
    ensures StoredHash(damaged) == StoredHash(events[i])
    ensures !Crashes(damaged) ==> EventIssues(p, damaged, i + 1, PreviousOf(events, i), trusted) != []
  {
    hide EventIssues, Crashes, Chained;
    ChainedIsLinked(p, trusted, events);
    StoredHashIsDigest(p, events, i);
    CleanEventIsOk(p, damaged, i + 1, PreviousOf(events, i), trusted);
  }

  // The state of the pass over the altered journal after n > i events.
  ghost predicate OneDamaged(p: Primitives, trusted: Keyring, events: seq<Event>, i: nat, damaged: Event, after: seq<Event>,
                             s: Scan)
    requires i < |events| && |after| <= |events|
  {
    if Crashes(damaged) then s.status == Raised
    else
      && s.status == Running && s.total == |after| && s.verified == |after| - 1
      && s.previous == PreviousOf(events, |after|)
      && s.issues == EventIssues(p, damaged, i + 1, PreviousOf(events, i), trusted)
      && s.events == after
      && s.newest == LastCheckpoint(after)
  }

  lemma DamageArrives(p: Primitives, trusted: Keyring, events: seq<Event>, i: nat, damaged: Event)
    requires Chained(p, trusted, events) && i < |events|
    requires StoredHash(damaged) == StoredHash(events[i])
    requires !Crashes(damaged) ==> EventIssues(p, damaged, i + 1, PreviousOf(events, i), trusted) != []
    ensures var after := events[..i] + [damaged];
            OneDamaged(p, trusted, events, i, damaged, after, ScanLines(p, trusted, None, Objects(after)))
  {
    hide EventOk, EventIssues, Crashes, Chained, ScanLines, Accepts, StoredHash;
    var after := events[..i] + [damaged];
    PrefixIsChained(p, trusted, events, i);
    ScanObjects(p, trusted, None, events[..i]);
    ScanSnoc(p, trusted, None, after);
    assert after[..i] == events[..i];
  }

  lemma DamagePasses(p: Primitives, trusted: Keyring, events: seq<Event>, i: nat, damaged: Event, before: seq<Event>)
    requires Chained(p, trusted, events) && i < |before| < |events|
    requires OneDamaged(p, trusted, events, i, damaged, before, ScanLines(p, trusted, None, Objects(before)))
    ensures var after := before + [events[|before|]];
            OneDamaged(p, trusted, events, i, damaged, after, ScanLines(p, trusted, None, Objects(after)))
  {
    hide EventOk, EventIssues, Crashes, Chained, ScanLines, ScanEvent, Accepts, StoredHash;
    var n := |before|;
    var after := before + [events[n]];
    ScanSnoc(p, trusted, None, after);
    assert after[..n] == before;
    EventAt(p, trusted, events, n);
    var s := ScanLines(p, trusted, None, Objects(before));
    if s.status == Running {
      ScanEventEffect(p, trusted, None, s, events[n], n + 1);
    }
  }

  // The pass over the altered journal, position by position.
  lemma {:induction false} ScanDamaged(p: Primitives, trusted: Keyring, events: seq<Event>, i: nat, damaged: Event,
                                       n: nat)
    requires Chained(p, trusted, events) && i < n <= |events|
    requires StoredHash(damaged) == StoredHash(events[i])
    requires !Crashes(damaged) ==> EventIssues(p, damaged, i + 1, PreviousOf(events, i), trusted) != []
    ensures var after := events[i := damaged][..n];
            OneDamaged(p, trusted, events, i, damaged, after, ScanLines(p, trusted, None, Objects(after)))
  {
    hide *;
    var after := events[i := damaged][..n];
    if n == i + 1 {
      DamageArrives(p, trusted, events, i, damaged);
      assert after == events[..i] + [damaged];
    } else {
      ScanDamaged(p, trusted, events, i, damaged, n - 1);
      assert after[..n - 1] == events[i := damaged][..n - 1];
      DamagePasses(p, trusted, events, i, damaged, after[..n - 1]);
      assert after[..n - 1] + [events[n - 1]] == after;
    }
  }

  lemma EventAt(p: Primitives, trusted: Keyring, events: seq<Event>, i: nat)
    requires Chained(p, trusted, events) && i < |events|
    ensures EventOk(p, events[i], PreviousOf(events, i), trusted)
  {
    hide EventOk;
  }

  lemma PrefixIsChained(p: Primitives, trusted: Keyring, events: seq<Event>, k: nat)
    requires Chained(p, trusted, events) && k <= |events|
    ensures Chained(p, trusted, events[..k]) && PreviousOf(events[..k], k) == PreviousOf(events, k)
  {
    hide EventOk;
    var prefix := events[..k];
    assert forall i :: 0 <= i < k ==> prefix[i] == events[i] && PreviousOf(prefix, i) == PreviousOf(events, i);
  }

  // The newest checkpoint is not affected by an event that is not one.
  lemma {:induction false} LastCheckpointIgnores(events: seq<Event>, i: nat, e: Event)
    requires i < |events| && !IsCheckpoint(events[i]) && !IsCheckpoint(e)
    ensures LastCheckpoint(events[i := e]) == LastCheckpoint(events)
  {
    var n := |events| - 1;
    if i < n {
      assert events[i := e][..n] == events[..n][i := e];
      LastCheckpointIgnores(events[..n], i, e);
    } else {
      assert events[i := e][..n] == events[..n];
    }
  }
}
