// Which checkpoint witnesses the verifier takes: exactly those that it would
// take as lines of a journal, so none that the journal's writers did not sign;
// and what any other witness does to the report.
module WitnessLaws {
  import opened Wrappers
  import opened Json
  import opened Evidence
  import opened Verification
  import opened Chain
  import opened Tamper
  import opened IssueLaws

  // As a line of a journal the event would raise no issue but a broken link.
  ghost predicate OnlyUnlinked(p: Primitives, w: Event, trusted: Keyring) {
    Judged(w) && forall code :: code != ChainBreak ==> !Because(p, w, None, trusted, code)
  }

  // A witness is taken exactly when it is a checkpoint with which nothing is
  // wrong but, perhaps, its place: fields, head, count, digest, key and
  // signature are all checked. With the previous hash it names it is then in
  // order as a line of a journal.
  lemma WitnessLoadsExactly(p: Primitives, w: Event, trusted: Keyring, previous: Option<string>)
    ensures LoadWitness(p, Stored(w), trusted) == Some((Some(w), [])) <==> IsCheckpoint(w) && OnlyUnlinked(p, w, trusted)
    ensures PreviousEventHash in w && w[PreviousEventHash] == HashJson(previous) ==>
              (LoadWitness(p, Stored(w), trusted) == Some((Some(w), [])) <==>
                 IsCheckpoint(w) && EventOk(p, w, previous, trusted))
  {
    hide UnsignedPayload, HostEqual, Complete, RequiredFields, EventOk, WitnessOk;
    if IsCheckpoint(w) {
      CheckpointChecks(p, w, trusted);
      WitnessIsOkEvent(p, w, trusted, previous);
    } else {
      OnlyCheckpointsAreOk(p, w, trusted);
    }
  }

  lemma OnlyCheckpointsAreOk(p: Primitives, w: Event, trusted: Keyring)
    ensures WitnessOk(p, w, trusted) ==> IsCheckpoint(w) && Hashable(Get(w, SchemaVersion))
  {
    hide UnsignedPayload, HostEqual;
  }

  lemma CheckpointChecks(p: Primitives, w: Event, trusted: Keyring)
    requires IsCheckpoint(w)
    ensures OnlyUnlinked(p, w, trusted) <==> WitnessOk(p, w, trusted)
    ensures WitnessOk(p, w, trusted) ==> Hashable(Get(w, SchemaVersion))
  {
    hide UnsignedPayload, HostEqual, Complete, RequiredFields;
    CompleteIsKnown(w);
    if Get(w, SchemaVersion) == SCHEMA_ONE {
      CompleteExactly(w);
      NamesOfCheckpoint();
    }
    if OnlyUnlinked(p, w, trusted) {
      assert !Because(p, w, None, trusted, UnknownSchema) && !Because(p, w, None, trusted, MissingFields);
      assert !Because(p, w, None, trusted, CheckpointHeadMismatch) && !Because(p, w, None, trusted, CheckpointBadCount);
      assert !Because(p, w, None, trusted, HashMismatch) && !Because(p, w, None, trusted, UnknownKey);
      assert !Because(p, w, None, trusted, BadSignature);
    }
  }

  lemma NamesOfCheckpoint()
    ensures RequiredFields(CHECKPOINT) == CHECKPOINT_FIELDS && PreviousEventHash in CHECKPOINT_FIELDS
    ensures {HeadSha256, CheckpointCount, EventHash, KeyId, Signature} <= CHECKPOINT_FIELDS
  {
  }

  lemma WitnessIsOkEvent(p: Primitives, w: Event, trusted: Keyring, previous: Option<string>)
    requires IsCheckpoint(w)
    ensures PreviousEventHash in w && w[PreviousEventHash] == HashJson(previous) ==>
              (WitnessOk(p, w, trusted) <==> EventOk(p, w, previous, trusted))
  {
    hide UnsignedPayload, HostEqual;
    NamesOfCheckpoint();
  }

  // Everything else: an unreadable file, an empty one, one that is no JSON
  // object, and an object that is not taken have an issue of their own; only an
  // unhashable version makes the host raise.
  lemma OtherWitnesses(p: Primitives, file: WitnessFile, trusted: Keyring)
    ensures LoadWitness(p, file, trusted).None? <==> file.Stored? && !Hashable(Get(file.event, SchemaVersion))
    ensures var loaded := LoadWitness(p, file, trusted);
            loaded.Some? && loaded.value != (None, [Issue(0, WitnessUnreadable)])
            && loaded.value != (None, [Issue(0, WitnessInvalid)]) ==>
              file.Stored? && loaded == Some((Some(file.event), []))
    ensures LoadWitness(p, file, trusted) == Some((None, [Issue(0, WitnessUnreadable)])) <==> file.NoAccess?
  {
    hide WitnessOk;
  }

  lemma UnhashableWitnessCrashes(p: Primitives, trusted: Keyring, journal: File, file: WitnessFile)
    requires LoadWitness(p, file, trusted).None?
    ensures Verify(p, trusted, journal, Some(file)) == Crashed
  {
  }

  // A witness that is not taken makes the report invalid, by its own issue, and
  // changes nothing else of it.
  lemma RefusedWitnessOnlyAddsItsIssue(p: Primitives, trusted: Keyring, lines: seq<Line>, file: WitnessFile, code: Code)
    requires LoadWitness(p, file, trusted) == Some((None, [Issue(0, code)]))
    ensures var without := Verify(p, trusted, Readable(lines), None);
            Verify(p, trusted, Readable(lines), Some(file)) ==
              if without.Crashed? then Crashed
              else Finished(Report(false, without.report.verified, [Issue(0, code)] + without.report.issues), without.events)
  {
    hide ScanLines, CoverageIssues, LoadWitness;
    var s := ScanLines(p, trusted, None, lines);
    assert WitnessId(p, None) == None;
    var coverage := CoverageIssues(p, s.newest, None, s.found, s.total);
    if coverage.Some? {
      assert [Issue(0, code)] + s.issues + coverage.value == [Issue(0, code)] + ([] + s.issues + coverage.value);
    }
  }

  // Whoever made the witness file: if its signatures are those of the writers
  // of some journals, a witness that is taken records a checkpoint of one of
  // them. In particular a forged one is refused.
  lemma TakenWitnessIsOfWriters(p: Primitives, trusted: Keyring, honest: seq<seq<Event>>, w: Event)
    returns (k: nat, i: nat)
    requires IdealDigest(p) && OnlyWritersSigned(p, trusted, honest, [w])
    requires LoadWitness(p, Stored(w), trusted) == Some((Some(w), []))
    ensures k < |honest| && i < |honest[k]| && IsCheckpoint(honest[k][i])
    ensures UnsignedPayload(w) == UnsignedPayload(honest[k][i])
  {
    hide WitnessOk;
    assert w in [w];
    TakenIsSigned(p, w, trusted);
    assert SignedFor(p, honest, w);
    k, i :| 0 <= k < |honest| && 0 <= i < |honest[k]|
            && p.digest(UnsignedPayload(w)) == p.digest(UnsignedPayload(honest[k][i]));
    SamePayloadSameType(w, honest[k][i]);
  }

  lemma TakenIsSigned(p: Primitives, w: Event, trusted: Keyring)
    requires LoadWitness(p, Stored(w), trusted) == Some((Some(w), []))
    ensures IsCheckpoint(w) && Signed(p, trusted, w)
  {
    hide UnsignedPayload;
  }

  lemma SamePayloadSameType(a: Event, b: Event)
    requires UnsignedPayload(a) == UnsignedPayload(b)
    ensures IsCheckpoint(a) <==> IsCheckpoint(b)
  {
    assert Get(UnsignedPayload(a), EventType) == Get(a, EventType);
    assert Get(UnsignedPayload(b), EventType) == Get(b, EventType);
  }
}
