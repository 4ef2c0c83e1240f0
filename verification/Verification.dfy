// The offline verifier: one pass over the lines of a journal, then the
// checkpoint coverage step.
module Verification {
  import opened Wrappers
  import opened Json
  import opened Evidence

  datatype Code =
    | Unreadable | MalformedJson | MalformedEvent
    | UnknownSchema | UnknownEventType | MissingFields
    | CheckpointHeadMismatch | CheckpointBadCount
    | ChainBreak | HashMismatch | UnknownKey | BadSignature
    | WitnessUnreadable | WitnessInvalid
    | CheckpointNotFound | CheckpointTruncation

  // Line numbers start at 1; 0 marks an issue about the whole file.
  datatype Issue = Issue(line: nat, code: Code)

  // What a journal line, stripped of white space, parses to.
  datatype Line = Blank | NotJson | NotObject | Object(event: Event)

  datatype File = Unopenable | Readable(lines: seq<Line>)

  datatype WitnessFile = NoAccess | EmptyFile | Garbage | NonObject | Stored(event: Event)

  datatype Report = Report(valid: bool, verified: nat, issues: seq<Issue>)

  // An uncaught host exception is an outcome of its own.
  datatype Outcome = Crashed | Finished(report: Report, events: seq<Event>)

  type Keyring = map<string, Key>

  // The keyring built from a list of public keys; a later key wins its key id.
  function ToKeyring(p: Primitives, keys: seq<Key>): Keyring {
    if |keys| == 0 then map[]
    else
      var n := |keys| - 1;
      ToKeyring(p, keys[..n])[p.keyId(keys[n]) := keys[n]]
  }

  // Whatever the ids: the keyring finds under each id the last key that has it.
  lemma {:induction false} KeyringTakesLast(p: Primitives, keys: seq<Key>, id: string)
    ensures id in ToKeyring(p, keys) <==> exists i :: 0 <= i < |keys| && p.keyId(keys[i]) == id
    ensures forall i :: 0 <= i < |keys| && p.keyId(keys[i]) == id
                        && (forall j :: i < j < |keys| ==> p.keyId(keys[j]) != id) ==>
              ToKeyring(p, keys)[id] == keys[i]
  {
    if |keys| > 0 {
      var n := |keys| - 1;
      KeyringTakesLast(p, keys[..n], id);
      assert forall i :: 0 <= i < n ==> keys[..n][i] == keys[i];
    }
  }

  // With distinct key ids the keyring holds exactly the listed keys.
  lemma {:induction false} KeyringHoldsKeys(p: Primitives, keys: seq<Key>)
    requires DistinctKeyIds(p)
    ensures forall key :: key in keys <==> p.keyId(key) in ToKeyring(p, keys) && ToKeyring(p, keys)[p.keyId(key)] == key
    ensures forall key :: key in keys <==> key in ToKeyring(p, keys).Values
  {
    if |keys| > 0 {
      var n := |keys| - 1;
      var before := ToKeyring(p, keys[..n]);
      KeyringHoldsKeys(p, keys[..n]);
      var ring := ToKeyring(p, keys);
      forall key
        ensures key in keys <==> p.keyId(key) in ring && ring[p.keyId(key)] == key
        ensures key in keys <==> key in ring.Values
      {
        assert key in keys <==> key in keys[..n] || key == keys[n];
        if key in ring.Values {
          var id :| id in ring && ring[id] == key;
          assert id != p.keyId(keys[n]) ==> key in before.Values;
        }
      }
    }
  }

  const SHARED_FIELDS: set<Field> :=
    {SchemaVersion, EventType, EventId, ActionId, ActionName, ContractHash, TimestampUtc, KeyId, EventHash, Signature}
  const DECISION_FIELDS: set<Field> := {Decision, Risk, ApprovalMode, RedactedInputSummary, InputHash}
  const OUTCOME_FIELDS: set<Field> := {Status, DecisionEventId}
  const CHECKPOINT_FIELDS: set<Field> :=
    {SchemaVersion, EventType, EventId, TimestampUtc, KeyId, PreviousEventHash, EventHash, Signature,
     CheckpointCount, HeadSha256}

  function RequiredFields(eventType: Json): set<Field> {
    {PreviousEventHash} +
    if eventType == CHECKPOINT then CHECKPOINT_FIELDS
    else SHARED_FIELDS + if eventType == DECISION then DECISION_FIELDS else OUTCOME_FIELDS
  }

  predicate KnownType(eventType: Json) {
    eventType == DECISION || eventType == OUTCOME || eventType == CHECKPOINT
  }

  // The set lookups of schema_version and event_type raise on a list or an object.
  predicate Crashes(e: Event) {
    || !Hashable(Get(e, SchemaVersion))
    || (Get(e, SchemaVersion) == SCHEMA_ONE && !Hashable(Get(e, EventType)))
  }

  // isinstance(value, int) holds of booleans as well.
  function AsInt(j: Json): Option<int> {
    match j
    case JNum(n) => Some(n)
    case JBool(b) => Some(if b then 1 else 0)
    case _ => None
  }

  predicate GoodCount(j: Json) {
    AsInt(j).Some? && AsInt(j).value >= 0
  }

  predicate SignedBy(p: Primitives, key: Key, digest: string, signature: Json) {
    signature.JStr? && p.verifies(key, digest, signature.s)
  }

  function When(condition: bool, line: nat, code: Code): (issues: seq<Issue>)
    ensures issues == [] <==> !condition
  {
    if condition then [Issue(line, code)] else []
  }

  function HeadIssues(e: Event, line: nat): seq<Issue> {
    When(!HostEqual(Get(e, HeadSha256), Get(e, PreviousEventHash)), line, CheckpointHeadMismatch)
    + When(!GoodCount(Get(e, CheckpointCount)), line, CheckpointBadCount)
  }

  function SignerIssues(p: Primitives, e: Event, line: nat, trusted: Keyring): seq<Issue> {
    var keyId := Get(e, KeyId);
    if !keyId.JStr? || keyId.s !in trusted then [Issue(line, UnknownKey)]
    else
      When(!SignedBy(p, trusted[keyId.s], p.digest(UnsignedPayload(e)), Get(e, Signature)), line, BadSignature)
  }

  // The issues of one event, in the order they are found.
  function EventIssues(p: Primitives, e: Event, line: nat, expected: Option<string>, trusted: Keyring): seq<Issue>
  {
    if Get(e, SchemaVersion) != SCHEMA_ONE then [Issue(line, UnknownSchema)]
    else if !KnownType(Get(e, EventType)) then [Issue(line, UnknownEventType)]
    else if !(RequiredFields(e[EventType]) <= e.Keys) then [Issue(line, MissingFields)]
    else
      (if e[EventType] == CHECKPOINT then HeadIssues(e, line) else [])
      + When(e[PreviousEventHash] != HashJson(expected), line, ChainBreak)
      + When(e[EventHash] != JStr(p.digest(UnsignedPayload(e))), line, HashMismatch)
      + SignerIssues(p, e, line, trusted)
  }

  method VerifyEvent(p: Primitives, e: Event, line: nat, expected: Option<string>, trusted: Keyring)
    returns (issues: Option<seq<Issue>>)
    ensures issues == if Crashes(e) then None else Some(EventIssues(p, e, line, expected, trusted))
  {
    if !Hashable(Get(e, SchemaVersion)) {
      return None;
    }
    if Get(e, SchemaVersion) != SCHEMA_ONE {
      return Some([Issue(line, UnknownSchema)]);
    }
    if !Hashable(Get(e, EventType)) {
      return None;
    }
    var eventType := Get(e, EventType);
    if !KnownType(eventType) {
      return Some([Issue(line, UnknownEventType)]);
    }
    if !(RequiredFields(eventType) <= e.Keys) {
      return Some([Issue(line, MissingFields)]);
    }
    var found: seq<Issue> := [];
    if eventType == CHECKPOINT {
      if !HostEqual(e[HeadSha256], e[PreviousEventHash]) {
        found := found + [Issue(line, CheckpointHeadMismatch)];
      }
      if !GoodCount(e[CheckpointCount]) {
        found := found + [Issue(line, CheckpointBadCount)];
      }
    }
    ghost var head := if eventType == CHECKPOINT then HeadIssues(e, line) else [];
    assert found == head;
    if e[PreviousEventHash] != HashJson(expected) {
      found := found + [Issue(line, ChainBreak)];
    }
    ghost var link := head + When(e[PreviousEventHash] != HashJson(expected), line, ChainBreak);
    assert found == link;
    var digest := p.digest(UnsignedPayload(e));
    if e[EventHash] != JStr(digest) {
      found := found + [Issue(line, HashMismatch)];
    }
    ghost var hashed := link + When(e[EventHash] != JStr(digest), line, HashMismatch);
    assert found == hashed;
    if !e[KeyId].JStr? || e[KeyId].s !in trusted {
      found := found + [Issue(line, UnknownKey)];
    } else if !SignedBy(p, trusted[e[KeyId].s], digest, e[Signature]) {
      found := found + [Issue(line, BadSignature)];
    }
    assert found == hashed + SignerIssues(p, e, line, trusted);
    return Some(found);
  }

  // What an event must satisfy to raise no issue, as the format document puts it.
  predicate EventOk(p: Primitives, e: Event, expected: Option<string>, trusted: Keyring) {
    && SchemaVersion in e && e[SchemaVersion] == SCHEMA_ONE
    && EventType in e && KnownType(e[EventType])
    && RequiredFields(e[EventType]) <= e.Keys
    && (e[EventType] == CHECKPOINT ==>
          HostEqual(e[HeadSha256], e[PreviousEventHash]) && GoodCount(e[CheckpointCount]))
    && e[PreviousEventHash] == HashJson(expected)
    && e[EventHash] == JStr(p.digest(UnsignedPayload(e)))
    && e[KeyId].JStr? && e[KeyId].s in trusted
    && SignedBy(p, trusted[e[KeyId].s], p.digest(UnsignedPayload(e)), e[Signature])
  }

  lemma CleanEventIsOk(p: Primitives, e: Event, line: nat, expected: Option<string>, trusted: Keyring)
    ensures !Crashes(e) && EventIssues(p, e, line, expected, trusted) == [] <==> EventOk(p, e, expected, trusted)
  {
    if Get(e, SchemaVersion) == SCHEMA_ONE && KnownType(Get(e, EventType)) {
      assert SchemaVersion in e && EventType in e;
    }
  }

  // ----- the pass over the lines -----

  datatype Status = Running | Stopped | Raised

  datatype Scan = Scan(
    status: Status,
    previous: Option<string>,
    issues: seq<Issue>,
    verified: nat,
    total: nat,
    newest: Option<Event>,
    found: bool,
    events: seq<Event>)

  const START: Scan := Scan(Running, None, [], 0, 0, None, false, [])

  function ScanEvent(p: Primitives, trusted: Keyring, witnessId: Option<string>, s: Scan, e: Event, number: nat): Scan
  {
    if Crashes(e) then s.(status := Raised)
    else
      var issues := EventIssues(p, e, number, s.previous, trusted);
      s.(previous := StoredHash(e),
         issues := s.issues + issues,
         verified := if issues == [] then s.verified + 1 else s.verified,
         total := s.total + 1,
         newest := if Get(e, EventType) == CHECKPOINT then Some(e) else s.newest,
         found := s.found || (witnessId.Some? && Get(e, EventId) == JStr(witnessId.value)),
         events := s.events + [e])
  }

  function ScanLine(p: Primitives, trusted: Keyring, witnessId: Option<string>, s: Scan, line: Line, number: nat): Scan
  {
    if s.status != Running then s
    else match line
      case Blank => s
      case NotJson => s.(status := Stopped, issues := s.issues + [Issue(number, MalformedJson)])
      case NotObject => s.(status := Stopped, issues := s.issues + [Issue(number, MalformedEvent)])
      case Object(e) => ScanEvent(p, trusted, witnessId, s, e, number)
  }

  // The state of the pass after all the given lines.
  function ScanLines(p: Primitives, trusted: Keyring, witnessId: Option<string>, lines: seq<Line>): Scan
  {
    if |lines| == 0 then START
    else
      var n := |lines| - 1;
      ScanLine(p, trusted, witnessId, ScanLines(p, trusted, witnessId, lines[..n]), lines[n], n + 1)
  }

  // ----- the checkpoint witness -----

  predicate WitnessOk(p: Primitives, w: Event, trusted: Keyring) {
    && Get(w, SchemaVersion) == SCHEMA_ONE
    && Get(w, EventType) == CHECKPOINT
    && CHECKPOINT_FIELDS <= w.Keys
    && HostEqual(w[HeadSha256], w[PreviousEventHash])
    && GoodCount(w[CheckpointCount])
    && w[EventHash] == JStr(p.digest(UnsignedPayload(w)))
    && w[KeyId].JStr? && w[KeyId].s in trusted
    && SignedBy(p, trusted[w[KeyId].s], p.digest(UnsignedPayload(w)), w[Signature])
  }

  // None when the lookup of an unhashable schema_version raises.
  function LoadWitness(p: Primitives, file: WitnessFile, trusted: Keyring): Option<(Option<Event>, seq<Issue>)> {
    match file
    case NoAccess => Some((None, [Issue(0, WitnessUnreadable)]))
    case Stored(w) =>
      if !Hashable(Get(w, SchemaVersion)) then None
      else if WitnessOk(p, w, trusted) then Some((Some(w), []))
      else Some((None, [Issue(0, WitnessInvalid)]))
    case _ => Some((None, [Issue(0, WitnessInvalid)]))
  }

  // ----- coverage -----

  function TruncationIssues(total: nat, count: int): seq<Issue> {
    When(total < count, 0, CheckpointTruncation)
  }

  // int() of a checkpoint count; None when it raises.
  function CountOf(p: Primitives, j: Json): Option<int> {
    if AsInt(j).Some? then AsInt(j)
    else if j.JStr? || j.JFloat? then p.intOf(j) else None
  }

  // Whether max() prefers a witness count to the count of the newest
  // checkpoint; None when the two cannot be compared.
  function Overtakes(p: Primitives, count: int, newest: Json): Option<bool> {
    if AsInt(newest).Some? then Some(count > AsInt(newest).value)
    else if newest.JFloat? then Some(p.above(count, newest)) else None
  }

  // None when a count is no number for the host.
  function CoverageIssues(p: Primitives, newest: Option<Event>, wit: Option<Event>, found: bool, total: nat): Option<seq<Issue>>
    requires wit.Some? ==> AsInt(Get(wit.value, CheckpointCount)).Some?
  {
    var missing :=
      if wit.Some? && !found then
        [Issue(0, CheckpointNotFound)] + TruncationIssues(total, AsInt(Get(wit.value, CheckpointCount)).value)
      else [];
    var effective := EffectiveCount(p, newest, if found then wit else None);
    if newest.None? && !(wit.Some? && found) then Some(missing)
    else if effective.None? then None
    else Some(missing + TruncationIssues(total, effective.value))
  }

  // The largest count among the newest checkpoint and a witness that was met.
  function EffectiveCount(p: Primitives, newest: Option<Event>, met: Option<Event>): Option<int>
    requires met.Some? ==> AsInt(Get(met.value, CheckpointCount)).Some?
  {
    if newest.None? then if met.Some? then AsInt(Get(met.value, CheckpointCount)) else None
    else
      var count := Get(newest.value, CheckpointCount);
      if met.None? then CountOf(p, count)
      else
        var committed := AsInt(Get(met.value, CheckpointCount));
        match Overtakes(p, committed.value, count)
        case None => None
        case Some(overtakes) => if overtakes then committed else CountOf(p, count)
  }

  // The coverage step; None when the host raises.
  method CheckpointCoverage(p: Primitives, newest: Option<Event>, wit: Option<Event>, found: bool, total: nat)
    returns (issues: Option<seq<Issue>>)
    requires wit.Some? ==> AsInt(Get(wit.value, CheckpointCount)).Some?
    ensures issues == CoverageIssues(p, newest, wit, found, total)
  {
    var all: seq<Issue> := [];
    var candidates: seq<Event> := [];
    if newest.Some? {
      candidates := candidates + [newest.value];
    }
    if wit.Some? && found {
      candidates := candidates + [wit.value];
    } else if wit.Some? {
      all := [Issue(0, CheckpointNotFound)] + TruncationIssues(total, AsInt(Get(wit.value, CheckpointCount)).value);
    }
    if candidates == [] {
      return Some(all);
    }
    var effective := candidates[0];
    if |candidates| == 2 {
      var overtakes := Overtakes(p, AsInt(Get(candidates[1], CheckpointCount)).value, Get(candidates[0], CheckpointCount));
      if overtakes.None? {
        return None;
      }
      if overtakes.value {
        effective := candidates[1];
      }
    }
    var count := CountOf(p, Get(effective, CheckpointCount));
    if count.None? {
      return None;
    }
    return Some(all + TruncationIssues(total, count.value));
  }

  // ----- the whole verifier -----

  function WitnessId(p: Primitives, wit: Option<Event>): Option<string> {
    if wit.Some? then Some(p.text(Get(wit.value, EventId))) else None
  }

  function Conclude(p: Primitives, trusted: Keyring, lines: seq<Line>, wit: Option<Event>,
                    witnessIssues: seq<Issue>): Outcome
    requires wit.Some? ==> AsInt(Get(wit.value, CheckpointCount)).Some?
  {
    var s := ScanLines(p, trusted, WitnessId(p, wit), lines);
    if s.status == Raised then Crashed
    else match CoverageIssues(p, s.newest, wit, s.found, s.total)
      case None => Crashed
      case Some(coverage) =>
        var issues := witnessIssues + s.issues + coverage;
        Finished(Report(issues == [], s.verified, issues), s.events)
  }

  function Verify(p: Primitives, trusted: Keyring, file: File, witnessFile: Option<WitnessFile>): Outcome {
    var loaded := if witnessFile.Some? then LoadWitness(p, witnessFile.value, trusted) else Some((None, []));
    if loaded.None? then Crashed
    else match file
      case Unopenable => Finished(Report(false, 0, [Issue(0, Unreadable)]), [])
      case Readable(lines) => Conclude(p, trusted, lines, loaded.value.0, loaded.value.1)
  }

  method ReadAndVerify(p: Primitives, trusted: Keyring, file: File, witnessFile: Option<WitnessFile>)
    returns (outcome: Outcome)
    ensures outcome == Verify(p, trusted, file, witnessFile)
  {
    var issues: seq<Issue> := [];
    var wit: Option<Event> := None;
    if witnessFile.Some? {
      var loaded := LoadWitness(p, witnessFile.value, trusted);
      if loaded.None? {
        return Crashed;
      }
      wit, issues := loaded.value.0, loaded.value.1;
    }
    if file.Unopenable? {
      return Finished(Report(false, 0, [Issue(0, Unreadable)]), []);
    }
    var s := FollowChain(p, trusted, WitnessId(p, wit), file.lines);
    if s.status == Raised {
      return Crashed;
    }
    issues := issues + s.issues;
    var coverage := CheckpointCoverage(p, s.newest, wit, s.found, s.total);
    if coverage.None? {
      return Crashed;
    }
    issues := issues + coverage.value;
    return Finished(Report(issues == [], s.verified, issues), s.events);
  }

  // The loop over the lines of the open file.
  method FollowChain(p: Primitives, trusted: Keyring, witnessId: Option<string>, lines: seq<Line>) returns (s: Scan)
    ensures s == ScanLines(p, trusted, witnessId, lines)
  {
    s := START;
    for i := 0 to |lines|
      invariant s == ScanLines(p, trusted, witnessId, lines[..i]) && s.status == Running
    {
      assert lines[..i + 1][..i] == lines[..i];
      StoppedStays(p, trusted, witnessId, lines, i + 1);
      match lines[i]
      case Blank =>
      case NotJson => return s.(status := Stopped, issues := s.issues + [Issue(i + 1, MalformedJson)]);
      case NotObject => return s.(status := Stopped, issues := s.issues + [Issue(i + 1, MalformedEvent)]);
      case Object(e) =>
        s := FollowEvent(p, trusted, witnessId, s, e, i + 1);
        if s.status == Raised {
          return;
        }
    }
    assert lines[..|lines|] == lines;
  }

  // The loop body for a line that parses to an object.
  method FollowEvent(p: Primitives, trusted: Keyring, witnessId: Option<string>, s: Scan, e: Event, number: nat)
    returns (next: Scan)
    requires s.status == Running
    ensures next == ScanEvent(p, trusted, witnessId, s, e, number)
  {
    var issues := VerifyEvent(p, e, number, s.previous, trusted);
    if issues.None? {
      return s.(status := Raised);
    }
    var verified, newest, found := s.verified, s.newest, s.found;
    if issues.value == [] {
      verified := verified + 1;
    }
    if Get(e, EventType) == CHECKPOINT {
      newest := Some(e);
    }
    if witnessId.Some? && Get(e, EventId) == JStr(witnessId.value) {
      found := true;
    }
    next := Scan(Running, StoredHash(e), s.issues + issues.value, verified, s.total + 1, newest, found,
                 s.events + [e]);
  }

  // Once the pass has stopped, later lines change nothing.
  lemma {:induction false} StoppedStays(p: Primitives, trusted: Keyring, witnessId: Option<string>, lines: seq<Line>,
                                        i: nat)
    requires i <= |lines|
    ensures ScanLines(p, trusted, witnessId, lines[..i]).status != Running ==>
              ScanLines(p, trusted, witnessId, lines) == ScanLines(p, trusted, witnessId, lines[..i])
  {
    if i == |lines| {
      assert lines[..i] == lines;
    } else {
      var n := |lines| - 1;
      assert lines[..n][..i] == lines[..i];
      StoppedStays(p, trusted, witnessId, lines[..n], i);
    }
  }
}
