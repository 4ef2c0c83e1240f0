// The event format: fields, unsigned payloads, digests and signatures.
module Evidence {
  import opened Wrappers
  import opened Json
  import opened JsonText
  import opened JsonTextLaws

  // Every field name the library reads or writes; Other covers the rest.
  datatype Field =
    | SchemaVersion | EventType | EventId | ActionId | ActionName | ContractHash
    | TimestampUtc | KeyId | PreviousEventHash | EventHash | Signature
    | Decision | Risk | ApprovalMode | RedactedInputSummary | InputHash
    | Status | DecisionEventId
    | CheckpointCount | HeadSha256
    | ParameterRetention
    | Other(name: string)

  function FieldName(f: Field): string {
    match f
    case SchemaVersion => "schema_version"
    case EventType => "event_type"
    case EventId => "event_id"
    case ActionId => "action_id"
    case ActionName => "action_name"
    case ContractHash => "contract_hash"
    case TimestampUtc => "timestamp_utc"
    case KeyId => "key_id"
    case PreviousEventHash => "previous_event_hash"
    case EventHash => "event_hash"
    case Signature => "signature"
    case Decision => "decision"
    case Risk => "risk"
    case ApprovalMode => "approval_mode"
    case RedactedInputSummary => "redacted_input_summary"
    case InputHash => "input_hash"
    case Status => "status"
    case DecisionEventId => "decision_event_id"
    case CheckpointCount => "checkpoint_count"
    case HeadSha256 => "head_sha256"
    case ParameterRetention => "parameter_retention"
    case Other(name) => name
  }

  // The named fields; every other name is an Other.
  const KNOWN_FIELDS: seq<Field> := [
    SchemaVersion, EventType, EventId, ActionId, ActionName, ContractHash, TimestampUtc, KeyId,
    PreviousEventHash, EventHash, Signature, Decision, Risk, ApprovalMode, RedactedInputSummary, InputHash,
    Status, DecisionEventId, CheckpointCount, HeadSha256, ParameterRetention]

  predicate IsKnownName(name: string) {
    exists i :: 0 <= i < |KNOWN_FIELDS| && FieldName(KNOWN_FIELDS[i]) == name
  }

  // JSON values as one value is written in one way: objects in key order, and
  // floats by a number text with a fraction or an exponent, so finite.
  predicate Proper(j: Json) {
    Ordered(j) && FloatsReadBack(Numbers(text => text), j)
  }

  type Value = j: Json | Proper(j) witness JNull

  predicate ProperEntry(f: Field, j: Json) {
    Proper(j) && (f.Other? ==> !IsKnownName(f.name))
  }

  ghost predicate ProperEvent(e: map<Field, Json>) {
    forall f {:trigger ProperEntry(f, e[f])} :: f in e ==> ProperEntry(f, e[f])
  }

  // A dictionary with string keys: two events are the same dictionary exactly
  // when they are equal.
  type Event = e: map<Field, Json> | ProperEvent(e) witness map[]

  datatype Key = Key(n: nat)

  // The foreign calls. digest is the hexadecimal SHA-256 of the canonical
  // JSON of a payload, keyId the name derived from a public key, verifies
  // the Ed25519 check, text the host's str() of a JSON value, intOf its int()
  // of a string or a float, above its comparison of an integer with a float.
  datatype Primitives = Primitives(
    digest: Event -> string,
    keyId: Key -> string,
    sign: (Key, string) -> string,
    verifies: (Key, string, string) -> bool,
    text: Json -> string,
    intOf: Json -> Option<int>,
    above: (int, Json) -> bool)

  // Assumption: the digest is injective on payloads.
  ghost predicate IdealDigest(p: Primitives) {
    forall a, b :: p.digest(a) == p.digest(b) ==> a == b
  }

  // Assumption: different keys have different key ids.
  ghost predicate DistinctKeyIds(p: Primitives) {
    forall a, b :: p.keyId(a) == p.keyId(b) ==> a == b
  }

  // Assumption: a signature made by a key verifies under that key.
  ghost predicate SoundSigning(p: Primitives) {
    forall k, d :: p.verifies(k, d, p.sign(k, d))
  }

  // str() of a string is that string.
  ghost predicate FaithfulText(p: Primitives) {
    forall s :: p.text(JStr(s)) == s
  }

  const SCHEMA_ONE: Json := JStr("1")
  const DECISION: Json := JStr("decision")
  const OUTCOME: Json := JStr("outcome")
  const CHECKPOINT: Json := JStr("checkpoint")
  const ALLOWED: Json := JStr("allowed")
  const DENIED: Json := JStr("denied")
  const SUCCEEDED: Json := JStr("succeeded")
  const FAILED: Json := JStr("failed")

  // The names that events of the guard hold beside the named fields.
  const METADATA: string := "metadata"
  const RESULT_TYPE: string := "observed_result_type"
  const OUTPUT_HASH: string := "redacted_output_hash"
  const EXCEPTION_TYPE: string := "exception_type"
  const ERROR_SUMMARY: string := "sanitized_error_summary"

  lemma Differ(a: string, b: string, i: nat)
    requires |a| != |b| || (i < |a| && a[i] != b[i])
    ensures a != b
  {
  }

  lemma ExtraNames()
    ensures !IsKnownName(METADATA) && !IsKnownName(RESULT_TYPE) && !IsKnownName(OUTPUT_HASH)
    ensures !IsKnownName(EXCEPTION_TYPE) && !IsKnownName(ERROR_SUMMARY)
  {
    forall i | 0 <= i < |KNOWN_FIELDS|
      ensures FieldName(KNOWN_FIELDS[i]) !in {METADATA, RESULT_TYPE, OUTPUT_HASH, EXCEPTION_TYPE, ERROR_SUMMARY}
    {
      var name := FieldName(KNOWN_FIELDS[i]);
      Differ(name, METADATA, 0);
      Differ(name, RESULT_TYPE, 0);
      Differ(name, OUTPUT_HASH, 2);
      Differ(name, EXCEPTION_TYPE, 1);
      Differ(name, ERROR_SUMMARY, 1);
    }
  }

  // dict.get: a missing field reads as null.
  function Get(e: Event, f: Field): Json {
    if f in e then e[f] else JNull
  }

  function HashJson(h: Option<string>): Json {
    match h
    case None => JNull
    case Some(s) => JStr(s)
  }

  function UnsignedPayload(e: Event): Event {
    e - {EventHash, Signature}
  }

  function FinalizeEvent(p: Primitives, payload: Event, key: Key): Event {
    var d := p.digest(payload);
    payload[EventHash := JStr(d)][Signature := JStr(p.sign(key, d))]
  }

  // Finalizing only attaches the two fields that the verifier strips again.
  lemma FinalizeKeepsPayload(p: Primitives, payload: Event, key: Key)
    requires EventHash !in payload && Signature !in payload
    ensures UnsignedPayload(FinalizeEvent(p, payload, key)) == payload
  {
    var e := FinalizeEvent(p, payload, key);
    assert UnsignedPayload(e).Keys == payload.Keys;
  }

  // The chain value the verifier follows: the stored hash when it is a string.
  function StoredHash(e: Event): Option<string> {
    if EventHash in e && e[EventHash].JStr? then Some(e[EventHash].s) else None
  }

  // The hash the event at position i must link to.
  function PreviousOf(events: seq<Event>, i: nat): Option<string>
    requires i <= |events|
  {
    if i == 0 then None else StoredHash(events[i - 1])
  }
}
