// From host values to what is recorded: the guard turns the arguments of a call
// into the call it records, and what its target did into the outcome it records.
module Preparation {
  import opened Wrappers
  import opened Json
  import JsonText
  import JsonTextLaws
  import opened Evidence
  import opened Protocol
  import C = Canonical
  import Summary
  import Privacy
  import CanonicalLaws
  import PrivacyLaws
  import NodeLaws
  import opened Scrub

  // The digest of a canonical value, whatever order its objects are in.
  type Hash = Json -> string

  // The call records the arguments: their digest, summary and retention list.
  ghost predicate DescribesCall(policy: C.Policy, heap: C.Heap, args: C.Value, hash: Hash, call: Call) {
    PrivacyLaws.RecordInput(policy, heap, args, hash) == PrivacyLaws.Input(call.inputHash, call.summary, call.retention)
  }

  // The retention list has one record for each argument, in the order of the
  // names: redacted is what the marker stands for, unsupported a placeholder, and
  // everything else is retained.
  lemma RetentionExactly(fields: seq<(string, Json)>)
    ensures var table, retention := JsonText.FromPairs(fields), Privacy.RetentionOf(fields);
            && retention.JArr? && |retention.items| == |table|
            && forall i :: 0 <= i < |table| ==>
                 retention.items[i] == JObj([
                   ("name", JStr(table[i].0)),
                   ("state", JStr(if table[i].1 == JStr("<REDACTED>") then "redacted"
                                  else if table[i].1.JStr? && "<unsupported:" <= table[i].1.s then "unsupported"
                                  else "retained"))])
  {
    hide JsonText.FromPairs;
  }

  // What is recorded of arguments is made of what evidence may show of them.
  lemma RecordIsOfShown(policy: C.Policy, heap: C.Heap, args: C.Value, hash: Hash, j: Json)
    requires NodeLaws.Shows(policy, heap, args, j)
    ensures var input := PrivacyLaws.RecordInput(policy, heap, args, hash);
            && (input.Input? <==> C.Canonicalize(policy, heap, args).Done?)
            && (input.Input? ==>
                  && input.hash == hash(JsonText.Norm(j)) && input.summary == Summary.BoundedSummary(j)
                  && input.retention == if j.JObj? then Privacy.RetentionOf(j.fields) else JArr([]))
  {
    hide C.Canonicalize, NodeLaws.Shows, Privacy.RetentionOf, Summary.BoundedSummary, JsonText.Norm;
    if C.Canonicalize(policy, heap, args).Done? {
      NodeLaws.WalkShowsObjects(policy, heap, args, j);
    }
  }

  ghost predicate NoCollisions(hash: Hash) {
    forall a, b :: hash(a) == hash(b) ==> a == b
  }

  // The input hash commits to the arguments: with a hash that has no collisions
  // two records have the same one exactly if the same was to be shown of both,
  // up to the order of keys.
  lemma InputHashCommits(policy: C.Policy, h1: C.Heap, h2: C.Heap, v1: C.Value, v2: C.Value, hash: Hash, j1: Json, j2: Json)
    requires NoCollisions(hash) && NodeLaws.Shows(policy, h1, v1, j1) && NodeLaws.Shows(policy, h2, v2, j2)
    requires C.Canonicalize(policy, h1, v1).Done? && C.Canonicalize(policy, h2, v2).Done?
    ensures var r1, r2 := PrivacyLaws.RecordInput(policy, h1, v1, hash), PrivacyLaws.RecordInput(policy, h2, v2, hash);
            r1.Input? && r2.Input? && (r1.hash == r2.hash <==> JsonText.Norm(j1) == JsonText.Norm(j2))
  {
    hide C.Canonicalize, NodeLaws.Shows, PrivacyLaws.RecordInput, JsonText.Norm;
    RecordIsOfShown(policy, h1, v1, hash, j1);
    RecordIsOfShown(policy, h2, v2, hash, j2);
  }

  lemma RetentionIsProper(fields: seq<(string, Json)>)
    ensures Proper(Privacy.RetentionOf(fields))
  {
    hide Privacy.Record, JsonText.FromPairs;
    var records := Privacy.Records(JsonText.FromPairs(fields));
    forall i | 0 <= i < |records|
      ensures Proper(records[i])
    {
      RecordIsProper(JsonText.FromPairs(fields)[i]);
    }
  }

  lemma RecordIsProper(field: (string, Json))
    ensures Proper(Privacy.Record(field))
  {
    assert JsonText.Less("name", "state") by {
      assert "name"[0] < "state"[0];
    }
  }

  // One traversal of the arguments, and what is made of its result.
  method DescribeCall(policy: C.Policy, heap: C.Heap, args: C.Value, hash: Hash, contract: Contract,
                      observer: Option<nat>, metadata: Option<Value>)
    returns (r: Result<Call, C.Error>, remembered: seq<string>)
    ensures r.Err? <==> PrivacyLaws.RecordInput(policy, heap, args, hash).Refused?
    ensures r.Ok? ==>
              && DescribesCall(policy, heap, args, hash, r.value)
              && r.value.contract == contract && r.value.observer == observer && r.value.metadata == metadata
              && remembered == C.Canonicalize(policy, heap, args).collected
              && exists fields :: r.value.retention == Privacy.RetentionOf(fields)
  {
    hide C.Walk, Summary.BoundedSummary, Privacy.RetentionOf;
    var collector := new C.Collector();
    var walked := collector.WalkInto(policy, heap, args, 0, {});
    if walked.Err? {
      return Err(walked.error), [];
    }
    var j := walked.value;
    remembered := collector.values;
    var summary := Summary.Summarize(j);
    var fields := if j.JObj? then j.fields else [];
    var retention := Privacy.RecordRetention(fields);
    RetentionIsProper(fields);
    EmptyRetention();
    r := Ok(Call(contract, observer, summary, retention, hash(JsonText.Norm(j)), metadata));
  }

  lemma EmptyRetention()
    ensures Privacy.RetentionOf([]) == JArr([])
  {
  }

  // A retention list holds no floats.
  lemma RetentionIsLegible(h: JsonText.Numbers, call: Call)
    requires exists fields :: call.retention == Privacy.RetentionOf(fields)
    ensures JsonTextLaws.FloatsReadBack(h, call.retention)
  {
    hide JsonText.FromPairs, Privacy.Record;
    var fields :| call.retention == Privacy.RetentionOf(fields);
    var records := Privacy.Records(JsonText.FromPairs(fields));
    forall i | 0 <= i < |records|
      ensures JsonTextLaws.FloatsReadBack(h, records[i])
    {
      RecordIsLegible(h, JsonText.FromPairs(fields)[i]);
    }
  }

  lemma RecordIsLegible(h: JsonText.Numbers, field: (string, Json))
    ensures JsonTextLaws.FloatsReadBack(h, Privacy.Record(field))
  {
  }

  // ----- what the target did -----

  datatype HostOutcome =
    | HostReturned(typeName: string, value: C.Value)
    | HostThrew(typeName: string, text: string)
    | HostInterrupted

  // A returned value is hashed in its canonical form, unless it is one of the
  // strings redacted from the arguments or has no canonical form.
  function OutputHash(policy: C.Policy, heap: C.Heap, value: C.Value, remembered: seq<string>, hash: Hash): Option<string> {
    if value.VStr? && value.s in remembered then None
    else
      match C.Canonicalize(policy, heap, value)
      case Fail(_) => None
      case Done(j, _) => Some(hash(JsonText.Norm(j)))
  }

  const MAX_ERROR_CHARS: nat := 300

  // The outcome records what the target did; an error text is scrubbed of
  // everything that was redacted from the arguments.
  ghost predicate DescribesOutcome(policy: C.Policy, heap: C.Heap, remembered: seq<string>, hash: Hash,
                                   outcome: HostOutcome, effect: Option<Effect>) {
    match outcome
    case HostReturned(typeName, value) =>
      effect == Some(Returned(typeName, OutputHash(policy, heap, value, remembered, hash)))
    case HostThrew(typeName, text) =>
      effect.Some? && effect.value.Threw? && effect.value.exceptionType == typeName
      && exists order :: LongestFirst(order, (set v | v in remembered))
                         && effect.value.summary == ScrubText(text, order, MAX_ERROR_CHARS)
    case HostInterrupted => effect.None?
  }

  method DescribeOutcome(policy: C.Policy, heap: C.Heap, remembered: seq<string>, hash: Hash, outcome: HostOutcome)
    returns (effect: Option<Effect>)
    ensures DescribesOutcome(policy, heap, remembered, hash, outcome, effect)
  {
    hide C.Walk;
    match outcome
    case HostReturned(typeName, value) =>
      var outputHash: Option<string> := None;
      if !(value.VStr? && value.s in remembered) {
        var collector := new C.Collector();
        var walked := collector.WalkInto(policy, heap, value, 0, {});
        if walked.Ok? {
          outputHash := Some(hash(JsonText.Norm(walked.value)));
        }
      }
      effect := Some(Returned(typeName, outputHash));
    case HostThrew(typeName, text) =>
      var summary, order := Scrubbed(text, (set v | v in remembered), MAX_ERROR_CHARS);
      effect := Some(Threw(typeName, summary));
    case HostInterrupted =>
      effect := None;
  }

  // ----- what a result discloses -----

  // A result is hashed exactly if it is no secret of the call and has a
  // canonical form, and then what may be shown of it is.
  lemma OutputHashExactly(policy: C.Policy, heap: C.Heap, value: C.Value, remembered: seq<string>, hash: Hash, j: Json)
    ensures OutputHash(policy, heap, value, remembered, hash).Some? <==>
            C.Canonicalize(policy, heap, value).Done? && !(value.VStr? && value.s in remembered)
    ensures OutputHash(policy, heap, value, remembered, hash).Some? && NodeLaws.Shows(policy, heap, value, j) ==>
              OutputHash(policy, heap, value, remembered, hash) == Some(hash(JsonText.Norm(j)))
  {
    hide C.Canonicalize, NodeLaws.Shows, JsonText.Norm;
    if C.Canonicalize(policy, heap, value).Done? && NodeLaws.Shows(policy, heap, value, j) {
      NodeLaws.WalkShowsObjects(policy, heap, value, j);
    }
  }

  // A result that is a secret of the call is never hashed; of any other, two
  // that differ only under sensitive names have the same hash.
  lemma OutputHashDisclosesNothing(policy: C.Policy, f: map<nat, nat>, h1: C.Heap, h2: C.Heap, v1: C.Value, v2: C.Value,
                                   remembered: seq<string>, hash: Hash)
    ensures v1.VStr? && v1.s in remembered ==> OutputHash(policy, h1, v1, remembered, hash).None?
    ensures CanonicalLaws.LowEqual(policy, f, h1, h2) && CanonicalLaws.SameValue(f, v1, v2) ==>
              OutputHash(policy, h1, v1, remembered, hash) == OutputHash(policy, h2, v2, remembered, hash)
  {
    hide C.Canonicalize, CanonicalLaws.LowEqual;
    if CanonicalLaws.LowEqual(policy, f, h1, h2) && CanonicalLaws.SameValue(f, v1, v2) {
      CanonicalLaws.RedactionNoninterference(policy, f, h1, h2, v1, v2);
    }
  }
}
