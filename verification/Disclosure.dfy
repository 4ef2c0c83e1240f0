// What every journal the protocol can produce discloses of the host values that
// went into it, and what its privacy inspection says of that.
module Disclosure {
  import opened Wrappers
  import opened Json
  import opened JsonText
  import opened Evidence
  import opened Summary
  import opened Privacy
  import opened PrivacyLaws
  import opened Protocol
  import opened EndToEnd
  import C = Canonical
  import Scrub
  import Secrets
  import opened Records
  import opened Preparation

  // The call records the summary and the retention list of these arguments.
  ghost predicate HonestCall(h: Numbers, isIdentifier: string -> bool, call: Call, fields: seq<(string, Json)>) {
    && call.summary == BoundedSummary(JObj(fields))
    && call.retention == RetentionOf(fields)
    && GuardArguments(h, isIdentifier, fields)
  }

  lemma DecisionIsRecordedBy(p: Primitives, e: Entry, h: Numbers, isIdentifier: string -> bool,
                             fields: seq<(string, Json)>)
    requires e.body.DecisionBody? && HonestCall(h, isIdentifier, e.body.call, fields)
    ensures RecordedBy(Render(p, e), fields) && Telling(h, isIdentifier, Render(p, e), fields)
  {
    hide Render, BoundedSummary, Summarizable, GuardArguments;
    RenderedFields(p, e);
    SummaryAndRetention(e.body, e.previous);
    RenderedBodyField(p, e, RedactedInputSummary);
    RenderedBodyField(p, e, ParameterRetention);
  }

  lemma SummaryAndRetention(body: Body, previous: Option<string>)
    requires body.DecisionBody?
    ensures var fields := BodyFields(body, previous);
            && {RedactedInputSummary, ParameterRetention} <= fields.Keys
            && fields[RedactedInputSummary] == JStr(body.call.summary)
            && fields[ParameterRetention] == body.call.retention
  {
  }

  // Every run's journal can be inspected, and it is safe for upload exactly
  // when no argument of any recorded call is readable. args holds, at the
  // position of each decision, the canonical arguments of its call.
  lemma SafeExactlyWhenRedacted(p: Primitives, actions: seq<Protocol.Action>, h: Numbers, isIdentifier: string -> bool,
                                args: seq<seq<(string, Json)>>)
    requires IdentifierLike(isIdentifier) && |args| == |Run(p, actions).journal|
    requires var journal := Run(p, actions).journal;
             forall i :: 0 <= i < |journal| && journal[i].body.DecisionBody? ==>
                           HonestCall(h, isIdentifier, journal[i].body.call, args[i])
    ensures var journal := Run(p, actions).journal;
            var r := InspectOf(h, isIdentifier, Events(p, journal));
            && r.Inspection?
            && (SafeForUpload(r.actions) <==>
                  forall i :: 0 <= i < |journal| && journal[i].body.DecisionBody? ==> AllRedacted(FromPairs(args[i])))
  {
    hide Run, Render, HonestCall, RecordedBy, Telling, GuardArguments, AllRedacted, FromPairs, InspectOf, IdentifierLike;
    var journal := Run(p, actions).journal;
    var events := Events(p, journal);
    forall i | 0 <= i < |events|
      ensures Get(events[i], EventType) == DECISION <==> journal[i].body.DecisionBody?
      ensures journal[i].body.DecisionBody? ==>
                RecordedBy(events[i], args[i]) && GuardArguments(h, isIdentifier, args[i])
                && Telling(h, isIdentifier, events[i], args[i])
    {
      KindOfEvent(p, journal[i]);
      if journal[i].body.DecisionBody? {
        DecisionIsRecordedBy(p, journal[i], h, isIdentifier, args[i]);
        HonestArguments(h, isIdentifier, journal[i].body.call, args[i]);
      }
    }
    SafeMeansRedacted(h, isIdentifier, events, args);
  }

  lemma HonestArguments(h: Numbers, isIdentifier: string -> bool, call: Call, fields: seq<(string, Json)>)
    requires HonestCall(h, isIdentifier, call, fields)
    ensures GuardArguments(h, isIdentifier, fields)
  {
  }

  lemma KindOfEvent(p: Primitives, e: Entry)
    ensures Get(Render(p, e), EventType) == DECISION <==> e.body.DecisionBody?
  {
    hide Render, OwnFields;
    RenderedFields(p, e);
  }

  // ----- from host values to the journal of a run -----

  // Over every run: the decision event of a call that describes these arguments
  // holds their digest, summary and retention list.
  lemma ArgumentsAreRecorded(p: Primitives, actions: seq<Protocol.Action>, w: nat, policy: C.Policy, heap: C.Heap,
                             args: C.Value, hash: Hash)
    requires w < |Run(p, actions).workers| && Run(p, actions).workers[w].decisionAt.Some?
    requires var task := Run(p, actions).workers[w].task; task.Guarded? ==> DescribesCall(policy, heap, args, hash, task.call)
    ensures var s := Run(p, actions);
            var d := s.workers[w].decisionAt.value;
            && d < |s.journal|
            && var event, input := Events(p, s.journal)[d], RecordInput(policy, heap, args, hash);
               && input.Input? && Get(event, InputHash) == JStr(input.hash)
               && Get(event, RedactedInputSummary) == JStr(input.summary)
               && Get(event, ParameterRetention) == input.retention
  {
    hide Run, Render, RecordInput, DecisionKeys, RecordsLine;
    CallsAreRecorded(p, actions, w);
  }

  // Over every run: a string that is directly the value of a sensitive name in
  // the arguments, and safe to scrub, occurs in no recorded error summary of the
  // call, whatever text its target raised.
  lemma NoSecretInErrorSummary(p: Primitives, actions: seq<Protocol.Action>, w: nat, policy: C.Policy, heap: C.Heap,
                               args: C.Value, hash: Hash, did: HostOutcome, path: seq<nat>, i: nat, secret: string)
    requires w < |Run(p, actions).workers| && Run(p, actions).workers[w].outcomeAt.Some? && did.HostThrew?
    requires C.Canonicalize(policy, heap, args).Done? && Secrets.SecretAt(policy, heap, args, path, i, secret)
    requires DescribesOutcome(policy, heap, C.Canonicalize(policy, heap, args).collected, hash, did,
                              Run(p, actions).workers[w].effect)
    requires Scrub.SafeAt(secret, MAX_ERROR_CHARS)
    ensures var s := Run(p, actions);
            var o := s.workers[w].outcomeAt.value;
            && o < |s.journal|
            && var summary := Get(Events(p, s.journal)[o], Other("sanitized_error_summary"));
               summary.JStr? && !Scrub.Occurs(secret, summary.s)
  {
    hide Run, Render, OutcomeKeys, RecordsLine, C.Canonicalize, Secrets.SecretAt, Scrub.SafeAt, Scrub.Occurs;
    CallsAreRecorded(p, actions, w);
    var remembered := C.Canonicalize(policy, heap, args).collected;
    var effect := Run(p, actions).workers[w].effect.value;
    var order :| Scrub.LongestFirst(order, (set v | v in remembered))
                 && effect.summary == Scrub.ScrubText(did.text, order, MAX_ERROR_CHARS);
    Secrets.RedactedSecretsReachNoErrorText(policy, heap, args, path, i, secret, did.text, order, MAX_ERROR_CHARS);
  }
}
