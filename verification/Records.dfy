// What the journal of every run says of each call, field by field: the decision
// event holds the call it was made for, the outcome event what its target did.
module Records {
  import opened Wrappers
  import opened Json
  import opened Evidence
  import opened Protocol
  import opened Safety
  import opened EndToEnd
  import opened Audit
  import opened AuditLaws
  import opened ReportLaws

  const COMMON: set<Field> :=
    {SchemaVersion, EventType, EventId, TimestampUtc, KeyId, PreviousEventHash, EventHash, Signature}

  // What every event says of the line it is.
  predicate RecordsLine(p: Primitives, event: Event, kind: string, id: string, time: string, key: Key,
                        previous: Option<string>) {
    && COMMON <= event.Keys
    && event[SchemaVersion] == JStr("1") && event[EventType] == JStr(kind)
    && event[EventId] == JStr(id) && event[TimestampUtc] == JStr(time)
    && event[KeyId] == JStr(p.keyId(key))
    && event[PreviousEventHash] == (if previous.Some? then JStr(previous.value) else JNull)
    && event[EventHash] == JStr(p.digest(UnsignedPayload(event)))
    && event[Signature] == JStr(p.sign(key, p.digest(UnsignedPayload(event))))
  }

  predicate RecordsContract(event: Event, contract: Contract) {
    && Get(event, ActionId) == JStr(contract.actionId) && Get(event, ActionName) == JStr(contract.actionName)
    && Get(event, ContractHash) == JStr(contract.contractHash)
  }

  // The fields of a decision event, no more and no less.
  function DecisionKeys(call: Call): set<Field> {
    COMMON + {ActionId, ActionName, ContractHash, Decision, Risk, ApprovalMode, RedactedInputSummary, ParameterRetention,
              InputHash}
    + (if call.metadata.Some? then {Other("metadata")} else {})
  }

  // A decision event holds the call and the decision.
  predicate RecordsDecision(event: Event, call: Call, allowed: bool) {
    && RecordsContract(event, call.contract)
    && Get(event, Decision) == JStr(if allowed then "allowed" else "denied")
    && Get(event, Risk) == JStr(call.contract.risk) && Get(event, ApprovalMode) == JStr(call.contract.approvalMode)
    && Get(event, RedactedInputSummary) == JStr(call.summary) && Get(event, ParameterRetention) == call.retention
    && Get(event, InputHash) == JStr(call.inputHash)
    && (call.metadata.Some? ==> Get(event, Other("metadata")) == call.metadata.value)
  }

  function OutcomeKeys(effect: Effect): set<Field> {
    COMMON + {ActionId, ActionName, ContractHash, Status, DecisionEventId, Other("observed_result_type")}
    + match effect
      case Returned(_, outputHash) => if outputHash.Some? then {Other("redacted_output_hash")} else {}
      case Threw(_, _) => {Other("exception_type"), Other("sanitized_error_summary")}
  }

  // An outcome event names its decision and holds what the target did.
  predicate RecordsOutcome(event: Event, call: Call, decisionId: string, effect: Effect) {
    && RecordsContract(event, call.contract)
    && Get(event, DecisionEventId) == JStr(decisionId)
    && (if effect.Returned? then RecordsReturn(event, effect) else RecordsException(event, effect))
  }

  predicate RecordsReturn(event: Event, effect: Effect)
    requires effect.Returned?
  {
    && Get(event, Status) == JStr("succeeded") && Get(event, Other("observed_result_type")) == JStr(effect.resultType)
    && (effect.outputHash.Some? ==> Get(event, Other("redacted_output_hash")) == JStr(effect.outputHash.value))
  }

  predicate RecordsException(event: Event, effect: Effect)
    requires effect.Threw?
  {
    && Get(event, Status) == JStr("failed") && Get(event, Other("observed_result_type")) == JNull
    && Get(event, Other("exception_type")) == JStr(effect.exceptionType)
    && Get(event, Other("sanitized_error_summary")) == JStr(effect.summary)
  }

  predicate RecordsCheckpoint(event: Event, count: nat, previous: Option<string>) {
    && Get(event, CheckpointCount) == JNum(count)
    && Get(event, HeadSha256) == (if previous.Some? then JStr(previous.value) else JNull)
  }

  // ----- one rendered event -----

  lemma LineIsRecorded(p: Primitives, e: Entry)
    ensures RecordsLine(p, Render(p, e),
                        if e.body.DecisionBody? then "decision" else if e.body.OutcomeBody? then "outcome" else "checkpoint",
                        e.id, e.time, e.key, e.previous)
  {
    hide BodyFields, UnsignedPayload;
    PayloadFieldsOf(p, e);
    FinalizeKeepsPayload(p, PayloadOf(p, e), e.key);
  }

  // The fields of the body, the common ones and the seal, and no others.
  lemma KeysOfRendered(p: Primitives, e: Entry)
    ensures Render(p, e).Keys == BodyFields(e.body, e.previous).Keys + COMMON
    ensures SameOwnFields(Render(p, e), BodyFields(e.body, e.previous))
  {
    hide BodyFields;
    BodyFieldsOf(e.body, e.previous);
  }

  lemma DecisionIsRendered(p: Primitives, e: Entry)
    requires e.body.DecisionBody?
    ensures Render(p, e).Keys == DecisionKeys(e.body.call)
    ensures RecordsDecision(Render(p, e), e.body.call, e.body.allowed)
  {
    hide Render, BodyFields, Get, RecordsDecision, DecisionKeys;
    KeysOfRendered(p, e);
    DecisionBodyKeys(e.body.call, e.body.allowed, e.previous);
    DecisionBodyFields(e.body.call, e.body.allowed, e.previous);
    SameDecisionFields(Render(p, e), BodyFields(e.body, e.previous), e.body.call, e.body.allowed);
  }

  predicate IsCommon(f: Field) {
    || f.SchemaVersion? || f.EventType? || f.EventId? || f.TimestampUtc? || f.KeyId? || f.PreviousEventHash?
    || f.EventHash? || f.Signature?
  }

  ghost predicate SameOwnFields(a: Event, b: Event) {
    forall f :: !IsCommon(f) ==> Get(a, f) == Get(b, f)
  }

  lemma SameDecisionFields(a: Event, b: Event, call: Call, allowed: bool)
    requires SameOwnFields(a, b) && RecordsDecision(b, call, allowed)
    ensures RecordsDecision(a, call, allowed)
  {
    hide Get;
  }

  lemma SameOutcomeFields(a: Event, b: Event, call: Call, decisionId: string, effect: Effect)
    requires SameOwnFields(a, b) && RecordsOutcome(b, call, decisionId, effect)
    ensures RecordsOutcome(a, call, decisionId, effect)
  {
    hide Get, RecordsContract, RecordsReturn, RecordsException;
    SameContractFields(a, b, call.contract);
    if effect.Returned? {
      SameReturnFields(a, b, effect);
    } else {
      SameExceptionFields(a, b, effect);
    }
  }

  lemma SameContractFields(a: Event, b: Event, contract: Contract)
    requires SameOwnFields(a, b) && RecordsContract(b, contract)
    ensures RecordsContract(a, contract)
  {
    hide Get;
  }

  lemma SameReturnFields(a: Event, b: Event, effect: Effect)
    requires SameOwnFields(a, b) && effect.Returned? && RecordsReturn(b, effect)
    ensures RecordsReturn(a, effect)
  {
    hide Get;
  }

  lemma SameExceptionFields(a: Event, b: Event, effect: Effect)
    requires SameOwnFields(a, b) && effect.Threw? && RecordsException(b, effect)
    ensures RecordsException(a, effect)
  {
    hide Get;
  }

  lemma DecisionBodyKeys(call: Call, allowed: bool, previous: Option<string>)
    ensures BodyFields(DecisionBody(call, allowed), previous).Keys + COMMON == DecisionKeys(call)
  {
  }

  lemma DecisionBodyFields(call: Call, allowed: bool, previous: Option<string>)
    ensures RecordsDecision(BodyFields(DecisionBody(call, allowed), previous), call, allowed)
  {
    hide DecisionFields, ContractFields;
    ContractFieldsOf(call.contract);
    OwnDecisionFields(call, allowed);
  }

  lemma ContractFieldsOf(contract: Contract)
    ensures ContractFields(contract).Keys == {ActionId, ActionName, ContractHash}
    ensures RecordsContract(ContractFields(contract), contract)
  {
  }

  lemma OwnDecisionFields(call: Call, allowed: bool)
    ensures var fields := DecisionFields(call, allowed);
            && fields.Keys !! {ActionId, ActionName, ContractHash}
            && {Decision, Risk, ApprovalMode, RedactedInputSummary, ParameterRetention, InputHash} <= fields.Keys
            && Get(fields, Decision) == JStr(if allowed then "allowed" else "denied")
            && Get(fields, Risk) == JStr(call.contract.risk) && Get(fields, ApprovalMode) == JStr(call.contract.approvalMode)
            && Get(fields, RedactedInputSummary) == JStr(call.summary) && Get(fields, ParameterRetention) == call.retention
            && Get(fields, InputHash) == JStr(call.inputHash)
            && (call.metadata.Some? ==>
                  Other("metadata") in fields && Get(fields, Other("metadata")) == call.metadata.value)
  {
  }

  lemma OutcomeIsRendered(p: Primitives, e: Entry)
    requires e.body.OutcomeBody?
    ensures Render(p, e).Keys == OutcomeKeys(e.body.effect)
    ensures RecordsOutcome(Render(p, e), e.body.call, e.body.decisionId, e.body.effect)
  {
    hide Render, BodyFields, Get, RecordsOutcome, OutcomeKeys;
    KeysOfRendered(p, e);
    OutcomeBodyKeys(e.body.call, e.body.decisionId, e.body.effect, e.previous);
    OutcomeBodyFields(e.body.call, e.body.decisionId, e.body.effect, e.previous);
    SameOutcomeFields(Render(p, e), BodyFields(e.body, e.previous), e.body.call, e.body.decisionId, e.body.effect);
  }

  lemma OutcomeBodyKeys(call: Call, decisionId: string, effect: Effect, previous: Option<string>)
    ensures BodyFields(OutcomeBody(call, decisionId, effect), previous).Keys + COMMON == OutcomeKeys(effect)
  {
  }

  lemma OutcomeBodyFields(call: Call, decisionId: string, effect: Effect, previous: Option<string>)
    ensures RecordsOutcome(BodyFields(OutcomeBody(call, decisionId, effect), previous), call, decisionId, effect)
  {
    hide OutcomeFields, ContractFields;
    ContractFieldsOf(call.contract);
    OwnOutcomeFields(decisionId, effect);
  }

  lemma OwnOutcomeFields(decisionId: string, effect: Effect)
    ensures var fields := OutcomeFields(decisionId, effect);
            && fields.Keys !! {ActionId, ActionName, ContractHash}
            && {Status, DecisionEventId, Other("observed_result_type")} <= fields.Keys
            && Get(fields, DecisionEventId) == JStr(decisionId)
            && (effect.Returned? ==>
                  RecordsReturn(fields, effect) && (effect.outputHash.Some? ==> Other("redacted_output_hash") in fields))
            && (effect.Threw? ==>
                  RecordsException(fields, effect)
                  && {Other("exception_type"), Other("sanitized_error_summary")} <= fields.Keys)
  {
  }

  lemma CheckpointIsRendered(p: Primitives, e: Entry)
    requires e.body.CheckpointBody?
    ensures Render(p, e).Keys == COMMON + {CheckpointCount, HeadSha256}
    ensures RecordsCheckpoint(Render(p, e), e.body.count, e.previous)
  {
    hide Render;
    KeysOfRendered(p, e);
  }

  // ----- over every run -----

  // The decision event of a call holds the call, whoever wrote what else.
  predicate DecisionRecorded(p: Primitives, s: State, w: nat)
    requires w < |s.workers|
  {
    var worker := s.workers[w];
    worker.decisionAt.Some? ==>
      var d := worker.decisionAt.value;
      && worker.task.Guarded? && d < |s.journal| && s.journal[d].author == w && s.journal[d].body.DecisionBody?
      && var event := Events(p, s.journal)[d];
         && event.Keys == DecisionKeys(worker.task.call)
         && RecordsDecision(event, worker.task.call, s.journal[d].body.allowed)
         && RecordsLine(p, event, "decision", s.journal[d].id, s.journal[d].time, s.journal[d].key, s.journal[d].previous)
  }

  // The outcome event of a call names its decision and holds what its target did.
  predicate OutcomeRecorded(p: Primitives, s: State, w: nat)
    requires w < |s.workers|
  {
    var worker := s.workers[w];
    worker.outcomeAt.Some? ==>
      var o := worker.outcomeAt.value;
      && worker.task.Guarded? && o < |s.journal| && s.journal[o].author == w && worker.effect.Some?
      && worker.decisionAt.Some? && worker.decisionAt.value < |s.journal|
      && var event := Events(p, s.journal)[o];
         && event.Keys == OutcomeKeys(worker.effect.value)
         && RecordsOutcome(event, worker.task.call, s.journal[worker.decisionAt.value].id, worker.effect.value)
         && RecordsLine(p, event, "outcome", s.journal[o].id, s.journal[o].time, s.journal[o].key, s.journal[o].previous)
  }

  lemma CallsAreRecorded(p: Primitives, actions: seq<Action>, w: nat)
    requires w < |Run(p, actions).workers|
    ensures DecisionRecorded(p, Run(p, actions), w) && OutcomeRecorded(p, Run(p, actions), w)
  {
    hide Run, Inv, DecisionRecorded, OutcomeRecorded;
    ReachableIsSafe(p, actions);
    CallIsRecorded(p, Run(p, actions), w);
  }

  lemma CallIsRecorded(p: Primitives, s: State, w: nat)
    requires Inv(p, s) && w < |s.workers|
    ensures DecisionRecorded(p, s, w) && OutcomeRecorded(p, s, w)
  {
    hide Inv, LinksOk, Render, RecordsDecision, RecordsOutcome, RecordsLine, DecisionKeys, OutcomeKeys;
    WorkerLinks(p, s, w);
    if s.workers[w].decisionAt.Some? {
      DecisionIsRendered(p, s.journal[s.workers[w].decisionAt.value]);
      LineIsRecorded(p, s.journal[s.workers[w].decisionAt.value]);
    }
    if s.workers[w].outcomeAt.Some? {
      OutcomeIsRendered(p, s.journal[s.workers[w].outcomeAt.value]);
      LineIsRecorded(p, s.journal[s.workers[w].outcomeAt.value]);
    }
  }

  // The outcome of a worker is the only one that refers to its decision.
  lemma OwnOutcomeIsOnly(p: Primitives, s: State, w: nat, o: nat)
    requires FaithfulText(p) && Inv(p, s) && w < |s.workers| && s.workers[w].decisionAt.Some?
    requires s.workers[w].decisionAt.value < |s.journal|
    ensures var id := s.journal[s.workers[w].decisionAt.value].id;
            RefersTo(p, Events(p, s.journal), o, id) <==> s.workers[w].outcomeAt == Some(o)
  {
    hide Inv, Render, LinksOk, Id, Ref, IsOutcome, IsDecision;
    WorkerLinks(p, s, w);
    var d := s.workers[w].decisionAt.value;
    if o < |s.journal| {
      RenderedKind(p, s.journal[o]);
      if s.journal[o].body.OutcomeBody? {
        RenderedOutcome(p, s.journal[o]);
        OutcomeAuthor(p, s, o);
        var v := s.journal[o].author;
        if s.journal[o].body.decisionId == s.journal[d].id {
          SameIdSameEntry(p, s, d, s.workers[v].decisionAt.value);
        }
      }
    }
  }

  lemma OnlyOutcomeOfWorker(p: Primitives, s: State, w: nat)
    requires FaithfulText(p) && Inv(p, s) && w < |s.workers| && s.workers[w].decisionAt.Some?
    requires s.workers[w].decisionAt.value < |s.journal|
    ensures var id := s.journal[s.workers[w].decisionAt.value].id;
            forall o: nat :: OnlyOutcome(p, Events(p, s.journal), id, o) <==> s.workers[w].outcomeAt == Some(o)
  {
    hide Inv, Render, Ref, IsOutcome;
    var events, id := Events(p, s.journal), s.journal[s.workers[w].decisionAt.value].id;
    forall o: nat
      ensures RefersTo(p, events, o, id) <==> s.workers[w].outcomeAt == Some(o)
    {
      OwnOutcomeIsOnly(p, s, w, o);
    }
    hide OnlyOutcome, RefersTo;
    forall o: nat
      ensures OnlyOutcome(p, events, id, o) <==> s.workers[w].outcomeAt == Some(o)
    {
      OnlyIsOne(p, events, id, o);
    }
  }

  lemma OnlyIsOne(p: Primitives, events: seq<Event>, id: string, o: nat)
    ensures OnlyOutcome(p, events, id, o) <==>
            RefersTo(p, events, o, id) && forall k: nat :: RefersTo(p, events, k, id) ==> k == o
  {
    hide Ref, IsOutcome;
    if RefersTo(p, events, o, id) && forall k: nat :: RefersTo(p, events, k, id) ==> k == o {
      forall k | 0 <= k < |events| && IsOutcome(events[k]) && Ref(p, events[k]) == id
        ensures k == o
      {
        assert RefersTo(p, events, k, id);
      }
    }
  }

  // What the audit says of the call of worker w: everything its contract and its
  // decision entry hold, and the id and time of its outcome entry exactly when
  // there is one. StatusTellsWhatHappened says the status.
  ghost predicate Audited(s: State, w: nat, invocation: Invocation)
    requires w < |s.workers|
  {
    var worker := s.workers[w];
    && worker.task.Guarded? && worker.decisionAt.Some? && worker.decisionAt.value < |s.journal|
    && (worker.outcomeAt.Some? ==> worker.outcomeAt.value < |s.journal|)
    && var call, d := worker.task.call, s.journal[worker.decisionAt.value];
       var contract := call.contract;
       d.body.DecisionBody?
       && invocation == Invocation(
            contract.actionName, contract.actionId, contract.contractHash, call.inputHash, contract.risk,
            contract.approvalMode, d.id, if d.body.allowed then "allowed" else "denied", d.time,
            if worker.outcomeAt.Some? then Some(s.journal[worker.outcomeAt.value].id) else None,
            if worker.outcomeAt.Some? then Some(s.journal[worker.outcomeAt.value].time) else None,
            invocation.status)
  }

  // Over every run: each recorded call has exactly one entry in the audit, and
  // that says what its worker did.
  lemma CallIsAudited(p: Primitives, actions: seq<Action>, w: nat) returns (i: nat)
    requires FaithfulText(p) && w < |Run(p, actions).workers| && Run(p, actions).workers[w].decisionAt.Some?
    ensures var s := Run(p, actions);
            var invocations := AuditOf(p, Events(p, s.journal)).invocations;
            && i < |invocations| && Audited(s, w, invocations[i])
            && forall j :: 0 <= j < |invocations| && Audited(s, w, invocations[j]) ==> j == i
  {
    hide Run, Inv, AuditOf, Audited;
    ReachableIsSafe(p, actions);
    i := CallInAudit(p, Run(p, actions), w);
  }

  lemma CallInAudit(p: Primitives, s: State, w: nat) returns (i: nat)
    requires FaithfulText(p) && Inv(p, s) && w < |s.workers| && s.workers[w].decisionAt.Some?
    ensures var invocations := AuditOf(p, Events(p, s.journal)).invocations;
            && i < |invocations| && Audited(s, w, invocations[i])
            && forall j :: 0 <= j < |invocations| && Audited(s, w, invocations[j]) ==> j == i
  {
    hide Inv, AuditOf, Tells, Render, FirstDecision, RecordsDecision, RecordsLine, DecisionKeys;
    var events := Events(p, s.journal);
    CallIsRecorded(p, s, w);
    var d := s.workers[w].decisionAt.value;
    DecisionIsFirst(p, s, d);
    i := EveryDecisionIsTold(p, events, s.journal[d].id, d);
    TellsOfWorker(p, s, w, AuditOf(p, events).invocations[i]);
  }

  lemma DecisionIsFirst(p: Primitives, s: State, d: nat)
    requires FaithfulText(p) && Inv(p, s) && d < |s.journal| && s.journal[d].body.DecisionBody?
    ensures FirstDecision(p, Events(p, s.journal), s.journal[d].id, d)
  {
    hide Inv, Render, Id, IsDecision;
    RenderedKind(p, s.journal[d]);
    forall k | 0 <= k < d
      ensures Id(p, Events(p, s.journal)[k]) != s.journal[d].id
    {
      RenderedKind(p, s.journal[k]);
      if s.journal[k].id == s.journal[d].id {
        SameIdSameEntry(p, s, k, d);
      }
    }
  }

  lemma TellsOfWorker(p: Primitives, s: State, w: nat, invocation: Invocation)
    requires FaithfulText(p) && Inv(p, s) && w < |s.workers| && s.workers[w].decisionAt.Some?
    requires s.workers[w].decisionAt.value < |s.journal|
    requires invocation.decisionEventId == s.journal[s.workers[w].decisionAt.value].id
    requires Tells(p, Events(p, s.journal), s.workers[w].decisionAt.value, invocation)
    ensures Audited(s, w, invocation)
  {
    hide Inv, Render, FirstDecision, DecisionKeys, OutcomeKeys, HasStatus, OnlyOutcome, RecordsOutcome, NamesOutcome;
    CallIsRecorded(p, s, w);
    OutcomeOfWorkerIsNamed(p, s, w, invocation);
  }

  lemma OutcomeOfWorkerIsNamed(p: Primitives, s: State, w: nat, invocation: Invocation)
    requires FaithfulText(p) && Inv(p, s) && w < |s.workers| && s.workers[w].decisionAt.Some?
    requires s.workers[w].decisionAt.value < |s.journal|
    requires invocation.decisionEventId == s.journal[s.workers[w].decisionAt.value].id
    requires NamesOutcome(p, Events(p, s.journal), invocation)
    ensures var o := s.workers[w].outcomeAt;
            if o.Some? then
              o.value < |s.journal| && invocation.outcomeEventId == Some(s.journal[o.value].id)
              && invocation.outcomeTimestamp == Some(s.journal[o.value].time)
            else invocation.outcomeEventId.None? && invocation.outcomeTimestamp.None?
  {
    hide Inv, Render, OnlyOutcome;
    OnlyOutcomeOfWorker(p, s, w);
    if s.workers[w].outcomeAt.Some? {
      TimeIsRecorded(p, s, w);
    }
  }

  lemma TimeIsRecorded(p: Primitives, s: State, w: nat)
    requires Inv(p, s) && w < |s.workers| && s.workers[w].outcomeAt.Some?
    ensures s.workers[w].outcomeAt.value < |s.journal|
    ensures var o := s.workers[w].outcomeAt.value;
            Get(Events(p, s.journal)[o], EventId) == JStr(s.journal[o].id)
            && Get(Events(p, s.journal)[o], TimestampUtc) == JStr(s.journal[o].time)
  {
    hide Inv, Render;
    CallIsRecorded(p, s, w);
  }
}
