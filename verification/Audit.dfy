// The operational audit: what happened to each invocation of a verified journal.
module Audit {
  import opened Wrappers
  import opened Json
  import opened Evidence
  import opened Verification

  datatype AuditCode =
    | DuplicateEventId | OrphanOutcome | DuplicateOutcome | OutcomeBeforeDecision
    | OutcomeForDeniedDecision | OutcomeIdentityMismatch | InvalidOutcomeStatus | InvalidDecision

  datatype AuditIssue = AuditIssue(code: AuditCode, eventId: string)

  datatype InvocationStatus = Denied | Succeeded | Failed | NeedsReconciliation

  datatype Invocation = Invocation(
    actionName: string, actionId: string, contractHash: string, inputHash: string,
    risk: string, approvalMode: string,
    decisionEventId: string, decision: string, decisionTimestamp: string,
    outcomeEventId: Option<string>, outcomeTimestamp: Option<string>,
    status: InvocationStatus)

  datatype AuditReport = AuditReport(invocations: seq<Invocation>, issues: seq<AuditIssue>) {
    predicate StructurallyValid() {
      issues == []
    }

    predicate NeedsReconciling() {
      exists i :: 0 <= i < |invocations| && invocations[i].status in {Failed, NeedsReconciliation}
    }
  }

  datatype AuditError = NotVerified

  predicate IsDecision(e: Event) {
    Get(e, EventType) == DECISION
  }

  predicate IsOutcome(e: Event) {
    Get(e, EventType) == OUTCOME
  }

  function Id(p: Primitives, e: Event): string {
    p.text(Get(e, EventId))
  }

  // The decision an outcome refers to.
  function Ref(p: Primitives, e: Event): string {
    p.text(Get(e, DecisionEventId))
  }

  const IDENTITY_FIELDS: seq<Field> := [ActionId, ActionName, ContractHash]

  // ----- the tables the first loop fills -----

  function DuplicateIssues(p: Primitives, events: seq<Event>): seq<AuditIssue> {
    if |events| == 0 then []
    else
      var n := |events| - 1;
      var id := Id(p, events[n]);
      DuplicateIssues(p, events[..n])
      + if Seen(p, events[..n], id) then [AuditIssue(DuplicateEventId, id)] else []
  }

  predicate Seen(p: Primitives, events: seq<Event>, id: string) {
    exists j :: 0 <= j < |events| && Id(p, events[j]) == id
  }

  // The first decision with the given id.
  function DecisionOf(p: Primitives, events: seq<Event>, id: string): (d: Option<nat>)
    ensures d.Some? ==> d.value < |events|
  {
    if |events| == 0 then None
    else
      var n := |events| - 1;
      var before := DecisionOf(p, events[..n], id);
      if before.Some? then before
      else if IsDecision(events[n]) && Id(p, events[n]) == id then Some(n)
      else None
  }

  // The distinct decision ids, in order of first appearance.
  function DecisionOrder(p: Primitives, events: seq<Event>): seq<string> {
    if |events| == 0 then []
    else
      var n := |events| - 1;
      var before := DecisionOrder(p, events[..n]);
      if IsDecision(events[n]) && Id(p, events[n]) !in before then before + [Id(p, events[n])] else before
  }

  predicate Positions(events: seq<Event>, linked: seq<nat>) {
    forall i :: 0 <= i < |linked| ==> linked[i] < |events|
  }

  // The positions of the outcomes that refer to the given id, ascending.
  function OutcomesOf(p: Primitives, events: seq<Event>, id: string): (linked: seq<nat>)
    ensures Positions(events, linked)
  {
    if |events| == 0 then []
    else
      var n := |events| - 1;
      var before := OutcomesOf(p, events[..n], id);
      if IsOutcome(events[n]) && Ref(p, events[n]) == id then before + [n] else before
  }

  // The distinct ids outcomes refer to, in order of first appearance.
  function RefOrder(p: Primitives, events: seq<Event>): seq<string> {
    if |events| == 0 then []
    else
      var n := |events| - 1;
      var before := RefOrder(p, events[..n]);
      if IsOutcome(events[n]) && Ref(p, events[n]) !in before then before + [Ref(p, events[n])] else before
  }

  // ----- the issues of the second loop -----

  function Flag(condition: bool, code: AuditCode, id: string): (issues: seq<AuditIssue>)
    ensures issues == [] <==> !condition
  {
    if condition then [AuditIssue(code, id)] else []
  }

  predicate SameField(a: Event, b: Event, f: Field) {
    HostEqual(Get(a, f), Get(b, f))
  }

  predicate KnownStatus(e: Event) {
    Get(e, Status) == SUCCEEDED || Get(e, Status) == FAILED
  }

  function OutcomeIssues(p: Primitives, events: seq<Event>, d: nat, o: nat): seq<AuditIssue>
    requires d < |events| && o < |events|
  {
    var decision, outcome := events[d], events[o];
    var id := Id(p, outcome);
    Flag(o <= d, OutcomeBeforeDecision, id)
    + Flag(Get(decision, Decision) != ALLOWED, OutcomeForDeniedDecision, id)
    + Flag(!SameField(outcome, decision, ActionId), OutcomeIdentityMismatch, id)
    + Flag(!SameField(outcome, decision, ActionName), OutcomeIdentityMismatch, id)
    + Flag(!SameField(outcome, decision, ContractHash), OutcomeIdentityMismatch, id)
    + Flag(!KnownStatus(outcome), InvalidOutcomeStatus, id)
  }

  function AttachedIssues(p: Primitives, events: seq<Event>, d: nat, linked: seq<nat>): seq<AuditIssue>
    requires d < |events| && Positions(events, linked)
  {
    if |linked| == 0 then []
    else
      var n := |linked| - 1;
      AttachedIssues(p, events, d, linked[..n]) + OutcomeIssues(p, events, d, linked[n])
  }

  function OrphanIssues(p: Primitives, events: seq<Event>, linked: seq<nat>): seq<AuditIssue>
    requires Positions(events, linked)
  {
    seq(|linked|, i requires 0 <= i < |linked| =>
      AuditIssue(OrphanOutcome, Id(p, events[linked[i]])))
  }

  function RefIssues(p: Primitives, events: seq<Event>, id: string): seq<AuditIssue> {
    var linked := OutcomesOf(p, events, id);
    match DecisionOf(p, events, id)
    case None => OrphanIssues(p, events, linked)
    case Some(d) => Flag(|linked| > 1, DuplicateOutcome, id) + AttachedIssues(p, events, d, linked)
  }

  function AllRefIssues(p: Primitives, events: seq<Event>, ids: seq<string>): seq<AuditIssue> {
    if |ids| == 0 then []
    else AllRefIssues(p, events, ids[..|ids| - 1]) + RefIssues(p, events, ids[|ids| - 1])
  }

  // ----- the invocations of the third loop -----

  predicate KnownDecision(e: Event) {
    Get(e, Decision) == ALLOWED || Get(e, Decision) == DENIED
  }

  function StatusOf(decision: Event, linked: nat, outcome: Option<Event>): InvocationStatus {
    if Get(decision, Decision) == DENIED && linked == 0 then Denied
    else if Get(decision, Decision) == ALLOWED && outcome.Some? then
      if Get(outcome.value, Status) == SUCCEEDED then Succeeded
      else if Get(outcome.value, Status) == FAILED then Failed
      else NeedsReconciliation
    else NeedsReconciliation
  }

  function InvocationOf(p: Primitives, events: seq<Event>, id: string): Invocation
    requires DecisionOf(p, events, id).Some?
  {
    var decision := events[DecisionOf(p, events, id).value];
    var linked := OutcomesOf(p, events, id);
    var outcome := if |linked| == 1 then Some(events[linked[0]]) else None;
    Invocation(
      p.text(Get(decision, ActionName)), p.text(Get(decision, ActionId)), p.text(Get(decision, ContractHash)),
      p.text(Get(decision, InputHash)), p.text(Get(decision, Risk)), p.text(Get(decision, ApprovalMode)),
      id, p.text(Get(decision, Decision)), p.text(Get(decision, TimestampUtc)),
      if outcome.Some? then Some(Id(p, outcome.value)) else None,
      if outcome.Some? then Some(p.text(Get(outcome.value, TimestampUtc))) else None,
      StatusOf(decision, |linked|, outcome))
  }

  predicate Decided(p: Primitives, events: seq<Event>, ids: seq<string>) {
    forall i :: 0 <= i < |ids| ==> DecisionOf(p, events, ids[i]).Some?
  }

  lemma {:induction false} OrderIsDecided(p: Primitives, events: seq<Event>)
    ensures Decided(p, events, DecisionOrder(p, events))
  {
    if |events| > 0 {
      OrderIsDecided(p, events[..|events| - 1]);
    }
  }

  function DecisionIssues(p: Primitives, events: seq<Event>, ids: seq<string>): seq<AuditIssue>
    requires Decided(p, events, ids)
  {
    if |ids| == 0 then []
    else
      var n := |ids| - 1;
      DecisionIssues(p, events, ids[..n])
      + Flag(!KnownDecision(events[DecisionOf(p, events, ids[n]).value]), InvalidDecision, ids[n])
  }

  function Invocations(p: Primitives, events: seq<Event>, ids: seq<string>): (invocations: seq<Invocation>)
    requires Decided(p, events, ids)
    ensures |invocations| == |ids|
  {
    if |ids| == 0 then []
    else
      var n := |ids| - 1;
      Invocations(p, events, ids[..n]) + [InvocationOf(p, events, ids[n])]
  }

  lemma {:induction false} InvocationAt(p: Primitives, events: seq<Event>, ids: seq<string>, i: nat)
    requires i < |ids| && Decided(p, events, ids)
    ensures Invocations(p, events, ids)[i] == InvocationOf(p, events, ids[i])
  {
    if i < |ids| - 1 {
      InvocationAt(p, events, ids[..|ids| - 1], i);
    }
  }

  function AuditOf(p: Primitives, events: seq<Event>): AuditReport {
    var ids := DecisionOrder(p, events);
    OrderIsDecided(p, events);
    AuditReport(
      Invocations(p, events, ids),
      DuplicateIssues(p, events) + AllRefIssues(p, events, RefOrder(p, events)) + DecisionIssues(p, events, ids))
  }

  // ----- the loops -----

  datatype Tables = Tables(
    issues: seq<AuditIssue>,
    decisions: map<string, nat>, decisionOrder: seq<string>,
    outcomes: map<string, seq<nat>>, outcomeOrder: seq<string>)

  // The insertion-ordered dictionaries agree with the specification tables.
  ghost predicate TablesOf(p: Primitives, events: seq<Event>, t: Tables) {
    && t.issues == DuplicateIssues(p, events)
    && DecisionTable(p, events, t.decisions, t.decisionOrder)
    && OutcomeTable(p, events, t.outcomes, t.outcomeOrder)
  }

  ghost predicate DecisionTable(p: Primitives, events: seq<Event>, decisions: map<string, nat>, order: seq<string>) {
    && order == DecisionOrder(p, events)
    && (forall id :: id in decisions <==> id in order)
    && (forall id :: id in decisions ==> DecisionOf(p, events, id) == Some(decisions[id]))
  }

  ghost predicate OutcomeTable(p: Primitives, events: seq<Event>, outcomes: map<string, seq<nat>>, order: seq<string>) {
    && order == RefOrder(p, events)
    && (forall id :: id in outcomes <==> id in order)
    && (forall id :: id in outcomes ==> OutcomesOf(p, events, id) == outcomes[id])
  }

  method CollectTables(p: Primitives, events: seq<Event>) returns (t: Tables)
    ensures TablesOf(p, events, t)
  {
    hide DecisionTable, OutcomeTable, DecisionOf, OutcomesOf, IsDecision, IsOutcome;
    var issues: seq<AuditIssue> := [];
    var decisions, decisionOrder, outcomes, outcomeOrder := map[], [], map[], [];
    var seen: set<string> := {};
    EmptyTables(p, events[..0]);
    for i := 0 to |events|
      invariant issues == DuplicateIssues(p, events[..i])
      invariant DecisionTable(p, events[..i], decisions, decisionOrder)
      invariant OutcomeTable(p, events[..i], outcomes, outcomeOrder)
      invariant forall id :: id in seen <==> Seen(p, events[..i], id)
    {
      var id := Id(p, events[i]);
      assert events[..i + 1][..i] == events[..i];
      SeenSnoc(p, events, i);
      if id in seen {
        issues := issues + [AuditIssue(DuplicateEventId, id)];
      } else {
        assert issues + [] == issues;
      }
      seen := seen + {id};
      OtherEvent(p, events, i, decisions, decisionOrder, outcomes, outcomeOrder);
      if IsDecision(events[i]) {
        decisions, decisionOrder := AddDecision(p, events, i, decisions, decisionOrder);
      } else if IsOutcome(events[i]) {
        outcomes, outcomeOrder := AddOutcome(p, events, i, outcomes, outcomeOrder);
      }
    }
    assert events[..|events|] == events;
    t := Tables(issues, decisions, decisionOrder, outcomes, outcomeOrder);
  }

  lemma EmptyTables(p: Primitives, events: seq<Event>)
    requires events == []
    ensures DecisionTable(p, events, map[], []) && OutcomeTable(p, events, map[], [])
  {
  }

  // A table only changes at events of its own kind.
  lemma OtherEvent(p: Primitives, events: seq<Event>, i: nat, decisions: map<string, nat>, decisionOrder: seq<string>,
                   outcomes: map<string, seq<nat>>, outcomeOrder: seq<string>)
    requires i < |events|
    ensures !(IsDecision(events[i]) && IsOutcome(events[i]))
    ensures !IsDecision(events[i]) && DecisionTable(p, events[..i], decisions, decisionOrder) ==>
              DecisionTable(p, events[..i + 1], decisions, decisionOrder)
    ensures !IsOutcome(events[i]) && OutcomeTable(p, events[..i], outcomes, outcomeOrder) ==>
              OutcomeTable(p, events[..i + 1], outcomes, outcomeOrder)
  {
    assert events[..i + 1][..i] == events[..i];
  }

  lemma {:induction false} ListedIffDecided(p: Primitives, events: seq<Event>, id: string)
    ensures id in DecisionOrder(p, events) <==> DecisionOf(p, events, id).Some?
  {
    if |events| > 0 {
      ListedIffDecided(p, events[..|events| - 1], id);
    }
  }

  // setdefault: the first decision under an id stays.
  method AddDecision(p: Primitives, events: seq<Event>, i: nat, decisions: map<string, nat>, order: seq<string>)
    returns (next: map<string, nat>, nextOrder: seq<string>)
    requires i < |events| && IsDecision(events[i]) && DecisionTable(p, events[..i], decisions, order)
    ensures DecisionTable(p, events[..i + 1], next, nextOrder)
  {
    var id := Id(p, events[i]);
    assert events[..i + 1][..i] == events[..i];
    ListedIffDecided(p, events[..i], id);
    if id in decisions {
      return decisions, order;
    }
    next, nextOrder := decisions[id := i], order + [id];
  }

  lemma OutcomesSnoc(p: Primitives, events: seq<Event>, i: nat)
    requires i < |events| && IsOutcome(events[i])
    ensures forall id :: OutcomesOf(p, events[..i + 1], id)
                         == OutcomesOf(p, events[..i], id) + if Ref(p, events[i]) == id then [i] else []
    ensures var before := RefOrder(p, events[..i]);
            RefOrder(p, events[..i + 1])
            == before + if Ref(p, events[i]) in before then [] else [Ref(p, events[i])]
    ensures Ref(p, events[i]) !in RefOrder(p, events[..i]) ==> OutcomesOf(p, events[..i], Ref(p, events[i])) == []
  {
    assert events[..i + 1][..i] == events[..i];
    ReferredIffLinked(p, events[..i], Ref(p, events[i]));
  }

  lemma {:induction false} ReferredIffLinked(p: Primitives, events: seq<Event>, id: string)
    ensures id in RefOrder(p, events) <==> OutcomesOf(p, events, id) != []
  {
    if |events| > 0 {
      ReferredIffLinked(p, events[..|events| - 1], id);
    }
  }

  // setdefault and append: an outcome joins the list of the id it refers to.
  method AddOutcome(p: Primitives, events: seq<Event>, i: nat, outcomes: map<string, seq<nat>>, order: seq<string>)
    returns (next: map<string, seq<nat>>, nextOrder: seq<string>)
    requires i < |events| && IsOutcome(events[i]) && OutcomeTable(p, events[..i], outcomes, order)
    ensures OutcomeTable(p, events[..i + 1], next, nextOrder)
  {
    OutcomesSnoc(p, events, i);
    hide OutcomesOf, RefOrder, IsOutcome, Ref;
    var ref := Ref(p, events[i]);
    if ref in outcomes {
      next, nextOrder := outcomes[ref := outcomes[ref] + [i]], order;
    } else {
      next, nextOrder := outcomes[ref := [i]], order + [ref];
    }
  }

  lemma SeenSnoc(p: Primitives, events: seq<Event>, i: nat)
    requires i < |events|
    ensures forall id :: Seen(p, events[..i + 1], id) <==> Seen(p, events[..i], id) || Id(p, events[i]) == id
  {
    forall id
      ensures Seen(p, events[..i + 1], id) <==> Seen(p, events[..i], id) || Id(p, events[i]) == id
    {
      if Seen(p, events[..i], id) {
        var j :| 0 <= j < i && Id(p, events[..i][j]) == id;
        assert events[..i + 1][j] == events[..i][j];
      }
      if Id(p, events[i]) == id {
        assert events[..i + 1][i] == events[i];
      }
      if Seen(p, events[..i + 1], id) && Id(p, events[i]) != id {
        var j :| 0 <= j < i + 1 && Id(p, events[..i + 1][j]) == id;
        assert events[..i][j] == events[..i + 1][j];
      }
    }
  }

  // Looking an id up in the dictionaries is looking it up in the journal.
  lemma Lookup(p: Primitives, events: seq<Event>, t: Tables, id: string)
    requires TablesOf(p, events, t)
    ensures DecisionOf(p, events, id) == if id in t.decisions then Some(t.decisions[id]) else None
    ensures OutcomesOf(p, events, id) == if id in t.outcomes then t.outcomes[id] else []
  {
    hide DecisionOf, OutcomesOf, DecisionOrder, RefOrder;
    ListedIffDecided(p, events, id);
    ReferredIffLinked(p, events, id);
  }

  method CheckOutcomes(p: Primitives, events: seq<Event>, t: Tables) returns (issues: seq<AuditIssue>)
    requires TablesOf(p, events, t)
    ensures issues == AllRefIssues(p, events, t.outcomeOrder)
  {
    hide RefIssues, TablesOf;
    issues := [];
    var ids := t.outcomeOrder;
    for i := 0 to |ids|
      invariant issues == AllRefIssues(p, events, ids[..i])
    {
      assert ids[..i + 1][..i] == ids[..i];
      var own := CheckRef(p, events, t, ids[i]);
      issues := issues + own;
    }
    assert ids[..|ids|] == ids;
  }

  method CheckRef(p: Primitives, events: seq<Event>, t: Tables, id: string) returns (issues: seq<AuditIssue>)
    requires TablesOf(p, events, t)
    ensures issues == RefIssues(p, events, id)
  {
    hide TablesOf, DecisionOf, OutcomesOf;
    Lookup(p, events, t, id);
    var linked := if id in t.outcomes then t.outcomes[id] else [];
    if id in t.decisions {
      issues := CheckAttached(p, events, t.decisions[id], id, linked);
    } else {
      issues := ReportOrphans(p, events, linked);
    }
  }

  method ReportOrphans(p: Primitives, events: seq<Event>, linked: seq<nat>) returns (issues: seq<AuditIssue>)
    requires Positions(events, linked)
    ensures issues == OrphanIssues(p, events, linked)
  {
    issues := [];
    for k := 0 to |linked|
      invariant issues == OrphanIssues(p, events, linked)[..k]
    {
      issues := issues + [AuditIssue(OrphanOutcome, Id(p, events[linked[k]]))];
    }
  }

  method CheckAttached(p: Primitives, events: seq<Event>, d: nat, id: string, linked: seq<nat>)
    returns (issues: seq<AuditIssue>)
    requires d < |events| && Positions(events, linked)
    ensures issues == Flag(|linked| > 1, DuplicateOutcome, id) + AttachedIssues(p, events, d, linked)
  {
    hide OutcomeIssues;
    issues := [];
    if |linked| > 1 {
      issues := issues + [AuditIssue(DuplicateOutcome, id)];
    }
    ghost var duplicate := issues;
    for k := 0 to |linked|
      invariant issues == duplicate + AttachedIssues(p, events, d, linked[..k])
    {
      assert linked[..k + 1][..k] == linked[..k];
      var own := CheckOutcome(p, events, d, linked[k]);
      issues := issues + own;
    }
    assert linked[..|linked|] == linked;
  }

  method CheckOutcome(p: Primitives, events: seq<Event>, d: nat, o: nat) returns (issues: seq<AuditIssue>)
    requires d < |events| && o < |events|
    ensures issues == OutcomeIssues(p, events, d, o)
  {
    hide SameField, KnownStatus, Id;
    var decision, outcome := events[d], events[o];
    var id := Id(p, outcome);
    issues := [];
    if o <= d {
      issues := issues + [AuditIssue(OutcomeBeforeDecision, id)];
    }
    if Get(decision, Decision) != ALLOWED {
      issues := issues + [AuditIssue(OutcomeForDeniedDecision, id)];
    }
    for f := 0 to 3
      invariant issues == Flag(o <= d, OutcomeBeforeDecision, id)
                          + Flag(Get(decision, Decision) != ALLOWED, OutcomeForDeniedDecision, id)
                          + (if f > 0 then Flag(!SameField(outcome, decision, ActionId), OutcomeIdentityMismatch, id) else [])
                          + (if f > 1 then Flag(!SameField(outcome, decision, ActionName), OutcomeIdentityMismatch, id) else [])
                          + (if f > 2 then Flag(!SameField(outcome, decision, ContractHash), OutcomeIdentityMismatch, id) else [])
    {
      if !SameField(outcome, decision, IDENTITY_FIELDS[f]) {
        issues := issues + [AuditIssue(OutcomeIdentityMismatch, id)];
      }
    }
    if !KnownStatus(outcome) {
      issues := issues + [AuditIssue(InvalidOutcomeStatus, id)];
    }
  }

  // The audit of a snapshot: refused unless the snapshot verified.
  method AuditVerifiedSnapshot(p: Primitives, report: Report, events: seq<Event>)
    returns (audit: Result<AuditReport, AuditError>)
    ensures audit == if report.valid then Ok(AuditOf(p, events)) else Err(NotVerified)
  {
    if !report.valid {
      return Err(NotVerified);
    }
    hide DecisionTable, OutcomeTable;
    var t := CollectTables(p, events);
    TableOrders(p, events, t);
    var outcomeIssues := CheckOutcomes(p, events, t);
    var invocations, decisionIssues := BuildInvocations(p, events, t);
    return Ok(AuditReport(invocations, t.issues + outcomeIssues + decisionIssues));
  }

  lemma TableOrders(p: Primitives, events: seq<Event>, t: Tables)
    requires TablesOf(p, events, t)
    ensures t.decisionOrder == DecisionOrder(p, events) && t.outcomeOrder == RefOrder(p, events)
    ensures Decided(p, events, t.decisionOrder)
  {
    OrderIsDecided(p, events);
  }

  method BuildInvocations(p: Primitives, events: seq<Event>, t: Tables)
    returns (invocations: seq<Invocation>, issues: seq<AuditIssue>)
    requires TablesOf(p, events, t) && Decided(p, events, t.decisionOrder)
    ensures invocations == Invocations(p, events, t.decisionOrder)
    ensures issues == DecisionIssues(p, events, t.decisionOrder)
  {
    hide TablesOf, InvocationOf, DecisionOf, OutcomesOf, KnownDecision;
    invocations, issues := [], [];
    var ids := t.decisionOrder;
    for i := 0 to |ids|
      invariant issues == DecisionIssues(p, events, ids[..i])
      invariant invocations == Invocations(p, events, ids[..i])
    {
      assert ids[..i + 1][..i] == ids[..i];
      Lookup(p, events, t, ids[i]);
      if !KnownDecision(events[t.decisions[ids[i]]]) {
        issues := issues + [AuditIssue(InvalidDecision, ids[i])];
      }
      var own := BuildInvocation(p, events, t, ids[i]);
      invocations := invocations + [own];
    }
    assert ids[..|ids|] == ids;
  }

  method BuildInvocation(p: Primitives, events: seq<Event>, t: Tables, id: string) returns (invocation: Invocation)
    requires TablesOf(p, events, t) && id in t.decisions
    ensures invocation == InvocationOf(p, events, id)
  {
    Lookup(p, events, t, id);
    var decision := events[t.decisions[id]];
    var linked := if id in t.outcomes then t.outcomes[id] else [];
    var outcome: Option<Event> := None;
    if |linked| == 1 {
      outcome := Some(events[linked[0]]);
    }
    var status := NeedsReconciliation;
    if Get(decision, Decision) == DENIED && linked == [] {
      status := Denied;
    } else if Get(decision, Decision) == ALLOWED && outcome.Some? {
      if Get(outcome.value, Status) == SUCCEEDED {
        status := Succeeded;
      } else if Get(outcome.value, Status) == FAILED {
        status := Failed;
      }
    }
    invocation := Invocation(
      p.text(Get(decision, ActionName)), p.text(Get(decision, ActionId)), p.text(Get(decision, ContractHash)),
      p.text(Get(decision, InputHash)), p.text(Get(decision, Risk)), p.text(Get(decision, ApprovalMode)),
      id, p.text(Get(decision, Decision)), p.text(Get(decision, TimestampUtc)),
      if outcome.Some? then Some(Id(p, outcome.value)) else None,
      if outcome.Some? then Some(p.text(Get(outcome.value, TimestampUtc))) else None,
      status);
  }
}
