// What the audit report says, entry by entry, for every journal: each field of
// each invocation and each issue, told from the events alone.
module ReportLaws {
  import opened Wrappers
  import opened Json
  import opened Evidence
  import opened Audit
  import opened AuditLaws

  // The first decision under the id.
  predicate FirstDecision(p: Primitives, events: seq<Event>, id: string, d: nat) {
    && d < |events| && IsDecision(events[d]) && Id(p, events[d]) == id
    && forall k :: 0 <= k < d && IsDecision(events[k]) ==> Id(p, events[k]) != id
  }

  lemma FirstDecisionExactly(p: Primitives, events: seq<Event>, id: string)
    ensures forall d: nat :: FirstDecision(p, events, id, d) <==> DecisionOf(p, events, id) == Some(d)
    ensures DecisionOf(p, events, id).None? ==> forall d :: 0 <= d < |events| && IsDecision(events[d]) ==> Id(p, events[d]) != id
  {
    hide DecisionOf, IsDecision, Id;
    DecisionOfIsFirst(p, events, id);
  }

  // The invocation copies the decision event.
  predicate CopiesDecision(p: Primitives, e: Event, invocation: Invocation) {
    && invocation.actionName == p.text(Get(e, ActionName)) && invocation.actionId == p.text(Get(e, ActionId))
    && invocation.contractHash == p.text(Get(e, ContractHash)) && invocation.inputHash == p.text(Get(e, InputHash))
    && invocation.risk == p.text(Get(e, Risk)) && invocation.approvalMode == p.text(Get(e, ApprovalMode))
    && invocation.decisionEventId == p.text(Get(e, EventId)) && invocation.decision == p.text(Get(e, Decision))
    && invocation.decisionTimestamp == p.text(Get(e, TimestampUtc))
  }

  // It names the outcome exactly when one and only one refers to the decision.
  ghost predicate NamesOutcome(p: Primitives, events: seq<Event>, invocation: Invocation) {
    && (forall o: nat :: OnlyOutcome(p, events, invocation.decisionEventId, o) ==>
          && invocation.outcomeEventId == Some(p.text(Get(events[o], EventId)))
          && invocation.outcomeTimestamp == Some(p.text(Get(events[o], TimestampUtc))))
    && ((forall o: nat :: !OnlyOutcome(p, events, invocation.decisionEventId, o)) ==>
          invocation.outcomeEventId.None? && invocation.outcomeTimestamp.None?)
  }

  ghost predicate HasStatus(p: Primitives, events: seq<Event>, e: Event, id: string, status: InvocationStatus) {
    match status
    case Succeeded => Get(e, Decision) == ALLOWED && OnlyOutcomeWith(p, events, id, SUCCEEDED)
    case Failed => Get(e, Decision) == ALLOWED && OnlyOutcomeWith(p, events, id, FAILED)
    case Denied => Get(e, Decision) == DENIED && NoOutcome(p, events, id)
    case NeedsReconciliation =>
      && !(Get(e, Decision) == DENIED && NoOutcome(p, events, id))
      && !(Get(e, Decision) == ALLOWED
           && (OnlyOutcomeWith(p, events, id, SUCCEEDED) || OnlyOutcomeWith(p, events, id, FAILED)))
  }

  // What the invocation under an id tells, told from the events alone.
  ghost predicate Tells(p: Primitives, events: seq<Event>, d: nat, invocation: Invocation) {
    && FirstDecision(p, events, invocation.decisionEventId, d)
    && CopiesDecision(p, events[d], invocation)
    && NamesOutcome(p, events, invocation)
    && HasStatus(p, events, events[d], invocation.decisionEventId, invocation.status)
  }

  lemma InvocationTells(p: Primitives, events: seq<Event>, id: string)
    requires DecisionOf(p, events, id).Some?
    ensures Tells(p, events, DecisionOf(p, events, id).value, InvocationOf(p, events, id))
  {
    hide DecisionOf, OutcomesOf, FirstDecision, HasStatus, NamesOutcome, OnlyOutcome, OnlyOutcomeWith, NoOutcome;
    FirstDecisionExactly(p, events, id);
    DecisionOfIsFirst(p, events, id);
    OutcomeIsNamed(p, events, id);
    StatusIsHad(p, events, id);
  }

  lemma OutcomeIsNamed(p: Primitives, events: seq<Event>, id: string)
    requires DecisionOf(p, events, id).Some?
    ensures NamesOutcome(p, events, InvocationOf(p, events, id))
  {
    hide DecisionOf, OutcomesOf, OnlyOutcome;
    OutcomesOfAreAll(p, events, id);
    OutcomesAscend(p, events, id);
    LinkedExactly(p, events, id, OutcomesOf(p, events, id));
  }

  lemma OutcomesAscend(p: Primitives, events: seq<Event>, id: string)
    ensures var linked := OutcomesOf(p, events, id);
            |linked| > 1 ==> linked[0] < linked[1]
  {
    hide OutcomesOf;
    OutcomesOfAreAll(p, events, id);
  }

  lemma StatusIsHad(p: Primitives, events: seq<Event>, id: string)
    requires DecisionOf(p, events, id).Some?
    ensures HasStatus(p, events, events[DecisionOf(p, events, id).value], id, InvocationOf(p, events, id).status)
  {
    hide DecisionOf, OutcomesOf, OnlyOutcome, OnlyOutcomeWith, NoOutcome, InvocationOf;
    StatusExact(p, events, id);
  }

  // Every entry of the report tells so of one decision, and every first
  // decision under an id is told of by exactly one entry.
  lemma EveryInvocationTells(p: Primitives, events: seq<Event>, i: nat) returns (d: nat)
    requires i < |AuditOf(p, events).invocations|
    ensures Tells(p, events, d, AuditOf(p, events).invocations[i])
  {
    hide DecisionOf, DecisionOrder, Tells, InvocationOf;
    var ids := DecisionOrder(p, events);
    OrderIsDecided(p, events);
    InvocationAt(p, events, ids, i);
    InvocationTells(p, events, ids[i]);
    d := DecisionOf(p, events, ids[i]).value;
  }

  lemma EveryDecisionIsTold(p: Primitives, events: seq<Event>, id: string, d: nat) returns (i: nat)
    requires FirstDecision(p, events, id, d)
    ensures i < |AuditOf(p, events).invocations| && Tells(p, events, d, AuditOf(p, events).invocations[i])
    ensures forall j :: 0 <= j < |AuditOf(p, events).invocations| && AuditOf(p, events).invocations[j].decisionEventId == id ==>
                          j == i
    ensures AuditOf(p, events).invocations[i].decisionEventId == id
  {
    hide DecisionOf, AuditOf, Tells, FirstDecision;
    FirstDecisionExactly(p, events, id);
    i := PlaceOf(p, events, id);
    InvocationTells(p, events, id);
    NamesItself(p, events, id);
  }

  lemma NamesItself(p: Primitives, events: seq<Event>, id: string)
    requires DecisionOf(p, events, id).Some?
    ensures InvocationOf(p, events, id).decisionEventId == id
  {
  }

  // ----- the issues -----

  predicate RefersTo(p: Primitives, events: seq<Event>, o: nat, id: string) {
    o < |events| && IsOutcome(events[o]) && Ref(p, events[o]) == id
  }

  // Outcome o, of the given id, refers to the decision d.
  predicate Linked(p: Primitives, events: seq<Event>, d: nat, o: nat, outcomeId: string) {
    && o < |events| && IsOutcome(events[o]) && Id(p, events[o]) == outcomeId
    && FirstDecision(p, events, Ref(p, events[o]), d)
  }

  predicate NoDecision(p: Primitives, events: seq<Event>, id: string) {
    forall d :: 0 <= d < |events| && IsDecision(events[d]) ==> Id(p, events[d]) != id
  }

  // What is wrong with an outcome, given the decision it refers to.
  predicate Wrong(p: Primitives, events: seq<Event>, d: nat, o: nat, code: AuditCode)
    requires d < |events| && o < |events|
  {
    match code
    case OutcomeBeforeDecision => o <= d
    case OutcomeForDeniedDecision => Get(events[d], Decision) != JStr("allowed")
    case OutcomeIdentityMismatch =>
      || !HostEqual(Get(events[o], ActionId), Get(events[d], ActionId))
      || !HostEqual(Get(events[o], ActionName), Get(events[d], ActionName))
      || !HostEqual(Get(events[o], ContractHash), Get(events[d], ContractHash))
    case InvalidOutcomeStatus => Get(events[o], Status) != JStr("succeeded") && Get(events[o], Status) != JStr("failed")
    case _ => false
  }

  // Why an issue is reported.
  ghost predicate Because(p: Primitives, events: seq<Event>, issue: AuditIssue) {
    var id := issue.eventId;
    match issue.code
    case DuplicateEventId =>
      exists i, j :: 0 <= i < j < |events| && Id(p, events[i]) == id && Id(p, events[j]) == id
    case OrphanOutcome =>
      exists o :: 0 <= o < |events| && IsOutcome(events[o]) && Id(p, events[o]) == id && NoDecision(p, events, Ref(p, events[o]))
    case DuplicateOutcome =>
      !NoDecision(p, events, id)
      && exists i, j :: 0 <= i < j && RefersTo(p, events, i, id) && RefersTo(p, events, j, id)
    case InvalidDecision =>
      exists d: nat :: FirstDecision(p, events, id, d)
                       && Get(events[d], Decision) != JStr("allowed") && Get(events[d], Decision) != JStr("denied")
    case _ => exists d: nat, o: nat :: Linked(p, events, d, o, id) && Wrong(p, events, d, o, issue.code)
  }

  lemma {:induction false} DuplicatesExactly(p: Primitives, events: seq<Event>, issue: AuditIssue)
    ensures issue in DuplicateIssues(p, events) <==>
            issue.code == DuplicateEventId
            && exists i, j :: 0 <= i < j < |events| && Id(p, events[i]) == issue.eventId && Id(p, events[j]) == issue.eventId
  {
    hide Id;
    if |events| > 0 {
      var n := |events| - 1;
      var before := events[..n];
      DuplicatesExactly(p, before, issue);
      assert forall i :: 0 <= i < n ==> before[i] == events[i];
      if i, j :| 0 <= i < j < |events| && Id(p, events[i]) == issue.eventId && Id(p, events[j]) == issue.eventId {
        assert j == n ==> Id(p, before[i]) == Id(p, events[n]);
      }
    }
  }

  lemma {:induction false} AllRefsExactly(p: Primitives, events: seq<Event>, ids: seq<string>, issue: AuditIssue)
    ensures issue in AllRefIssues(p, events, ids) <==> exists i :: 0 <= i < |ids| && issue in RefIssues(p, events, ids[i])
  {
    hide RefIssues;
    if |ids| > 0 {
      AllRefsExactly(p, events, ids[..|ids| - 1], issue);
    }
  }

  // The outcomes of every id are looked through.
  lemma RefsExactly(p: Primitives, events: seq<Event>, issue: AuditIssue)
    ensures issue in AllRefIssues(p, events, RefOrder(p, events)) <==> exists id :: issue in RefIssues(p, events, id)
  {
    hide RefIssues, RefOrder, AllRefIssues;
    AllRefsExactly(p, events, RefOrder(p, events), issue);
    if id :| issue in RefIssues(p, events, id) {
      UnreferredIsClean(p, events, id);
      assert id in RefOrder(p, events);
    }
  }

  lemma {:induction false} AttachedExactly(p: Primitives, events: seq<Event>, d: nat, linked: seq<nat>, issue: AuditIssue)
    requires d < |events| && Positions(events, linked)
    ensures issue in AttachedIssues(p, events, d, linked) <==>
            exists k :: 0 <= k < |linked| && issue in OutcomeIssues(p, events, d, linked[k])
  {
    hide OutcomeIssues;
    if |linked| > 0 {
      AttachedExactly(p, events, d, linked[..|linked| - 1], issue);
    }
  }

  lemma OutcomeExactly(p: Primitives, events: seq<Event>, d: nat, o: nat, issue: AuditIssue)
    requires d < |events| && o < |events|
    ensures issue in OutcomeIssues(p, events, d, o) <==>
            issue.eventId == Id(p, events[o]) && Wrong(p, events, d, o, issue.code)
  {
    hide HostEqual, Id, Flag;
    var decision, outcome := events[d], events[o];
    var id := Id(p, outcome);
    InFlag(o <= d, OutcomeBeforeDecision, id, issue);
    InFlag(Get(decision, Decision) != ALLOWED, OutcomeForDeniedDecision, id, issue);
    InFlag(!SameField(outcome, decision, ActionId), OutcomeIdentityMismatch, id, issue);
    InFlag(!SameField(outcome, decision, ActionName), OutcomeIdentityMismatch, id, issue);
    InFlag(!SameField(outcome, decision, ContractHash), OutcomeIdentityMismatch, id, issue);
    InFlag(!KnownStatus(outcome), InvalidOutcomeStatus, id, issue);
  }

  lemma InFlag(condition: bool, code: AuditCode, id: string, issue: AuditIssue)
    ensures issue in Flag(condition, code, id) <==> condition && issue == AuditIssue(code, id)
  {
  }

  // The issues found under one id.
  lemma RefExactly(p: Primitives, events: seq<Event>, id: string, issue: AuditIssue)
    ensures issue in RefIssues(p, events, id) <==>
            var linked := OutcomesOf(p, events, id);
            match DecisionOf(p, events, id)
            case None => exists k :: 0 <= k < |linked| && issue == AuditIssue(OrphanOutcome, Id(p, events[linked[k]]))
            case Some(d) =>
              || (|linked| > 1 && issue == AuditIssue(DuplicateOutcome, id))
              || exists k :: 0 <= k < |linked| && issue.eventId == Id(p, events[linked[k]])
                             && Wrong(p, events, d, linked[k], issue.code)
  {
    hide DecisionOf, OutcomesOf, AttachedIssues, OutcomeIssues, Wrong, Id, Flag;
    var linked := OutcomesOf(p, events, id);
    match DecisionOf(p, events, id)
    case None =>
      if k :| 0 <= k < |linked| && issue == AuditIssue(OrphanOutcome, Id(p, events[linked[k]])) {
        assert OrphanIssues(p, events, linked)[k] == issue;
      }
    case Some(d) =>
      AttachedWrong(p, events, d, linked, issue);
      InFlag(|linked| > 1, DuplicateOutcome, id, issue);
      assert RefIssues(p, events, id) == Flag(|linked| > 1, DuplicateOutcome, id) + AttachedIssues(p, events, d, linked);
  }

  lemma AttachedWrong(p: Primitives, events: seq<Event>, d: nat, linked: seq<nat>, issue: AuditIssue)
    requires d < |events| && Positions(events, linked)
    ensures issue in AttachedIssues(p, events, d, linked) <==>
            exists k :: 0 <= k < |linked| && issue.eventId == Id(p, events[linked[k]])
                        && Wrong(p, events, d, linked[k], issue.code)
  {
    hide AttachedIssues, OutcomeIssues, Wrong, Id;
    AttachedExactly(p, events, d, linked, issue);
    forall k | 0 <= k < |linked|
      ensures issue in OutcomeIssues(p, events, d, linked[k]) <==>
              issue.eventId == Id(p, events[linked[k]]) && Wrong(p, events, d, linked[k], issue.code)
    {
      OutcomeExactly(p, events, d, linked[k], issue);
    }
  }

  lemma RefIssueIsBecause(p: Primitives, events: seq<Event>, id: string, issue: AuditIssue)
    requires issue in RefIssues(p, events, id)
    ensures issue.code !in {DuplicateEventId, InvalidDecision} && Because(p, events, issue)
  {
    hide DecisionOf, OutcomesOf, RefIssues, Id, Ref, IsOutcome, IsDecision;
    RefExactly(p, events, id, issue);
    FirstDecisionExactly(p, events, id);
    OutcomesOfAreAll(p, events, id);
    var linked := OutcomesOf(p, events, id);
    assert forall k :: 0 <= k < |linked| ==> linked[k] in linked;
    match DecisionOf(p, events, id)
    case None =>
      var k :| 0 <= k < |linked| && issue == AuditIssue(OrphanOutcome, Id(p, events[linked[k]]));
      assert NoDecision(p, events, Ref(p, events[linked[k]]));
    case Some(d) =>
      assert FirstDecision(p, events, id, d);
      if |linked| > 1 && issue == AuditIssue(DuplicateOutcome, id) {
        assert RefersTo(p, events, linked[0], id) && RefersTo(p, events, linked[1], id);
      } else {
        var k :| 0 <= k < |linked| && issue.eventId == Id(p, events[linked[k]]) && Wrong(p, events, d, linked[k], issue.code);
        assert Linked(p, events, d, linked[k], issue.eventId);
      }
  }

  lemma BecauseIsRefIssue(p: Primitives, events: seq<Event>, issue: AuditIssue) returns (id: string)
    requires issue.code !in {DuplicateEventId, InvalidDecision} && Because(p, events, issue)
    ensures issue in RefIssues(p, events, id)
  {
    hide DecisionOf, OutcomesOf, RefIssues, Id, Ref, IsOutcome, IsDecision;
    var o: nat;
    if issue.code == OrphanOutcome {
      o :| 0 <= o < |events| && IsOutcome(events[o]) && Id(p, events[o]) == issue.eventId
           && NoDecision(p, events, Ref(p, events[o]));
      id := Ref(p, events[o]);
    } else if issue.code == DuplicateOutcome {
      id := issue.eventId;
      TwoOutcomes(p, events, id);
    } else {
      var d: nat;
      d, o :| Linked(p, events, d, o, issue.eventId) && Wrong(p, events, d, o, issue.code);
      id := Ref(p, events[o]);
    }
    RefExactly(p, events, id, issue);
    FirstDecisionExactly(p, events, id);
    OutcomesOfAreAll(p, events, id);
    if issue.code != DuplicateOutcome {
      assert o in OutcomesOf(p, events, id);
    }
  }

  lemma TwoOutcomes(p: Primitives, events: seq<Event>, id: string)
    requires exists i, j :: 0 <= i < j && RefersTo(p, events, i, id) && RefersTo(p, events, j, id)
    ensures |OutcomesOf(p, events, id)| > 1
  {
    hide OutcomesOf, Ref, IsOutcome;
    OutcomesOfAreAll(p, events, id);
    var i, j :| 0 <= i < j && RefersTo(p, events, i, id) && RefersTo(p, events, j, id);
    var linked := OutcomesOf(p, events, id);
    assert i in linked && j in linked;
  }

  lemma {:induction false} DecisionsExactly(p: Primitives, events: seq<Event>, ids: seq<string>, issue: AuditIssue)
    requires Decided(p, events, ids)
    ensures issue in DecisionIssues(p, events, ids) <==>
            && issue.code == InvalidDecision && issue.eventId in ids
            && DecisionOf(p, events, issue.eventId).Some?
            && !KnownDecision(events[DecisionOf(p, events, issue.eventId).value])
  {
    hide KnownDecision, DecisionOf;
    if |ids| > 0 {
      DecisionsExactly(p, events, ids[..|ids| - 1], issue);
    }
  }

  lemma UnknownExactly(p: Primitives, events: seq<Event>, issue: AuditIssue)
    requires Decided(p, events, DecisionOrder(p, events))
    ensures issue in DecisionIssues(p, events, DecisionOrder(p, events)) <==>
            issue.code == InvalidDecision && Because(p, events, issue)
  {
    hide DecisionOf, DecisionOrder, DecisionIssues, Id, IsDecision, FirstDecision;
    DecisionsExactly(p, events, DecisionOrder(p, events), issue);
    ListedIffDecided(p, events, issue.eventId);
    FirstDecisionExactly(p, events, issue.eventId);
    if issue.code == InvalidDecision && Because(p, events, issue) {
      FirstIsInRange(p, events, issue.eventId);
    }
  }

  lemma FirstIsInRange(p: Primitives, events: seq<Event>, id: string)
    ensures forall d: nat :: FirstDecision(p, events, id, d) ==> d < |events|
  {
  }

  // The audit of any journal reports an issue exactly for the reason its code
  // says, under the id it says.
  lemma IssuesExactly(p: Primitives, events: seq<Event>, issue: AuditIssue)
    ensures issue in AuditOf(p, events).issues <==> Because(p, events, issue)
  {
    hide DuplicateIssues, AllRefIssues, DecisionIssues, RefIssues, RefOrder, DecisionOrder, DecisionOf, Because;
    OrderIsDecided(p, events);
    DuplicatesExactly(p, events, issue);
    if issue.code == DuplicateEventId {
      DuplicateIsBecause(p, events, issue);
    }
    RefsExactly(p, events, issue);
    UnknownExactly(p, events, issue);
    if id :| issue in RefIssues(p, events, id) {
      RefIssueIsBecause(p, events, id, issue);
    } else if issue.code !in {DuplicateEventId, InvalidDecision} && Because(p, events, issue) {
      var id := BecauseIsRefIssue(p, events, issue);
    }
  }

  lemma DuplicateIsBecause(p: Primitives, events: seq<Event>, issue: AuditIssue)
    requires issue.code == DuplicateEventId
    ensures Because(p, events, issue) <==>
            exists i, j :: 0 <= i < j < |events| && Id(p, events[i]) == issue.eventId && Id(p, events[j]) == issue.eventId
  {
  }
}
