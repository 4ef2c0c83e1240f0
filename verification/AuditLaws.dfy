// What the audit report says about the journal, for every journal.
module AuditLaws {
  import opened Wrappers
  import opened Json
  import opened Evidence
  import opened Audit

  // ----- the rules of the format document, stated on positions -----

  ghost predicate DistinctIds(p: Primitives, events: seq<Event>) {
    forall i, j :: 0 <= i < j < |events| ==> Id(p, events[i]) != Id(p, events[j])
  }

  // Outcome o answers decision d.
  predicate Answers(p: Primitives, events: seq<Event>, o: nat, d: nat)
    requires o < |events| && d < |events|
  {
    var decision, outcome := events[d], events[o];
    && d < o && IsOutcome(outcome)
    && IsDecision(decision) && Id(p, decision) == Ref(p, outcome)
    && Get(decision, Decision) == ALLOWED
    && SameField(outcome, decision, ActionId)
    && SameField(outcome, decision, ActionName)
    && SameField(outcome, decision, ContractHash)
    && KnownStatus(outcome)
  }

  ghost predicate OutcomesAnswer(p: Primitives, events: seq<Event>) {
    forall o :: 0 <= o < |events| && IsOutcome(events[o]) ==> exists d :: 0 <= d < o && Answers(p, events, o, d)
  }

  ghost predicate OneOutcomeEach(p: Primitives, events: seq<Event>) {
    forall i, j :: 0 <= i < j < |events| && IsOutcome(events[i]) && IsOutcome(events[j]) ==>
                     Ref(p, events[i]) != Ref(p, events[j])
  }

  ghost predicate DecisionsKnown(events: seq<Event>) {
    forall d :: 0 <= d < |events| && IsDecision(events[d]) ==> KnownDecision(events[d])
  }

  // A coherent invocation history.
  ghost predicate Coherent(p: Primitives, events: seq<Event>) {
    && DistinctIds(p, events)
    && OutcomesAnswer(p, events)
    && OneOutcomeEach(p, events)
    && DecisionsKnown(events)
  }

  // ----- what the tables contain -----

  lemma {:induction false} DecisionOfIsFirst(p: Primitives, events: seq<Event>, id: string)
    ensures var d := DecisionOf(p, events, id);
            && (d.Some? ==> IsDecision(events[d.value]) && Id(p, events[d.value]) == id)
            && (forall j :: 0 <= j < (if d.Some? then d.value else |events|) && IsDecision(events[j]) ==>
                              Id(p, events[j]) != id)
  {
    if |events| > 0 {
      var n := |events| - 1;
      DecisionOfIsFirst(p, events[..n], id);
      assert forall j :: 0 <= j < n ==> events[..n][j] == events[j];
    }
  }

  lemma {:induction false} OutcomesOfAreAll(p: Primitives, events: seq<Event>, id: string)
    ensures var linked := OutcomesOf(p, events, id);
            && (forall o :: o in linked <==> 0 <= o < |events| && IsOutcome(events[o]) && Ref(p, events[o]) == id)
            && (forall j, k :: 0 <= j < k < |linked| ==> linked[j] < linked[k])
  {
    if |events| > 0 {
      var n := |events| - 1;
      OutcomesOfAreAll(p, events[..n], id);
      assert forall j :: 0 <= j < n ==> events[..n][j] == events[j];
    }
  }

  predicate Distinct<T(==)>(s: seq<T>) {
    forall j, k :: 0 <= j < k < |s| ==> s[j] != s[k]
  }

  lemma DistinctSnoc<T>(s: seq<T>, x: T)
    requires Distinct(s) && x !in s
    ensures Distinct(s + [x])
  {
  }

  lemma DistinctInit<T>(s: seq<T>)
    requires Distinct(s) && |s| > 0
    ensures Distinct(s[..|s| - 1]) && s[|s| - 1] !in s[..|s| - 1]
    ensures forall x :: x in s <==> x in s[..|s| - 1] || x == s[|s| - 1]
  {
    assert s == s[..|s| - 1] + [s[|s| - 1]];
  }

  lemma {:induction false} OrdersAreDistinct(p: Primitives, events: seq<Event>)
    ensures var ids := DecisionOrder(p, events);
            Distinct(ids)
    ensures var ids := RefOrder(p, events);
            Distinct(ids)
  {
    if |events| > 0 {
      hide Distinct;
      var n := |events| - 1;
      OrdersAreDistinct(p, events[..n]);
      if Id(p, events[n]) !in DecisionOrder(p, events[..n]) {
        DistinctSnoc(DecisionOrder(p, events[..n]), Id(p, events[n]));
      }
      if Ref(p, events[n]) !in RefOrder(p, events[..n]) {
        DistinctSnoc(RefOrder(p, events[..n]), Ref(p, events[n]));
      }
    } else {
      assert forall ids: seq<string> :: |ids| == 0 ==> Distinct(ids);
    }
  }

  // ----- the issue lists are empty exactly when the rules hold -----

  lemma {:induction false} NoDuplicateIssues(p: Primitives, events: seq<Event>)
    ensures DuplicateIssues(p, events) == [] <==> DistinctIds(p, events)
  {
    if |events| > 0 {
      var n := |events| - 1;
      var before := events[..n];
      NoDuplicateIssues(p, before);
      assert forall j :: 0 <= j < n ==> before[j] == events[j];
      if Seen(p, before, Id(p, events[n])) {
        var j :| 0 <= j < n && Id(p, before[j]) == Id(p, events[n]);
        assert Id(p, events[j]) == Id(p, events[n]);
      }
      assert DistinctIds(p, events) ==> DistinctIds(p, before);
    }
  }

  lemma {:induction false} NoAttachedIssues(p: Primitives, events: seq<Event>, d: nat, linked: seq<nat>)
    requires d < |events| && Positions(events, linked)
    ensures AttachedIssues(p, events, d, linked) == [] <==>
            forall i :: 0 <= i < |linked| ==> OutcomeIssues(p, events, d, linked[i]) == []
  {
    hide OutcomeIssues;
    if |linked| > 0 {
      NoAttachedIssues(p, events, d, linked[..|linked| - 1]);
    }
  }

  lemma {:induction false} NoRefIssues(p: Primitives, events: seq<Event>, ids: seq<string>)
    ensures AllRefIssues(p, events, ids) == [] <==>
            forall i :: 0 <= i < |ids| ==> RefIssues(p, events, ids[i]) == []
  {
    hide RefIssues;
    if |ids| > 0 {
      NoRefIssues(p, events, ids[..|ids| - 1]);
    }
  }

  lemma {:induction false} NoDecisionIssues(p: Primitives, events: seq<Event>, ids: seq<string>)
    requires Decided(p, events, ids)
    ensures DecisionIssues(p, events, ids) == [] <==>
            forall i :: 0 <= i < |ids| ==> KnownDecision(events[DecisionOf(p, events, ids[i]).value])
  {
    hide KnownDecision, DecisionOf;
    if |ids| > 0 {
      NoDecisionIssues(p, events, ids[..|ids| - 1]);
    }
  }

  lemma CleanRef(p: Primitives, events: seq<Event>, id: string)
    ensures RefIssues(p, events, id) == [] <==>
            var linked, d := OutcomesOf(p, events, id), DecisionOf(p, events, id);
            linked == [] || (d.Some? && |linked| == 1 && Answers(p, events, linked[0], d.value))
  {
    hide OutcomesOf, DecisionOf, AttachedIssues, OutcomeIssues, Answers;
    var linked, d := OutcomesOf(p, events, id), DecisionOf(p, events, id);
    if d.Some? {
      NoAttachedIssues(p, events, d.value, linked);
      if |linked| > 0 {
        CleanOutcome(p, events, d.value, linked[0], id);
      }
      if |linked| == 0 {
        assert Flag(|linked| > 1, DuplicateOutcome, id) == [];
      }
    }
  }

  lemma CleanOutcome(p: Primitives, events: seq<Event>, d: nat, o: nat, id: string)
    requires DecisionOf(p, events, id) == Some(d) && o in OutcomesOf(p, events, id) && o < |events|
    ensures OutcomeIssues(p, events, d, o) == [] <==> Answers(p, events, o, d)
  {
    hide OutcomesOf, DecisionOf, SameField, KnownStatus;
    DecisionOfIsFirst(p, events, id);
    OutcomesOfAreAll(p, events, id);
  }

  // The first decision under the id is the only one when ids are unique.
  lemma DecisionOfUnique(p: Primitives, events: seq<Event>, d: nat)
    requires DistinctIds(p, events) && d < |events| && IsDecision(events[d])
    ensures DecisionOf(p, events, Id(p, events[d])) == Some(d)
  {
    hide DecisionOf;
    DecisionOfIsFirst(p, events, Id(p, events[d]));
  }

  lemma RefRulesFromReport(p: Primitives, events: seq<Event>)
    requires forall id :: RefIssues(p, events, id) == []
    ensures OutcomesAnswer(p, events) && OneOutcomeEach(p, events)
  {
    hide RefIssues, OutcomesOf, DecisionOf, Answers;
    forall o | 0 <= o < |events| && IsOutcome(events[o])
      ensures exists d :: 0 <= d < o && Answers(p, events, o, d)
      ensures OutcomesOf(p, events, Ref(p, events[o])) == [o]
    {
      var id := Ref(p, events[o]);
      assert RefIssues(p, events, id) == [];
      CleanRef(p, events, id);
      OutcomesOfAreAll(p, events, id);
      assert o in OutcomesOf(p, events, id);
      var d := DecisionOf(p, events, id).value;
      AnswersAfter(p, events, o, d);
    }
  }

  lemma AnswersAfter(p: Primitives, events: seq<Event>, o: nat, d: nat)
    requires o < |events| && d < |events| && Answers(p, events, o, d)
    ensures d < o && IsOutcome(events[o]) && IsDecision(events[d]) && Id(p, events[d]) == Ref(p, events[o])
    ensures Get(events[d], Decision) == ALLOWED && KnownStatus(events[o])
  {
  }

  lemma ReportFromRefRules(p: Primitives, events: seq<Event>, id: string)
    requires DistinctIds(p, events) && OutcomesAnswer(p, events) && OneOutcomeEach(p, events)
    ensures RefIssues(p, events, id) == []
  {
    hide RefIssues, OutcomesOf, DecisionOf, Answers;
    OutcomesOfAreAll(p, events, id);
    CleanRef(p, events, id);
    var linked := OutcomesOf(p, events, id);
    if |linked| > 0 {
      var o := linked[0];
      assert o in linked;
      var d :| 0 <= d < o && Answers(p, events, o, d);
      AnswersAfter(p, events, o, d);
      DecisionOfUnique(p, events, d);
      AtMostOneLinked(p, events, id);
    }
  }

  lemma AtMostOneLinked(p: Primitives, events: seq<Event>, id: string)
    requires OneOutcomeEach(p, events)
    ensures |OutcomesOf(p, events, id)| <= 1
  {
    hide OutcomesOf;
    var linked := OutcomesOf(p, events, id);
    if |linked| > 1 {
      var a, b := linked[0], linked[1];
      assert a in linked && b in linked;
      OutcomesOfAreAll(p, events, id);
      assert false;
    }
  }

  // Audit exactness: the report is free of issues if and only if the history is coherent.
  lemma {:induction false} AuditExact(p: Primitives, events: seq<Event>)
    ensures AuditOf(p, events).StructurallyValid() <==> Coherent(p, events)
  {
    hide DistinctIds, OutcomesAnswer, OneOutcomeEach, DecisionsKnown, RefIssues;
    NoDuplicateIssues(p, events);
    NoRefIssues(p, events, RefOrder(p, events));
    OrderIsDecided(p, events);
    NoDecisionIssues(p, events, DecisionOrder(p, events));
    if AuditOf(p, events).StructurallyValid() {
      forall id
        ensures RefIssues(p, events, id) == []
      {
        UnreferredIsClean(p, events, id);
      }
      RefRulesFromReport(p, events);
      KnownFromOrder(p, events);
    }
    if Coherent(p, events) {
      forall id
        ensures RefIssues(p, events, id) == []
      {
        ReportFromRefRules(p, events, id);
      }
      OrderFromKnown(p, events);
    }
  }

  lemma UnreferredIsClean(p: Primitives, events: seq<Event>, id: string)
    ensures id !in RefOrder(p, events) ==> RefIssues(p, events, id) == []
  {
    hide OutcomesOf, DecisionOf;
    ReferredIffLinked(p, events, id);
    CleanRef(p, events, id);
  }

  lemma KnownFromOrder(p: Primitives, events: seq<Event>)
    requires DistinctIds(p, events) && Decided(p, events, DecisionOrder(p, events))
    requires var ids := DecisionOrder(p, events);
             forall i :: 0 <= i < |ids| ==> KnownDecision(events[DecisionOf(p, events, ids[i]).value])
    ensures DecisionsKnown(events)
  {
    hide KnownDecision, DecisionOf, DecisionOrder;
    forall d | 0 <= d < |events| && IsDecision(events[d])
      ensures KnownDecision(events[d])
    {
      DecisionOfUnique(p, events, d);
      ListedIffDecided(p, events, Id(p, events[d]));
    }
  }

  lemma OrderFromKnown(p: Primitives, events: seq<Event>)
    requires DecisionsKnown(events) && Decided(p, events, DecisionOrder(p, events))
    ensures var ids := DecisionOrder(p, events);
            forall i :: 0 <= i < |ids| ==> KnownDecision(events[DecisionOf(p, events, ids[i]).value])
  {
    hide KnownDecision, DecisionOf, DecisionOrder;
    var ids := DecisionOrder(p, events);
    forall i | 0 <= i < |ids|
      ensures KnownDecision(events[DecisionOf(p, events, ids[i]).value])
    {
      DecisionOfIsFirst(p, events, ids[i]);
    }
  }

  // ----- conservation -----

  // Each distinct decision id gives exactly one invocation, in order of the
  // first appearance of the ids.
  lemma InvocationsFollowDecisions(p: Primitives, events: seq<Event>, i: nat, j: nat)
    requires i < j < |AuditOf(p, events).invocations|
    ensures var a, b := AuditOf(p, events).invocations[i].decisionEventId, AuditOf(p, events).invocations[j].decisionEventId;
            var da, db := DecisionOf(p, events, a), DecisionOf(p, events, b);
            a != b && da.Some? && db.Some? && da.value < db.value
  {
    hide DecisionOf;
    var ids := DecisionOrder(p, events);
    OrderIsDecided(p, events);
    OrdersAreDistinct(p, events);
    InvocationAt(p, events, ids, i);
    InvocationAt(p, events, ids, j);
    OrderIsByPosition(p, events, i, j);
  }

  lemma {:induction false} OrderIsByPosition(p: Primitives, events: seq<Event>, i: nat, j: nat)
    requires i < j < |DecisionOrder(p, events)|
    ensures var ids := DecisionOrder(p, events);
            && DecisionOf(p, events, ids[i]).Some? && DecisionOf(p, events, ids[j]).Some?
            && DecisionOf(p, events, ids[i]).value < DecisionOf(p, events, ids[j]).value
  {
    var n := |events| - 1;
    var before := DecisionOrder(p, events[..n]);
    OrderIsDecided(p, events);
    if j < |before| {
      OrderIsByPosition(p, events[..n], i, j);
    } else {
      assert before[i] in before;
      ListedIffDecided(p, events[..n], before[i]);
      ListedIffDecided(p, events[..n], Id(p, events[n]));
    }
  }

  // The place of an id among the invocations.
  ghost predicate ReportedAt(p: Primitives, events: seq<Event>, id: string, i: nat) {
    var invocations := AuditOf(p, events).invocations;
    && i < |invocations| && DecisionOf(p, events, id).Some? && invocations[i] == InvocationOf(p, events, id)
    && forall j :: 0 <= j < |invocations| && invocations[j].decisionEventId == id ==> j == i
  }

  // Each decision event has exactly one invocation under its id, and that is
  // built from the first decision event with the id.
  lemma InvocationPerDecision(p: Primitives, events: seq<Event>, d: nat) returns (i: nat)
    requires d < |events| && IsDecision(events[d])
    ensures var id := Id(p, events[d]);
            var first := DecisionOf(p, events, id);
            && first.Some? && first.value <= d && Id(p, events[first.value]) == id
            && (forall k :: 0 <= k < first.value && IsDecision(events[k]) ==> Id(p, events[k]) != id)
            && ReportedAt(p, events, id, i)
  {
    hide DecisionOf;
    var id := Id(p, events[d]);
    DecisionOfIsFirst(p, events, id);
    i := PlaceOf(p, events, id);
  }

  lemma PlaceOf(p: Primitives, events: seq<Event>, id: string) returns (i: nat)
    requires DecisionOf(p, events, id).Some?
    ensures ReportedAt(p, events, id, i)
  {
    hide DecisionOf, DecisionOrder;
    var ids := DecisionOrder(p, events);
    OrderIsDecided(p, events);
    OrdersAreDistinct(p, events);
    ListedIffDecided(p, events, id);
    i :| 0 <= i < |ids| && ids[i] == id;
    InvocationAt(p, events, ids, i);
    forall j | 0 <= j < |ids|
      ensures Invocations(p, events, ids)[j].decisionEventId == ids[j]
    {
      InvocationAt(p, events, ids, j);
    }
  }

  function CountOutcomes(events: seq<Event>): nat {
    if |events| == 0 then 0
    else CountOutcomes(events[..|events| - 1]) + if IsOutcome(events[|events| - 1]) then 1 else 0
  }

  // How many outcomes refer to one of the given ids, counted id by id.
  function LinkedTo(p: Primitives, events: seq<Event>, ids: seq<string>): nat {
    if |ids| == 0 then 0
    else LinkedTo(p, events, ids[..|ids| - 1]) + |OutcomesOf(p, events, ids[|ids| - 1])|
  }

  function CountCode(issues: seq<AuditIssue>, code: AuditCode): nat {
    if |issues| == 0 then 0
    else CountCode(issues[..|issues| - 1], code) + if issues[|issues| - 1].code == code then 1 else 0
  }

  lemma {:induction false} CountCodeAppend(a: seq<AuditIssue>, b: seq<AuditIssue>, code: AuditCode)
    ensures CountCode(a + b, code) == CountCode(a, code) + CountCode(b, code)
  {
    if |b| == 0 {
      assert a + b == a;
    } else {
      CountCodeAppend(a, b[..|b| - 1], code);
      assert (a + b)[..|a + b| - 1] == a + b[..|b| - 1];
    }
  }

  lemma {:induction false} CountCodeUniform(issues: seq<AuditIssue>, code: AuditCode, uniform: AuditCode)
    requires forall i :: 0 <= i < |issues| ==> issues[i].code == uniform
    ensures CountCode(issues, code) == if code == uniform then |issues| else 0
  {
    if |issues| > 0 {
      CountCodeUniform(issues[..|issues| - 1], code, uniform);
    }
  }

  // A new event adds one to the count of the ids exactly when it is an
  // outcome that refers to one of them.
  lemma {:induction false} LinkedToSnoc(p: Primitives, events: seq<Event>, ids: seq<string>)
    requires |events| > 0 && Distinct(ids)
    ensures var n := |events| - 1;
            LinkedTo(p, events, ids) == LinkedTo(p, events[..n], ids)
                                        + if IsOutcome(events[n]) && Ref(p, events[n]) in ids then 1 else 0
  {
    var n, m := |events| - 1, |ids| - 1;
    if m >= 0 {
      DistinctInit(ids);
      LinkedToSnoc(p, events, ids[..m]);
    }
  }

  // Grouping by id loses no outcome.
  lemma {:induction false} LinkedToAll(p: Primitives, events: seq<Event>, ids: seq<string>)
    requires Distinct(ids)
    requires forall o :: 0 <= o < |events| && IsOutcome(events[o]) ==> Ref(p, events[o]) in ids
    ensures LinkedTo(p, events, ids) == CountOutcomes(events)
  {
    if |events| == 0 {
      LinkedToNothing(p, events, ids);
    } else {
      var before := events[..|events| - 1];
      assert forall j :: 0 <= j < |before| ==> before[j] == events[j];
      LinkedToSnoc(p, events, ids);
      LinkedToAll(p, before, ids);
    }
  }

  lemma {:induction false} LinkedToNothing(p: Primitives, events: seq<Event>, ids: seq<string>)
    requires events == []
    ensures LinkedTo(p, events, ids) == 0
  {
    if |ids| > 0 {
      LinkedToNothing(p, events, ids[..|ids| - 1]);
    }
  }

  predicate HasDecision(p: Primitives, events: seq<Event>, id: string) {
    DecisionOf(p, events, id).Some?
  }

  // The ids of the list that belong to a decision.
  function Decideds(p: Primitives, events: seq<Event>, ids: seq<string>): seq<string> {
    if |ids| == 0 then []
    else
      var m := |ids| - 1;
      Decideds(p, events, ids[..m]) + if HasDecision(p, events, ids[m]) then [ids[m]] else []
  }

  // The orphans reported for a list of ids are the outcomes of its undecided ids.
  lemma {:induction false} OrphansCount(p: Primitives, events: seq<Event>, ids: seq<string>)
    ensures CountCode(AllRefIssues(p, events, ids), OrphanOutcome) + LinkedTo(p, events, Decideds(p, events, ids))
            == LinkedTo(p, events, ids)
  {
    hide OutcomesOf, HasDecision, RefIssues;
    if |ids| > 0 {
      var m := |ids| - 1;
      OrphansCount(p, events, ids[..m]);
      CountCodeAppend(AllRefIssues(p, events, ids[..m]), RefIssues(p, events, ids[m]), OrphanOutcome);
      OrphansOfRef(p, events, ids[m]);
      if HasDecision(p, events, ids[m]) {
        var decideds := Decideds(p, events, ids[..m]) + [ids[m]];
        assert decideds[..|decideds| - 1] == Decideds(p, events, ids[..m]);
      } else {
        assert Decideds(p, events, ids) == Decideds(p, events, ids[..m]);
      }
    }
  }

  lemma OrphansOfRef(p: Primitives, events: seq<Event>, id: string)
    ensures CountCode(RefIssues(p, events, id), OrphanOutcome)
            == if HasDecision(p, events, id) then 0 else |OutcomesOf(p, events, id)|
  {
    hide OutcomesOf, DecisionOf, CountCode, AttachedIssues;
    var linked := OutcomesOf(p, events, id);
    match DecisionOf(p, events, id)
    case None =>
      CountCodeUniform(OrphanIssues(p, events, linked), OrphanOutcome, OrphanOutcome);
    case Some(d) =>
      var duplicate := Flag(|linked| > 1, DuplicateOutcome, id);
      CountCodeUniform(duplicate, OrphanOutcome, DuplicateOutcome);
      AttachedAreNotOrphans(p, events, d, linked);
      CountCodeAppend(duplicate, AttachedIssues(p, events, d, linked), OrphanOutcome);
  }

  lemma {:induction false} AttachedAreNotOrphans(p: Primitives, events: seq<Event>, d: nat, linked: seq<nat>)
    requires d < |events| && Positions(events, linked)
    ensures CountCode(AttachedIssues(p, events, d, linked), OrphanOutcome) == 0
  {
    hide OutcomeIssues;
    if |linked| > 0 {
      var m := |linked| - 1;
      AttachedAreNotOrphans(p, events, d, linked[..m]);
      OutcomeIssuesAreNotOrphans(p, events, d, linked[m]);
      CountCodeAppend(AttachedIssues(p, events, d, linked[..m]), OutcomeIssues(p, events, d, linked[m]), OrphanOutcome);
    }
  }

  lemma OutcomeIssuesAreNotOrphans(p: Primitives, events: seq<Event>, d: nat, o: nat)
    requires d < |events| && o < |events|
    ensures CountCode(OutcomeIssues(p, events, d, o), OrphanOutcome) == 0
  {
    hide CountCode, SameField, KnownStatus, Id, Get, Flag;
    var decision, outcome := events[d], events[o];
    var id := Id(p, outcome);
    var a := Flag(o <= d, OutcomeBeforeDecision, id);
    var b := AppendFlag(a, Get(decision, Decision) != ALLOWED, OutcomeForDeniedDecision, id);
    var c := AppendFlag(b, !SameField(outcome, decision, ActionId), OutcomeIdentityMismatch, id);
    var e := AppendFlag(c, !SameField(outcome, decision, ActionName), OutcomeIdentityMismatch, id);
    var f := AppendFlag(e, !SameField(outcome, decision, ContractHash), OutcomeIdentityMismatch, id);
    var g := AppendFlag(f, !KnownStatus(outcome), InvalidOutcomeStatus, id);
    FlagIsNoOrphan(o <= d, OutcomeBeforeDecision, id);
  }

  lemma AppendFlag(issues: seq<AuditIssue>, condition: bool, code: AuditCode, id: string) returns (all: seq<AuditIssue>)
    requires code != OrphanOutcome
    ensures all == issues + Flag(condition, code, id)
    ensures CountCode(all, OrphanOutcome) == CountCode(issues, OrphanOutcome)
  {
    all := issues + Flag(condition, code, id);
    CountCodeAppend(issues, Flag(condition, code, id), OrphanOutcome);
    FlagIsNoOrphan(condition, code, id);
  }

  lemma FlagIsNoOrphan(condition: bool, code: AuditCode, id: string)
    requires code != OrphanOutcome
    ensures CountCode(Flag(condition, code, id), OrphanOutcome) == 0
  {
    CountCodeUniform(Flag(condition, code, id), OrphanOutcome, code);
  }

  // An invocation takes the outcomes that refer to its decision, so summing
  // over the invocations is summing over the decided ids outcomes refer to.
  lemma {:induction false} SameSum(p: Primitives, events: seq<Event>, a: seq<string>, b: seq<string>)
    requires Distinct(a)
    requires Distinct(b)
    requires forall o :: 0 <= o < |events| && IsOutcome(events[o]) ==>
               (Ref(p, events[o]) in a <==> Ref(p, events[o]) in b)
    ensures LinkedTo(p, events, a) == LinkedTo(p, events, b)
  {
    if |events| == 0 {
      LinkedToNothing(p, events, a);
      LinkedToNothing(p, events, b);
    } else {
      var before := events[..|events| - 1];
      assert forall j :: 0 <= j < |before| ==> before[j] == events[j];
      LinkedToSnoc(p, events, a);
      LinkedToSnoc(p, events, b);
      SameSum(p, before, a, b);
    }
  }

  lemma {:induction false} DecidedsContents(p: Primitives, events: seq<Event>, ids: seq<string>)
    requires Distinct(ids)
    ensures var decideds := Decideds(p, events, ids);
            && (forall id :: id in decideds <==> id in ids && HasDecision(p, events, id))
            && (Distinct(decideds))
  {
    if |ids| > 0 {
      hide HasDecision, Distinct;
      var m := |ids| - 1;
      DistinctInit(ids);
      DecidedsContents(p, events, ids[..m]);
      if HasDecision(p, events, ids[m]) {
        DistinctSnoc(Decideds(p, events, ids[..m]), ids[m]);
      }
    }
  }

  // Conservation: every outcome event is either one reported orphan or belongs
  // to exactly one invocation; nothing is counted twice and nothing is lost.
  lemma OutcomesAreConserved(p: Primitives, events: seq<Event>)
    ensures CountCode(AuditOf(p, events).issues, OrphanOutcome) + LinkedTo(p, events, DecisionOrder(p, events))
            == CountOutcomes(events)
  {
    hide *;
    var refs, ids := RefOrder(p, events), DecisionOrder(p, events);
    OnlyRefIssuesAreOrphans(p, events);
    OrdersAreDistinct(p, events);
    OrphansCount(p, events, refs);
    DecidedsContents(p, events, refs);
    forall o | 0 <= o < |events| && IsOutcome(events[o])
      ensures Ref(p, events[o]) in refs
      ensures Ref(p, events[o]) in ids <==> HasDecision(p, events, Ref(p, events[o]))
    {
      OutcomesOfAreAll(p, events, Ref(p, events[o]));
      ReferredIffLinked(p, events, Ref(p, events[o]));
      ListedIffHasDecision(p, events, Ref(p, events[o]));
    }
    LinkedToAll(p, events, refs);
    SameSum(p, events, Decideds(p, events, refs), ids);
  }

  // Where each outcome event ends up: without a decision under its reference
  // it is reported as an orphan and no invocation has that reference; otherwise
  // it is among the linked outcomes of exactly one invocation.
  lemma EachOutcomeHasItsPlace(p: Primitives, events: seq<Event>, o: nat) returns (i: nat)
    requires o < |events| && IsOutcome(events[o])
    ensures var id := Ref(p, events[o]);
            var report := AuditOf(p, events);
            && o in OutcomesOf(p, events, id)
            && (DecisionOf(p, events, id).None? ==>
                  && AuditIssue(OrphanOutcome, Id(p, events[o])) in report.issues
                  && forall k :: 0 <= k < |report.invocations| ==> report.invocations[k].decisionEventId != id)
            && (DecisionOf(p, events, id).Some? ==> ReportedAt(p, events, id, i))
  {
    hide DecisionOf, OutcomesOf, ReportedAt, RefOrder, DecisionOrder, DuplicateIssues, DecisionIssues, AllRefIssues;
    var id := Ref(p, events[o]);
    i := 0;
    OutcomesOfAreAll(p, events, id);
    if DecisionOf(p, events, id).Some? {
      i := PlaceOf(p, events, id);
    } else {
      ReferredIffLinked(p, events, id);
      OrphanIsReported(p, events, OutcomesOf(p, events, id), o);
      RefIssuesAreListed(p, events, RefOrder(p, events), id, AuditIssue(OrphanOutcome, Id(p, events[o])));
      OrderIsDecided(p, events);
      ListedIffDecided(p, events, id);
      forall k | 0 <= k < |DecisionOrder(p, events)|
        ensures Invocations(p, events, DecisionOrder(p, events))[k].decisionEventId != id
      {
        InvocationAt(p, events, DecisionOrder(p, events), k);
      }
    }
  }

  lemma OrphanIsReported(p: Primitives, events: seq<Event>, linked: seq<nat>, o: nat)
    requires Positions(events, linked) && o in linked
    ensures AuditIssue(OrphanOutcome, Id(p, events[o])) in OrphanIssues(p, events, linked)
  {
    var k :| 0 <= k < |linked| && linked[k] == o;
    assert OrphanIssues(p, events, linked)[k] == AuditIssue(OrphanOutcome, Id(p, events[o]));
  }

  lemma {:induction false} RefIssuesAreListed(p: Primitives, events: seq<Event>, ids: seq<string>, id: string,
                                              issue: AuditIssue)
    requires id in ids && issue in RefIssues(p, events, id)
    ensures issue in AllRefIssues(p, events, ids)
  {
    hide RefIssues;
    var m := |ids| - 1;
    if ids[m] != id {
      RefIssuesAreListed(p, events, ids[..m], id, issue);
    }
  }

  lemma OnlyRefIssuesAreOrphans(p: Primitives, events: seq<Event>)
    ensures CountCode(AuditOf(p, events).issues, OrphanOutcome)
            == CountCode(AllRefIssues(p, events, RefOrder(p, events)), OrphanOutcome)
  {
    hide CountCode, AllRefIssues, DuplicateIssues, DecisionIssues, RefOrder, DecisionOrder;
    OrderIsDecided(p, events);
    var duplicates, links := DuplicateIssues(p, events), AllRefIssues(p, events, RefOrder(p, events));
    var unknown := DecisionIssues(p, events, DecisionOrder(p, events));
    CountCodeAppend(duplicates, links, OrphanOutcome);
    CountCodeAppend(duplicates + links, unknown, OrphanOutcome);
    DuplicatesAreNotOrphans(p, events);
    UnknownAreNotOrphans(p, events, DecisionOrder(p, events));
  }

  lemma {:induction false} DuplicatesAreNotOrphans(p: Primitives, events: seq<Event>)
    ensures CountCode(DuplicateIssues(p, events), OrphanOutcome) == 0
  {
    hide Seen;
    if |events| > 0 {
      var n := |events| - 1;
      var id := Id(p, events[n]);
      DuplicatesAreNotOrphans(p, events[..n]);
      var last := if Seen(p, events[..n], id) then [AuditIssue(DuplicateEventId, id)] else [];
      CountCodeUniform(last, OrphanOutcome, DuplicateEventId);
      CountCodeAppend(DuplicateIssues(p, events[..n]), last, OrphanOutcome);
    }
  }

  lemma {:induction false} UnknownAreNotOrphans(p: Primitives, events: seq<Event>, ids: seq<string>)
    requires Decided(p, events, ids)
    ensures CountCode(DecisionIssues(p, events, ids), OrphanOutcome) == 0
  {
    hide KnownDecision, DecisionOf;
    if |ids| > 0 {
      var m := |ids| - 1;
      UnknownAreNotOrphans(p, events, ids[..m]);
      var all := AppendFlag(DecisionIssues(p, events, ids[..m]),
                            !KnownDecision(events[DecisionOf(p, events, ids[m]).value]), InvalidDecision, ids[m]);
    }
  }

  lemma ListedIffHasDecision(p: Primitives, events: seq<Event>, id: string)
    ensures id in DecisionOrder(p, events) <==> HasDecision(p, events, id)
  {
    hide DecisionOf, DecisionOrder;
    ListedIffDecided(p, events, id);
  }

  // ----- the status of an invocation, in every journal -----

  // The one outcome that refers to the id.
  ghost predicate OnlyOutcome(p: Primitives, events: seq<Event>, id: string, o: nat) {
    && o < |events| && IsOutcome(events[o]) && Ref(p, events[o]) == id
    && forall k :: 0 <= k < |events| && IsOutcome(events[k]) && Ref(p, events[k]) == id ==> k == o
  }

  ghost predicate OnlyOutcomeWith(p: Primitives, events: seq<Event>, id: string, status: Json) {
    exists o: nat :: OnlyOutcome(p, events, id, o) && Get(events[o], Status) == status
  }

  predicate NoOutcome(p: Primitives, events: seq<Event>, id: string) {
    forall k :: 0 <= k < |events| && IsOutcome(events[k]) ==> Ref(p, events[k]) != id
  }

  // What the audit reports of any journal, whether its issues are none or many:
  // succeeded or failed exactly when the first decision under the id is allowed
  // and exactly one outcome refers to it, with that status; denied exactly when
  // the decision is denied and no outcome refers to it.
  lemma StatusExact(p: Primitives, events: seq<Event>, id: string)
    requires DecisionOf(p, events, id).Some?
    ensures var decision := events[DecisionOf(p, events, id).value];
            var status := InvocationOf(p, events, id).status;
            && (status == Succeeded <==>
                  Get(decision, Decision) == ALLOWED && OnlyOutcomeWith(p, events, id, SUCCEEDED))
            && (status == Failed <==> Get(decision, Decision) == ALLOWED && OnlyOutcomeWith(p, events, id, FAILED))
            && (status == Denied <==> Get(decision, Decision) == DENIED && NoOutcome(p, events, id))
  {
    hide DecisionOf, OutcomesOf, Ref;
    OutcomesOfAreAll(p, events, id);
    var linked := OutcomesOf(p, events, id);
    assert |linked| > 1 ==> linked[0] < linked[1];
    LinkedExactly(p, events, id, linked);
    if |linked| == 1 {
      assert OnlyOutcome(p, events, id, linked[0]);
    }
  }

  lemma LinkedExactly(p: Primitives, events: seq<Event>, id: string, linked: seq<nat>)
    requires forall o :: o in linked <==> 0 <= o < |events| && IsOutcome(events[o]) && Ref(p, events[o]) == id
    requires |linked| > 1 ==> linked[0] < linked[1]
    ensures |linked| == 0 <==> NoOutcome(p, events, id)
    ensures forall o: nat :: OnlyOutcome(p, events, id, o) <==> linked == [o]
  {
    hide Ref, IsOutcome;
    if |linked| > 0 {
      assert linked[0] in linked;
    }
    forall o: nat | OnlyOutcome(p, events, id, o)
      ensures linked == [o]
    {
      assert o in linked;
      assert forall k :: 0 <= k < |linked| ==> linked[k] in linked;
      assert forall k :: 0 <= k < |linked| ==> linked[k] == o;
    }
    forall o: nat | linked == [o]
      ensures OnlyOutcome(p, events, id, o)
    {
      assert o in linked;
    }
  }

  // ----- the status of an invocation in a coherent history -----

  ghost predicate AnsweredWith(p: Primitives, events: seq<Event>, d: nat, status: Json)
    requires d < |events|
  {
    exists o :: 0 <= o < |events| && Answers(p, events, o, d) && Get(events[o], Status) == status
  }

  // The invocation of decision d reports succeeded or failed exactly when an
  // outcome of that status answers it, denied exactly when the decision was
  // not allowed, and asks for reconciliation exactly when the action was
  // allowed and nothing answers.
  lemma CoherentStatus(p: Primitives, events: seq<Event>, d: nat)
    requires Coherent(p, events) && d < |events| && IsDecision(events[d])
    ensures DecisionOf(p, events, Id(p, events[d])) == Some(d)
    ensures var status := InvocationOf(p, events, Id(p, events[d])).status;
            && (status == Denied <==> Get(events[d], Decision) != ALLOWED)
            && (status == Succeeded <==> AnsweredWith(p, events, d, SUCCEEDED))
            && (status == Failed <==> AnsweredWith(p, events, d, FAILED))
            && (status == NeedsReconciliation <==>
                  Get(events[d], Decision) == ALLOWED
                  && forall o :: 0 <= o < |events| ==> !Answers(p, events, o, d))
  {
    hide DecisionOf, OutcomesOf, Answers, RefIssues, Id, DistinctIds, OutcomesAnswer, OneOutcomeEach;
    var id := Id(p, events[d]);
    DecisionOfUnique(p, events, d);
    ReportFromRefRules(p, events, id);
    CleanRef(p, events, id);
    OutcomesOfAreAll(p, events, id);
    var linked := OutcomesOf(p, events, id);
    forall o | 0 <= o < |events| && Answers(p, events, o, d)
      ensures linked == [o] && Get(events[d], Decision) == ALLOWED && KnownStatus(events[o])
    {
      AnswersAfter(p, events, o, d);
      assert o in linked;
    }
    if linked != [] {
      assert Answers(p, events, linked[0], d);
    }
  }
}
