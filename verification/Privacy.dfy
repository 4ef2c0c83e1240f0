// Which arguments stay readable in signed evidence: the retention list the
// guard writes, and the two classifiers that read it back.
module Privacy {
  import opened Wrappers
  import opened Json
  import opened JsonText
  import opened JsonTextLaws
  import opened Summary
  import Canonical
  import opened Evidence

  const UNKNOWN_ACTION: string := "<unknown-action>"

  // ----- the writer -----

  function StateOf(value: Json): string {
    if value == JStr(Canonical.REDACTED) then "redacted"
    else if value.JStr? && Canonical.UNSUPPORTED_MARKER <= value.s then "unsupported"
    else "retained"
  }

  function Record(field: (string, Json)): Json {
    JObj([("name", JStr(field.0)), ("state", JStr(StateOf(field.1)))])
  }

  function Records(fields: seq<(string, Json)>): (records: seq<Json>)
    ensures |records| == |fields|
  {
    seq(|fields|, i requires 0 <= i < |fields| => Record(fields[i]))
  }

  // The retention list of an argument map, in the order of its sorted names.
  function RetentionOf(fields: seq<(string, Json)>): Json {
    JArr(Records(FromPairs(fields)))
  }

  method RecordRetention(fields: seq<(string, Json)>) returns (retention: Json)
    ensures retention == RetentionOf(fields)
  {
    var table := FromPairs(fields);
    var records: seq<Json> := [];
    for i := 0 to |table|
      invariant records == Records(table[..i])
    {
      var (name, value) := table[i];
      var state: string;
      if value == JStr(Canonical.REDACTED) {
        state := "redacted";
      } else if value.JStr? && Canonical.UNSUPPORTED_MARKER <= value.s {
        state := "unsupported";
      } else {
        state := "retained";
      }
      records := records + [JObj([("name", JStr(name)), ("state", JStr(state))])];
    }
    assert table[..|table|] == table;
    return JArr(records);
  }

  // ----- sorted() on names -----

  function Insert(name: string, names: seq<string>): seq<string> {
    if |names| == 0 then [name]
    else if Less(names[0], name) then [names[0]] + Insert(name, names[1..])
    else [name] + names
  }

  function SortNames(names: seq<string>): seq<string> {
    if |names| == 0 then [] else Insert(names[|names| - 1], SortNames(names[..|names| - 1]))
  }

  predicate NamesInOrder(names: seq<string>) {
    forall i, j :: 0 <= i < j < |names| ==> Less(names[i], names[j])
  }

  lemma {:induction false} InsertHolds(name: string, names: seq<string>)
    ensures multiset(Insert(name, names)) == multiset(names) + multiset{name}
    decreases |names|
  {
    if |names| > 0 {
      assert names == [names[0]] + names[1..];
      InsertHolds(name, names[1..]);
    }
  }

  lemma {:induction false} SortKeepsNames(names: seq<string>)
    ensures multiset(SortNames(names)) == multiset(names)
  {
    if |names| > 0 {
      var n := |names| - 1;
      assert names == names[..n] + [names[n]];
      SortKeepsNames(names[..n]);
      InsertHolds(names[n], SortNames(names[..n]));
    }
  }

  lemma {:induction false} InsertLast(name: string, names: seq<string>)
    requires forall i :: 0 <= i < |names| ==> Less(names[i], name)
    ensures Insert(name, names) == names + [name]
    decreases |names|
  {
    if |names| > 0 {
      InsertLast(name, names[1..]);
      assert [names[0]] + (names[1..] + [name]) == names + [name];
    }
  }

  lemma {:induction false} SortOfOrdered(names: seq<string>)
    requires NamesInOrder(names)
    ensures SortNames(names) == names
  {
    if |names| > 0 {
      var n := |names| - 1;
      SortOfOrdered(names[..n]);
      InsertLast(names[n], names[..n]);
      assert names[..n] + [names[n]] == names;
    }
  }

  // ----- the classifier of retention lists -----

  datatype Classification = FullyRedacted | PartiallyRedacted | NoArguments | Unknown

  // Crashed: the code looks an unhashable state up in a set.
  datatype Verdict = Crashed | Verdict(classification: Classification, names: seq<string>)

  // dict.get on a parsed object, where the last entry for a key counts.
  function Lookup(fields: seq<(string, Json)>, key: string): Json {
    if |fields| == 0 then JNull
    else if fields[|fields| - 1].0 == key then fields[|fields| - 1].1
    else Lookup(fields[..|fields| - 1], key)
  }

  datatype Reading = Stop(verdict: Verdict) | All(names: seq<string>, states: seq<string>)

  predicate IsState(j: Json) {
    j == JStr("redacted") || j == JStr("retained") || j == JStr("unsupported")
  }

  function ReadRecord(record: Json, names: seq<string>, states: seq<string>): Reading {
    if !record.JObj? || !Lookup(record.fields, "name").JStr? then Stop(Verdict(Unknown, names))
    else if !Hashable(Lookup(record.fields, "state")) then Stop(Crashed)
    else if !IsState(Lookup(record.fields, "state")) then Stop(Verdict(Unknown, names))
    else
      var name := Lookup(record.fields, "name").s;
      if name in names then Stop(Verdict(Unknown, names))
      else All(names + [name], states + [Lookup(record.fields, "state").s])
  }

  function ReadRecords(records: seq<Json>): Reading {
    if |records| == 0 then All([], [])
    else
      match ReadRecords(records[..|records| - 1])
      case Stop(verdict) => Stop(verdict)
      case All(names, states) => ReadRecord(records[|records| - 1], names, states)
  }

  // The names whose state is the given one, in order.
  function Selected(names: seq<string>, states: seq<string>, state: string): seq<string>
    requires |names| == |states|
  {
    if |names| == 0 then []
    else
      var n := |names| - 1;
      Selected(names[..n], states[..n], state) + if states[n] == state then [names[n]] else []
  }

  lemma {:induction false} ReadingPairsUp(records: seq<Json>)
    ensures ReadRecords(records).All? ==> |ReadRecords(records).names| == |ReadRecords(records).states| == |records|
  {
    if |records| > 0 {
      ReadingPairsUp(records[..|records| - 1]);
    }
  }

  function ClassifyRetention(retention: Json): Verdict {
    if !retention.JArr? then Verdict(Unknown, [])
    else if retention.items == [] then Verdict(NoArguments, [])
    else
      match ReadRecords(retention.items)
      case Stop(verdict) => verdict
      case All(names, states) =>
        ReadingPairsUp(retention.items);
        if "unsupported" in states then Verdict(Unknown, SortNames(names))
        else if "retained" in states then Verdict(PartiallyRedacted, Selected(names, states, "retained"))
        else Verdict(FullyRedacted, [])
  }

  lemma {:induction false} StopIsFinal(records: seq<Json>, n: nat)
    requires n <= |records| && ReadRecords(records[..n]).Stop?
    ensures ReadRecords(records) == ReadRecords(records[..n])
  {
    hide ReadRecord;
    if n == |records| {
      assert records[..n] == records;
    } else {
      var m := |records| - 1;
      assert records[..m][..n] == records[..n];
      StopIsFinal(records[..m], n);
    }
  }

  method ClassifyRetentionList(retention: Json) returns (verdict: Verdict)
    ensures verdict == ClassifyRetention(retention)
  {
    hide ReadRecord, SortNames, Selected;
    if !retention.JArr? {
      return Verdict(Unknown, []);
    }
    if retention.items == [] {
      return Verdict(NoArguments, []);
    }
    var records := retention.items;
    var names: seq<string>, states: seq<string> := [], [];
    for i := 0 to |records|
      invariant ReadRecords(records[..i]) == All(names, states)
    {
      assert records[..i + 1][..i] == records[..i];
      var next := ReadRecord(records[i], names, states);
      assert ReadRecords(records[..i + 1]) == next;
      if next.Stop? {
        StopIsFinal(records, i + 1);
        return next.verdict;
      }
      names, states := next.names, next.states;
    }
    assert records[..|records|] == records;
    ReadingPairsUp(records);
    if "unsupported" in states {
      return Verdict(Unknown, SortNames(names));
    }
    if "retained" in states {
      return Verdict(PartiallyRedacted, Selected(names, states, "retained"));
    }
    return Verdict(FullyRedacted, []);
  }

  // ----- the classifier of summaries -----

  // The names of the arguments whose value has the given state, in order.
  function NamesWith(fields: seq<(string, Json)>, state: string): seq<string> {
    if |fields| == 0 then []
    else
      var n := |fields| - 1;
      NamesWith(fields[..n], state) + if StateOf(fields[n].1) == state then [fields[n].0] else []
  }

  function ParsedVerdict(fields: seq<(string, Json)>): Verdict {
    var retained, unsupported := NamesWith(fields, "retained"), NamesWith(fields, "unsupported");
    if unsupported != [] then Verdict(Unknown, SortNames(retained + unsupported))
    else if retained != [] then Verdict(PartiallyRedacted, SortNames(retained))
    else Verdict(FullyRedacted, [])
  }

  function ClassifySummary(h: Numbers, isIdentifier: string -> bool, summary: Json): Verdict {
    if !summary.JStr? then Verdict(Unknown, [])
    else if summary.s == "" then Verdict(NoArguments, [])
    else
      var parsed := ParseExact(h, isIdentifier, summary.s);
      if parsed.fields.None? then Verdict(Unknown, parsed.names) else ParsedVerdict(parsed.fields.value)
  }

  method ClassifySummaryText(h: Numbers, isIdentifier: string -> bool, summary: Json) returns (verdict: Verdict)
    ensures verdict == ClassifySummary(h, isIdentifier, summary)
  {
    hide ParseExact, SortNames;
    if !summary.JStr? {
      return Verdict(Unknown, []);
    }
    if summary.s == "" {
      return Verdict(NoArguments, []);
    }
    var parsed := ParseExactSummary(h, isIdentifier, summary.s);
    if parsed.fields.None? {
      return Verdict(Unknown, parsed.names);
    }
    var fields := parsed.fields.value;
    var retained: seq<string>, unsupported: seq<string> := [], [];
    for i := 0 to |fields|
      invariant retained == NamesWith(fields[..i], "retained")
      invariant unsupported == NamesWith(fields[..i], "unsupported")
    {
      assert fields[..i + 1][..i] == fields[..i];
      var (name, value) := fields[i];
      if value == JStr(Canonical.REDACTED) {
        continue;
      }
      if value.JStr? && Canonical.UNSUPPORTED_MARKER <= value.s {
        unsupported := unsupported + [name];
        continue;
      }
      retained := retained + [name];
    }
    assert fields[..|fields|] == fields;
    if unsupported != [] {
      return Verdict(Unknown, SortNames(retained + unsupported));
    }
    if retained != [] {
      return Verdict(PartiallyRedacted, SortNames(retained));
    }
    return Verdict(FullyRedacted, []);
  }

  // A decision event: the retention list when there is one, else the summary.
  function ClassifyEvent(h: Numbers, isIdentifier: string -> bool, e: Event): Verdict {
    if Get(e, ParameterRetention) == JNull then ClassifySummary(h, isIdentifier, Get(e, RedactedInputSummary))
    else ClassifyRetention(Get(e, ParameterRetention))
  }

  method ClassifyDecisionEvent(h: Numbers, isIdentifier: string -> bool, e: Event) returns (verdict: Verdict)
    ensures verdict == ClassifyEvent(h, isIdentifier, e)
  {
    var retention := Get(e, ParameterRetention);
    if retention == JNull {
      verdict := ClassifySummaryText(h, isIdentifier, Get(e, RedactedInputSummary));
    } else {
      verdict := ClassifyRetentionList(retention);
    }
  }

  // ----- the inspection of a journal -----

  datatype Action = Action(name: string, verdict: Verdict)

  datatype Tally = Tally(decisions: nat, outcomes: nat, allowed: nat, denied: nat, succeeded: nat, failed: nat)

  datatype Inspection =
    | InspectionCrashed
    | Inspection(tally: Tally, actions: seq<Action>)

  function CountOf(actions: seq<Action>, c: Classification): nat {
    if |actions| == 0 then 0
    else
      var n := |actions| - 1;
      CountOf(actions[..n], c) + Bit(actions[n].verdict.Verdict? && actions[n].verdict.classification == c)
  }

  // A truth value added to a counter.
  function Bit(b: bool): nat {
    if b then 1 else 0
  }

  function NameOfAction(e: Event): string {
    if Get(e, ActionName).JStr? then Get(e, ActionName).s else UNKNOWN_ACTION
  }

  function TallyDecision(t: Tally, e: Event): Tally {
    t.(decisions := t.decisions + 1,
       allowed := t.allowed + Bit(Get(e, Decision) == ALLOWED),
       denied := t.denied + Bit(Get(e, Decision) == DENIED))
  }

  function TallyOutcome(t: Tally, e: Event): Tally {
    t.(outcomes := t.outcomes + 1,
       succeeded := t.succeeded + Bit(Get(e, Status) == SUCCEEDED),
       failed := t.failed + Bit(Get(e, Status) == FAILED))
  }

  function InspectOf(h: Numbers, isIdentifier: string -> bool, events: seq<Event>): Inspection {
    if |events| == 0 then Inspection(Tally(0, 0, 0, 0, 0, 0), [])
    else
      var e := events[|events| - 1];
      match InspectOf(h, isIdentifier, events[..|events| - 1])
      case InspectionCrashed => InspectionCrashed
      case Inspection(t, actions) =>
        if Get(e, EventType) == DECISION then
          var verdict := ClassifyEvent(h, isIdentifier, e);
          if verdict.Crashed? then InspectionCrashed
          else Inspection(TallyDecision(t, e), actions + [Action(NameOfAction(e), verdict)])
        else if Get(e, EventType) == OUTCOME then Inspection(TallyOutcome(t, e), actions)
        else Inspection(t, actions)
  }

  predicate SafeForUpload(actions: seq<Action>) {
    CountOf(actions, PartiallyRedacted) == 0 && CountOf(actions, Unknown) == 0
  }

  lemma {:induction false} CrashIsFinal(h: Numbers, isIdentifier: string -> bool, events: seq<Event>, n: nat)
    requires n <= |events| && InspectOf(h, isIdentifier, events[..n]).InspectionCrashed?
    ensures InspectOf(h, isIdentifier, events).InspectionCrashed?
  {
    hide ClassifyEvent;
    if n == |events| {
      assert events[..n] == events;
    } else {
      var m := |events| - 1;
      assert events[..m][..n] == events[..n];
      CrashIsFinal(h, isIdentifier, events[..m], n);
    }
  }

  // inspect_verified_snapshot: the counters, the action list, and whether the
  // journal is safe to upload.
  method InspectVerifiedSnapshot(h: Numbers, isIdentifier: string -> bool, events: seq<Event>)
    returns (r: Inspection, safe: bool)
    ensures r == InspectOf(h, isIdentifier, events)
    ensures safe <==> r.Inspection? && SafeForUpload(r.actions)
  {
    hide ClassifyEvent, NameOfAction;
    var decisions: nat, outcomes: nat, allowed: nat, denied: nat, succeeded: nat, failed: nat := 0, 0, 0, 0, 0, 0;
    var actions: seq<Action> := [];
    for i := 0 to |events|
      invariant InspectOf(h, isIdentifier, events[..i]) ==
                Inspection(Tally(decisions, outcomes, allowed, denied, succeeded, failed), actions)
    {
      var e := events[i];
      assert events[..i + 1][..i] == events[..i];
      if Get(e, EventType) == DECISION {
        decisions := decisions + 1;
        allowed := allowed + Bit(Get(e, Decision) == ALLOWED);
        denied := denied + Bit(Get(e, Decision) == DENIED);
        var verdict := ClassifyDecisionEvent(h, isIdentifier, e);
        if verdict.Crashed? {
          CrashIsFinal(h, isIdentifier, events, i + 1);
          return InspectionCrashed, false;
        }
        actions := actions + [Action(NameOfAction(e), verdict)];
      } else if Get(e, EventType) == OUTCOME {
        outcomes := outcomes + 1;
        succeeded := succeeded + Bit(Get(e, Status) == SUCCEEDED);
        failed := failed + Bit(Get(e, Status) == FAILED);
      }
    }
    assert events[..|events|] == events;
    r := Inspection(Tally(decisions, outcomes, allowed, denied, succeeded, failed), actions);
    safe := CountOf(actions, PartiallyRedacted) == 0 && CountOf(actions, Unknown) == 0;
  }
}
