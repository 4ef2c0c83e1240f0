// What the privacy inspection says of any journal and of any retention list,
// told from the events and the records alone.
module InspectionLaws {
  import opened Wrappers
  import opened Json
  import opened JsonText
  import opened Evidence
  import opened Summary
  import opened Privacy

  // ----- retention lists, whoever wrote them -----

  predicate Records(record: Json, name: string, state: string) {
    record.JObj? && Lookup(record.fields, "name") == JStr(name) && Lookup(record.fields, "state") == JStr(state)
  }

  predicate IsNamed(state: string) {
    state in ["redacted", "retained", "unsupported"]
  }

  // The records name each argument once, with one of the given states.
  predicate ListsStates(records: seq<Json>, names: seq<string>, states: seq<string>) {
    && |records| == |names| == |states|
    && (forall i :: 0 <= i < |records| ==>
          Records(records[i], names[i], states[i]) && IsNamed(states[i]))
    && (forall i, j :: 0 <= i < j < |names| ==> names[i] != names[j])
  }

  lemma {:induction false} RecordsAreRead(records: seq<Json>)
    ensures forall names, states :: ListsStates(records, names, states) <==> ReadRecords(records) == All(names, states)
  {
    hide Lookup;
    if |records| == 0 {
      NothingListed(records);
    } else {
      var n := |records| - 1;
      RecordsAreRead(records[..n]);
      forall names, states
        ensures ListsStates(records, names, states) <==> ReadRecords(records) == All(names, states)
      {
        LastRecord(records, names, states);
      }
    }
  }

  lemma NothingListed(records: seq<Json>)
    requires records == []
    ensures forall names, states :: ListsStates(records, names, states) <==> ReadRecords(records) == All(names, states)
  {
  }

  // What the next record adds to what was read before it.
  lemma OneRecord(record: Json, before: seq<string>, told: seq<string>, names: seq<string>, states: seq<string>)
    ensures ReadRecord(record, before, told) == All(names, states) <==>
            |names| == |before| + 1 && |states| == |told| + 1 && names[..|before|] == before && states[..|told|] == told
            && Records(record, names[|before|], states[|told|]) && IsNamed(states[|told|])
            && names[|before|] !in before
  {
    hide Lookup;
    if |names| == |before| + 1 && |states| == |told| + 1 {
      assert names == names[..|before|] + [names[|before|]];
      assert states == states[..|told|] + [states[|told|]];
    }
  }

  // A list that names its arguments once does so without its last record too.
  lemma ListsLast(records: seq<Json>, names: seq<string>, states: seq<string>)
    requires |records| > 0
    ensures ListsStates(records, names, states) <==>
            var n := |records| - 1;
            |names| == |states| == n + 1 && ListsStates(records[..n], names[..n], states[..n])
            && Records(records[n], names[n], states[n]) && IsNamed(states[n]) && names[n] !in names[..n]
  {
    hide Records;
    var n := |records| - 1;
    if |names| == |states| == n + 1 {
      if ListsStates(records, names, states) {
        forall i | 0 <= i < n ensures names[..n][i] != names[n] {
          assert names[i] != names[n];
        }
      }
      if ListsStates(records[..n], names[..n], states[..n]) && Records(records[n], names[n], states[n])
         && IsNamed(states[n]) && names[n] !in names[..n] {
        forall i | 0 <= i < n + 1
          ensures Records(records[i], names[i], states[i]) && IsNamed(states[i])
        {
          if i < n {
            assert Records(records[..n][i], names[..n][i], states[..n][i]);
          }
        }
        forall i, j | 0 <= i < j < n + 1 ensures names[i] != names[j] {
          assert names[i] == names[..n][i];
          if j < n { assert names[j] == names[..n][j]; }
        }
      }
    }
  }

  lemma LastRecord(records: seq<Json>, names: seq<string>, states: seq<string>)
    requires |records| > 0
    requires forall a, b :: ListsStates(records[..|records| - 1], a, b) <==> ReadRecords(records[..|records| - 1]) == All(a, b)
    ensures ListsStates(records, names, states) <==> ReadRecords(records) == All(names, states)
  {
    hide ReadRecord, ReadRecords, ListsStates, Records, IsNamed;
    var n := |records| - 1;
    var before := ReadRecords(records[..n]);
    ListsLast(records, names, states);
    LastReading(records);
    if before.All? {
      ReadingPairsUp(records[..n]);
      OneRecord(records[n], before.names, before.states, names, states);
    }
    if |names| == |states| == n + 1 {
      assert ListsStates(records[..n], names[..n], states[..n]) <==> before == All(names[..n], states[..n]);
    }
  }

  lemma LastReading(records: seq<Json>)
    requires |records| > 0
    ensures var before := ReadRecords(records[..|records| - 1]);
            ReadRecords(records) ==
            if before.All? then ReadRecord(records[|records| - 1], before.names, before.states) else before
  {
    hide ReadRecord;
  }

  predicate UnhashableState(record: Json) {
    record.JObj? && Lookup(record.fields, "name").JStr?
    && (Lookup(record.fields, "state").JArr? || Lookup(record.fields, "state").JObj?)
  }

  ghost predicate Breaks(records: seq<Json>) {
    forall names, states :: !ListsStates(records, names, states)
  }

  // A list that cannot be read is read up to the first record that breaks it.
  // The verdict is unknown, under the names up to there; an unhashable state
  // makes the host raise.
  lemma {:induction false} StopsAtFirstBad(records: seq<Json>) returns (k: nat, names: seq<string>, states: seq<string>)
    requires ReadRecords(records).Stop?
    ensures k < |records| && ListsStates(records[..k], names, states)
    ensures Breaks(records[..k + 1])
    ensures ReadRecords(records) == Stop(if UnhashableState(records[k]) then Crashed else Verdict(Unknown, names))
  {
    hide ListsStates, Lookup;
    var n := |records| - 1;
    LastReading(records);
    if ReadRecords(records[..n]).Stop? {
      k, names, states := StopsAtFirstBad(records[..n]);
      assert records[..n][..k] == records[..k] && records[..n][..k + 1] == records[..k + 1];
    } else {
      k := n;
      names, states := ReadRecords(records[..n]).names, ReadRecords(records[..n]).states;
      RecordsAreRead(records[..n]);
      RecordsAreRead(records);
      assert records[..n + 1] == records;
    }
  }

  // What an unknown list is reported with: the names up to the first bad record,
  // or, if only an unsupported argument makes it unknown, all of them, sorted.
  lemma UnknownRetention(items: seq<Json>) returns (k: nat, names: seq<string>, states: seq<string>)
    requires items != []
    requires ClassifyRetention(JArr(items)).Crashed? || ClassifyRetention(JArr(items)).classification == Unknown
    ensures k <= |items| && ListsStates(items[..k], names, states)
    ensures k < |items| ==>
              && Breaks(items[..k + 1])
              && ClassifyRetention(JArr(items)) == if UnhashableState(items[k]) then Crashed else Verdict(Unknown, names)
    ensures k == |items| ==> "unsupported" in states && ClassifyRetention(JArr(items)) == Verdict(Unknown, SortNames(names))
  {
    hide ListsStates, Lookup, SortNames;
    var r := ReadRecords(items);
    if r.Stop? {
      k, names, states := StopsAtFirstBad(items);
    } else {
      k, names, states := |items|, r.names, r.states;
      assert items[..k] == items;
      RecordsAreRead(items);
    }
  }

  // The class of a retention list that names each argument once; every other
  // list is classified as unknown or is refused.
  lemma RetentionExactly(retention: Json)
    ensures retention == JArr([]) <==> ClassifyRetention(retention) == Verdict(NoArguments, [])
    ensures var v := ClassifyRetention(retention);
            v.Verdict? && v.classification == FullyRedacted <==>
            retention.JArr? && retention.items != []
            && exists names, states :: ListsStates(retention.items, names, states)
                                       && forall i :: 0 <= i < |states| ==> states[i] == "redacted"
    ensures var v := ClassifyRetention(retention);
            v.Verdict? && v.classification == PartiallyRedacted <==>
            retention.JArr?
            && exists names, states :: ListsStates(retention.items, names, states)
                                       && "retained" in states && "unsupported" !in states
    ensures var v := ClassifyRetention(retention);
            v.Verdict? && v.classification == PartiallyRedacted ==>
              forall name :: name in v.names <==>
                exists i :: 0 <= i < |retention.items| && Records(retention.items[i], name, "retained")
  {
    hide ReadRecords, ListsStates, SortNames, Lookup;
    if retention.JArr? && retention.items != [] {
      RecordsAreRead(retention.items);
      var r := ReadRecords(retention.items);
      ReadNeverAnswers(retention.items);
      if r.All? {
        assert ListsStates(retention.items, r.names, r.states);
        StatesListed(retention.items, r.names, r.states);
        SelectedExactly(retention.items, r.names, r.states);
      }
    } else if retention.JArr? {
      EmptyList(retention.items);
    }
  }

  lemma EmptyList(records: seq<Json>)
    requires records == []
    ensures forall names, states :: ListsStates(records, names, states) ==> states == []
  {
  }

  lemma {:induction false} ReadNeverAnswers(records: seq<Json>)
    ensures var r := ReadRecords(records);
            r.Stop? && r.verdict.Verdict? ==> r.verdict.classification == Unknown
  {
    hide Lookup;
    if |records| > 0 {
      ReadNeverAnswers(records[..|records| - 1]);
    }
  }

  lemma StatesListed(records: seq<Json>, names: seq<string>, states: seq<string>)
    requires ListsStates(records, names, states)
    ensures |names| == |states| == |records|
    ensures forall i :: 0 <= i < |states| ==> states[i] in ["redacted", "retained", "unsupported"]
    ensures "redacted" != "retained" && "redacted" != "unsupported" && "retained" != "unsupported"
  {
    hide Lookup;
    assert "redacted"[2] == 'd' && "retained"[2] == 't' && "unsupported"[2] == 's';
  }

  lemma SelectedExactly(records: seq<Json>, names: seq<string>, states: seq<string>)
    requires ListsStates(records, names, states)
    ensures |names| == |states|
    ensures forall name :: name in Selected(names, states, "retained") <==>
              exists i :: 0 <= i < |records| && Records(records[i], name, "retained")
  {
    hide Lookup, Selected;
    forall name
      ensures name in Selected(names, states, "retained") <==>
              exists i :: 0 <= i < |records| && Records(records[i], name, "retained")
    {
      SelectedHolds(names, states, "retained", name);
      if i :| 0 <= i < |names| && names[i] == name && states[i] == "retained" {
        assert Records(records[i], name, "retained");
      }
    }
  }

  lemma {:induction false} SelectedHolds(names: seq<string>, states: seq<string>, state: string, name: string)
    requires |names| == |states|
    ensures name in Selected(names, states, state) <==> exists i :: 0 <= i < |names| && names[i] == name && states[i] == state
  {
    if |names| > 0 {
      var n := |names| - 1;
      SelectedHolds(names[..n], states[..n], state, name);
      assert forall i :: 0 <= i < n ==> names[..n][i] == names[i] && states[..n][i] == states[i];
    }
  }

  // ----- the counters -----

  function CountKind(events: seq<Event>, kind: Json): nat {
    if |events| == 0 then 0
    else CountKind(events[..|events| - 1], kind) + if Get(events[|events| - 1], EventType) == kind then 1 else 0
  }

  function CountWith(events: seq<Event>, kind: Json, f: Field, value: Json): nat {
    if |events| == 0 then 0
    else
      var e := events[|events| - 1];
      CountWith(events[..|events| - 1], kind, f, value) + if Get(e, EventType) == kind && Get(e, f) == value then 1 else 0
  }

  // The positions of the decision events, ascending.
  function DecisionsIn(events: seq<Event>): seq<nat> {
    if |events| == 0 then []
    else
      var n := |events| - 1;
      DecisionsIn(events[..n]) + if Get(events[n], EventType) == JStr("decision") then [n] else []
  }

  lemma {:induction false} DecisionsInExactly(events: seq<Event>)
    ensures var places := DecisionsIn(events);
            && (forall i: nat :: i in places <==> i < |events| && Get(events[i], EventType) == JStr("decision"))
            && (forall j, k :: 0 <= j < k < |places| ==> places[j] < places[k])
  {
    if |events| > 0 {
      var n := |events| - 1;
      DecisionsInExactly(events[..n]);
      var before := DecisionsIn(events[..n]);
      assert forall i: nat :: i < n ==> events[..n][i] == events[i];
      assert forall j :: 0 <= j < |before| ==> before[j] in before;
      assert DecisionsIn(events) == before + if Get(events[n], EventType) == JStr("decision") then [n] else [];
    }
  }

  predicate ListsAction(h: Numbers, isIdentifier: string -> bool, e: Event, action: Action) {
    && action.name == (if Get(e, ActionName).JStr? then Get(e, ActionName).s else "<unknown-action>")
    && action.verdict == ClassifyEvent(h, isIdentifier, e)
  }

  ghost predicate Counts(events: seq<Event>, t: Tally) {
    t == Tally(
      CountKind(events, JStr("decision")), CountKind(events, JStr("outcome")),
      CountWith(events, JStr("decision"), Decision, JStr("allowed")),
      CountWith(events, JStr("decision"), Decision, JStr("denied")),
      CountWith(events, JStr("outcome"), Status, JStr("succeeded")),
      CountWith(events, JStr("outcome"), Status, JStr("failed")))
  }

  ghost predicate Lists(h: Numbers, isIdentifier: string -> bool, events: seq<Event>, actions: seq<Action>) {
    var places := DecisionsIn(events);
    && |actions| == |places|
    && forall k :: 0 <= k < |places| ==>
         places[k] < |events| && ListsAction(h, isIdentifier, events[places[k]], actions[k])
  }

  // Of every journal: each counter counts what it says, and there is one action
  // for each decision, in their order, with its name and its verdict.
  lemma {:induction false} InspectionExactly(h: Numbers, isIdentifier: string -> bool, events: seq<Event>)
    requires InspectOf(h, isIdentifier, events).Inspection?
    ensures var r := InspectOf(h, isIdentifier, events);
            Counts(events, r.tally) && Lists(h, isIdentifier, events, r.actions)
  {
    hide ClassifyEvent, Counts, Lists, ListsAction, TallyDecision, TallyOutcome, NameOfAction;
    if |events| == 0 {
      NothingCounted(h, isIdentifier, events);
    } else {
      var n := |events| - 1;
      InspectionExactly(h, isIdentifier, events[..n]);
      var before := InspectOf(h, isIdentifier, events[..n]);
      LastCounted(events, before.tally);
      LastListed(h, isIdentifier, events, before.actions);
    }
  }

  lemma NothingCounted(h: Numbers, isIdentifier: string -> bool, events: seq<Event>)
    requires events == []
    ensures Counts(events, Tally(0, 0, 0, 0, 0, 0)) && Lists(h, isIdentifier, events, [])
  {
  }

  lemma LastCounted(events: seq<Event>, t: Tally)
    requires |events| > 0 && Counts(events[..|events| - 1], t)
    ensures var e := events[|events| - 1];
            Counts(events, if Get(e, EventType) == DECISION then TallyDecision(t, e)
                           else if Get(e, EventType) == OUTCOME then TallyOutcome(t, e) else t)
  {
    assert "decision"[0] != "outcome"[0];
  }

  lemma LastListed(h: Numbers, isIdentifier: string -> bool, events: seq<Event>, actions: seq<Action>)
    requires |events| > 0 && Lists(h, isIdentifier, events[..|events| - 1], actions)
    ensures var e := events[|events| - 1];
            Lists(h, isIdentifier, events,
                  if Get(e, EventType) == DECISION then actions + [Action(NameOfAction(e), ClassifyEvent(h, isIdentifier, e))]
                  else actions)
  {
    hide ClassifyEvent;
    var n := |events| - 1;
    assert forall k: nat :: k < n ==> events[..n][k] == events[k];
  }
}
