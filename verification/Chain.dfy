// What acceptance by the verifier means for a journal whose lines all hold events.
module Chain {
  import opened Wrappers
  import opened Json
  import opened Evidence
  import opened Verification

  function Objects(events: seq<Event>): (lines: seq<Line>) {
    seq(|events|, i requires 0 <= i < |events| => Object(events[i]))
  }

  // Every event is well formed, signed by a trusted key and linked to the one before it.
  ghost predicate Chained(p: Primitives, trusted: Keyring, events: seq<Event>) {
    forall i :: 0 <= i < |events| ==> EventOk(p, events[i], PreviousOf(events, i), trusted)
  }

  predicate IsCheckpoint(e: Event) {
    Get(e, EventType) == CHECKPOINT
  }

  function LastCheckpoint(events: seq<Event>): Option<Event> {
    if |events| == 0 then None
    else if IsCheckpoint(events[|events| - 1]) then Some(events[|events| - 1])
    else LastCheckpoint(events[..|events| - 1])
  }

  predicate NewestAt(events: seq<Event>, i: nat) {
    i < |events| && IsCheckpoint(events[i]) && forall j :: i < j < |events| ==> !IsCheckpoint(events[j])
  }

  predicate NoCheckpoint(events: seq<Event>) {
    forall i :: 0 <= i < |events| ==> !IsCheckpoint(events[i])
  }

  // Where the newest checkpoint is.
  lemma {:induction false} LastCheckpointIs(events: seq<Event>) returns (i: nat)
    ensures LastCheckpoint(events).None? ==> NoCheckpoint(events)
    ensures LastCheckpoint(events).Some? ==> NewestAt(events, i) && events[i] == LastCheckpoint(events).value
  {
    hide IsCheckpoint;
    i := 0;
    if |events| > 0 {
      if IsCheckpoint(events[|events| - 1]) {
        i := |events| - 1;
      } else {
        var before := events[..|events| - 1];
        i := LastCheckpointIs(before);
        assert forall k :: 0 <= k < |before| ==> before[k] == events[k];
      }
    }
  }

  predicate Holds(events: seq<Event>, id: string) {
    exists i :: 0 <= i < |events| && Get(events[i], EventId) == JStr(id)
  }

  // The pass over event lines is clean exactly when the events are chained.
  lemma {:induction false} ScanObjects(p: Primitives, trusted: Keyring, id: Option<string>, events: seq<Event>)
    ensures var s := ScanLines(p, trusted, id, Objects(events));
            && s.status != Stopped
            && (Chained(p, trusted, events) ==> s.status == Running)
            && (s.status == Running ==>
                  && s.total == |events|
                  && s.events == events
                  && s.previous == PreviousOf(events, |events|)
                  && s.newest == LastCheckpoint(events)
                  && (s.found <==> id.Some? && Holds(events, id.value))
                  && (s.issues == [] <==> Chained(p, trusted, events))
                  && (s.issues == [] ==> s.verified == |events|))
  {
    hide Holds, Chained, ScanLines, ScanEvent, EventOk;
    if |events| == 0 {
      NothingYet(p, trusted, id, events, if id.Some? then id.value else "");
    } else {
      var n := |events| - 1;
      var e, before := events[n], events[..n];
      ScanObjects(p, trusted, id, before);
      ScanSnoc(p, trusted, id, events);
      var s := ScanLines(p, trusted, id, Objects(before));
      if s.status == Running {
        ScanEventEffect(p, trusted, id, s, e, n + 1);
      }
      ChainedSnoc(p, trusted, events);
      if id.Some? {
        HoldsSnoc(events, id.value);
      }
      assert before + [e] == events;
    }
  }

  // What one event does to the state of the pass.
  lemma ScanEventEffect(p: Primitives, trusted: Keyring, id: Option<string>, s: Scan, e: Event, number: nat)
    requires s.status == Running
    ensures var next := ScanEvent(p, trusted, id, s, e, number);
            && next.status != Stopped
            && (EventOk(p, e, s.previous, trusted) ==> next.status == Running)
            && (next.status == Running ==>
                  && next.total == s.total + 1
                  && next.events == s.events + [e]
                  && next.previous == StoredHash(e)
                  && next.newest == (if IsCheckpoint(e) then Some(e) else s.newest)
                  && (next.found <==> s.found || (id.Some? && Get(e, EventId) == JStr(id.value)))
                  && (next.issues == [] <==> s.issues == [] && EventOk(p, e, s.previous, trusted))
                  && (EventOk(p, e, s.previous, trusted) ==>
                        next.issues == s.issues && next.verified == s.verified + 1))
  {
    hide EventIssues, EventOk, Crashes;
    CleanEventIsOk(p, e, number, s.previous, trusted);
    assert s.issues + [] == s.issues;
  }

  lemma ScanSnoc(p: Primitives, trusted: Keyring, id: Option<string>, events: seq<Event>)
    requires |events| > 0
    ensures var n := |events| - 1;
            ScanLines(p, trusted, id, Objects(events))
            == ScanLine(p, trusted, id, ScanLines(p, trusted, id, Objects(events[..n])), Object(events[n]), n + 1)
  {
    hide ScanLine;
    assert Objects(events)[..|events| - 1] == Objects(events[..|events| - 1]);
  }

  lemma NothingYet(p: Primitives, trusted: Keyring, id: Option<string>, events: seq<Event>, name: string)
    requires events == []
    ensures Chained(p, trusted, events) && !Holds(events, name)
    ensures ScanLines(p, trusted, id, Objects(events)) == START
  {
  }

  lemma HoldsSnoc(events: seq<Event>, id: string)
    requires |events| > 0
    ensures var n := |events| - 1;
            Holds(events, id) <==> Holds(events[..n], id) || Get(events[n], EventId) == JStr(id)
  {
    var before := events[..|events| - 1];
    if Holds(before, id) {
      var i :| 0 <= i < |before| && Get(before[i], EventId) == JStr(id);
      assert events[i] == before[i];
    }
    if Holds(events, id) && Get(events[|events| - 1], EventId) != JStr(id) {
      var i :| 0 <= i < |events| && Get(events[i], EventId) == JStr(id);
      assert events[i] == before[i];
    }
  }

  lemma ChainedSnoc(p: Primitives, trusted: Keyring, events: seq<Event>)
    requires |events| > 0
    ensures var n := |events| - 1;
            Chained(p, trusted, events) <==>
            Chained(p, trusted, events[..n]) && EventOk(p, events[n], PreviousOf(events, n), trusted)
  {
    hide EventOk;
    var before := events[..|events| - 1];
    forall i | 0 <= i < |before|
      ensures before[i] == events[i] && PreviousOf(before, i) == PreviousOf(events, i)
    {
    }
  }

  // Acceptance without a witness: a complete report with no issue.
  predicate Accepts(p: Primitives, trusted: Keyring, events: seq<Event>) {
    var outcome := Verify(p, trusted, Readable(Objects(events)), None);
    outcome.Finished? && outcome.report.valid
  }

  // The count of the newest checkpoint does not exceed the number of events.
  predicate Covered(events: seq<Event>) {
    var newest := LastCheckpoint(events);
    newest.Some? ==>
      var count := AsInt(Get(newest.value, CheckpointCount));
      count.Some? && count.value <= |events|
  }

  // Without a witness the report of a covered journal is that of the pass.
  lemma CoveredReport(p: Primitives, trusted: Keyring, events: seq<Event>)
    requires var s := ScanLines(p, trusted, None, Objects(events));
             s.status == Running && s.total == |events| && s.newest == LastCheckpoint(events)
    requires Covered(events)
    ensures var s := ScanLines(p, trusted, None, Objects(events));
            Verify(p, trusted, Readable(Objects(events)), None)
            == Finished(Report(s.issues == [], s.verified, s.issues), s.events)
  {
    var s := ScanLines(p, trusted, None, Objects(events));
    hide ScanLines, LastCheckpoint;
    if s.newest.Some? {
      var count := AsInt(Get(s.newest.value, CheckpointCount)).value;
      assert ([count] + [])[0] == count;
      assert [] + TruncationIssues(s.total, count) == [];
    }
    assert WitnessId(p, None) == None;
    assert CoverageIssues(p, s.newest, None, s.found, s.total) == Some([]);
    assert [] + s.issues + [] == s.issues;
  }

  // A chained journal's newest checkpoint carries an integer count.
  lemma NewestCountIsInt(p: Primitives, trusted: Keyring, events: seq<Event>)
    requires Chained(p, trusted, events) && LastCheckpoint(events).Some?
    ensures AsInt(Get(LastCheckpoint(events).value, CheckpointCount)).Some?
  {
    hide LastCheckpoint;
    var i := LastCheckpointIs(events);
    assert EventOk(p, events[i], PreviousOf(events, i), trusted);
  }

  // Exact meaning of acceptance, and of the snapshot that goes with it.
  lemma AcceptsExactly(p: Primitives, trusted: Keyring, events: seq<Event>)
    ensures Accepts(p, trusted, events) <==> Chained(p, trusted, events) && Covered(events)
    ensures Accepts(p, trusted, events) ==>
              Verify(p, trusted, Readable(Objects(events)), None)
              == Finished(Report(true, |events|, []), events)
  {
    hide Chained, EventIssues, ScanEvent, ScanLines, LastCheckpoint;
    ScanObjects(p, trusted, None, events);
    var s := ScanLines(p, trusted, None, Objects(events));
    assert WitnessId(p, None) == None;
    if Chained(p, trusted, events) && LastCheckpoint(events).Some? {
      NewestCountIsInt(p, trusted, events);
    }
    if s.status == Running {
      var coverage := CoverageIssues(p, s.newest, None, s.found, s.total);
      assert coverage.Some? ==> [] + s.issues + coverage.value == s.issues + coverage.value;
    }
  }

  // A clean event changes the state of the pass alike on any line.
  lemma CleanOnAnyLine(p: Primitives, trusted: Keyring, id: Option<string>, s: Scan, e: Event, n: nat, m: nat)
    requires s.status == Running
    requires var next := ScanEvent(p, trusted, id, s, e, n); next.status == Running && next.issues == []
    ensures ScanEvent(p, trusted, id, s, e, m) == ScanEvent(p, trusted, id, s, e, n)
    ensures s.issues == [] && ScanEvent(p, trusted, id, s, e, n).events == s.events + [e]
  {
    hide EventIssues, EventOk, Crashes;
    CleanEventIsOk(p, e, n, s.previous, trusted);
    CleanEventIsOk(p, e, m, s.previous, trusted);
  }

  // Without issues neither blank lines nor line numbers matter.
  lemma {:induction false} CleanLinesAreEvents(p: Primitives, trusted: Keyring, id: Option<string>, lines: seq<Line>)
    requires var s := ScanLines(p, trusted, id, lines); s.status == Running && s.issues == []
    ensures var s := ScanLines(p, trusted, id, lines); ScanLines(p, trusted, id, Objects(s.events)) == s
  {
    hide ScanEvent;
    if |lines| > 0 {
      var n := |lines| - 1;
      var before := ScanLines(p, trusted, id, lines[..n]);
      if lines[n].Object? {
        var e := lines[n].event;
        var events := before.events + [e];
        CleanOnAnyLine(p, trusted, id, before, e, n + 1, |events|);
        CleanLinesAreEvents(p, trusted, id, lines[..n]);
        assert events[..|events| - 1] == before.events;
        ScanSnoc(p, trusted, id, events);
      } else {
        CleanLinesAreEvents(p, trusted, id, lines[..n]);
      }
    } else {
      assert Objects([]) == [];
    }
  }

  // Any accepted file at all is as good as the list of its events.
  lemma AcceptedFileIsEvents(p: Primitives, trusted: Keyring, lines: seq<Line>)
    requires var r := Verify(p, trusted, Readable(lines), None); r.Finished? && r.report.valid
    ensures var r := Verify(p, trusted, Readable(lines), None);
            Verify(p, trusted, Readable(Objects(r.events)), None) == r && Accepts(p, trusted, r.events)
  {
    hide ScanLines, CoverageIssues;
    assert WitnessId(p, None) == None;
    var s := ScanLines(p, trusted, None, lines);
    var coverage := CoverageIssues(p, s.newest, None, s.found, s.total);
    assert |[] + s.issues + coverage.value| == |s.issues| + |coverage.value|;
    StoppedHasIssue(p, trusted, None, lines);
    CleanLinesAreEvents(p, trusted, None, lines);
  }

  lemma {:induction false} StoppedHasIssue(p: Primitives, trusted: Keyring, id: Option<string>, lines: seq<Line>)
    ensures var s := ScanLines(p, trusted, id, lines); s.status == Stopped ==> s.issues != []
  {
    hide EventIssues, Crashes;
    if |lines| > 0 {
      StoppedHasIssue(p, trusted, id, lines[..|lines| - 1]);
    }
  }

  // Each checkpoint commits to its own position, as the locked append writes it.
  ghost predicate CountsArePositions(events: seq<Event>) {
    forall i :: 0 <= i < |events| && IsCheckpoint(events[i]) ==>
                  AsInt(Get(events[i], CheckpointCount)) == Some(i)
  }

  lemma PositionsCover(events: seq<Event>)
    requires CountsArePositions(events)
    ensures Covered(events)
  {
    var i := LastCheckpointIs(events);
  }
}
