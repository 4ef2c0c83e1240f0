// What each issue of the verifier means: every code is reported exactly when
// its own check fails, on its own line.
module IssueLaws {
  import opened Wrappers
  import opened Json
  import opened Evidence
  import opened Verification
  import opened Chain

  // The event is of the known version and of a known type, and has the fields
  // of its type.
  predicate Complete(e: Event) {
    && Get(e, SchemaVersion) == JStr("1")
    && SchemaVersion in e && EventType in e && EventId in e && TimestampUtc in e && KeyId in e
    && PreviousEventHash in e && EventHash in e && Signature in e
    && if e[EventType] == JStr("checkpoint") then CheckpointCount in e && HeadSha256 in e
       else
         && ActionId in e && ActionName in e && ContractHash in e
         && if e[EventType] == JStr("decision") then
              Decision in e && Risk in e && ApprovalMode in e && RedactedInputSummary in e && InputHash in e
            else e[EventType] == JStr("outcome") && Status in e && DecisionEventId in e
  }

  predicate KnownSigner(e: Event, trusted: Keyring) {
    Get(e, KeyId).JStr? && Get(e, KeyId).s in trusted
  }

  predicate NonNegative(j: Json) {
    j.JBool? || (j.JNum? && j.n >= 0)
  }

  // Integers, and truth values, which the host takes for 1 and 0.
  predicate IsWhole(j: Json) {
    j.JNum? || j.JBool?
  }

  function Whole(j: Json): int
    requires IsWhole(j)
  {
    match j
    case JNum(n) => n
    case JBool(b) => if b then 1 else 0
  }

  // Equality of the host: truth values equal the integers 1 and 0, also inside
  // lists and dictionaries; everything else equals only itself.
  predicate SameToHost(a: Json, b: Json) {
    if IsWhole(a) && IsWhole(b) then Whole(a) == Whole(b)
    else if a.JArr? && b.JArr? then
      |a.items| == |b.items| && forall i :: 0 <= i < |a.items| ==> SameToHost(a.items[i], b.items[i])
    else if a.JObj? && b.JObj? then
      && |a.fields| == |b.fields|
      && forall i :: 0 <= i < |a.fields| ==>
           a.fields[i].0 == b.fields[i].0 && SameToHost(a.fields[i].1, b.fields[i].1)
    else a == b
  }

  lemma {:induction false} HostEqualExactly(a: Json, b: Json)
    ensures HostEqual(a, b) <==> SameToHost(a, b)
  {
    if a.JArr? && b.JArr? {
      forall i | 0 <= i < |a.items| && |a.items| == |b.items|
        ensures Plain(a.items[i]) == Plain(b.items[i]) <==> SameToHost(a.items[i], b.items[i])
      {
        HostEqualExactly(a.items[i], b.items[i]);
      }
      ItemsEqual(a, b);
    } else if a.JObj? && b.JObj? {
      forall i | 0 <= i < |a.fields| && |a.fields| == |b.fields|
        ensures Plain(a.fields[i].1) == Plain(b.fields[i].1) <==> SameToHost(a.fields[i].1, b.fields[i].1)
      {
        HostEqualExactly(a.fields[i].1, b.fields[i].1);
      }
      FieldsEqual(a, b);
    }
  }

  lemma ItemsEqual(a: Json, b: Json)
    requires a.JArr? && b.JArr?
    ensures Plain(a) == Plain(b) <==>
            |a.items| == |b.items| && forall i :: 0 <= i < |a.items| ==> Plain(a.items[i]) == Plain(b.items[i])
  {
    var x, y := Plain(a).items, Plain(b).items;
    assert forall i :: 0 <= i < |x| ==> x[i] == Plain(a.items[i]);
    assert forall i :: 0 <= i < |y| ==> y[i] == Plain(b.items[i]);
  }

  lemma FieldsEqual(a: Json, b: Json)
    requires a.JObj? && b.JObj?
    ensures Plain(a) == Plain(b) <==>
            && |a.fields| == |b.fields|
            && forall i :: 0 <= i < |a.fields| ==>
                 a.fields[i].0 == b.fields[i].0 && Plain(a.fields[i].1) == Plain(b.fields[i].1)
  {
    var x, y := Plain(a).fields, Plain(b).fields;
    assert forall i :: 0 <= i < |x| ==> x[i] == (a.fields[i].0, Plain(a.fields[i].1));
    assert forall i :: 0 <= i < |y| ==> y[i] == (b.fields[i].0, Plain(b.fields[i].1));
  }

  // Why a code is reported of an event.
  predicate Because(p: Primitives, e: Event, expected: Option<string>, trusted: Keyring, code: Code) {
    var kind := Get(e, EventType);
    match code
    case UnknownSchema => Get(e, SchemaVersion) != JStr("1")
    case UnknownEventType =>
      Get(e, SchemaVersion) == JStr("1") && kind != JStr("decision") && kind != JStr("outcome") && kind != JStr("checkpoint")
    case MissingFields =>
      && Get(e, SchemaVersion) == JStr("1")
      && (kind == JStr("decision") || kind == JStr("outcome") || kind == JStr("checkpoint"))
      && !Complete(e)
    case CheckpointHeadMismatch =>
      Complete(e) && kind == JStr("checkpoint") && !HostEqual(Get(e, HeadSha256), Get(e, PreviousEventHash))
    case CheckpointBadCount => Complete(e) && kind == JStr("checkpoint") && !NonNegative(Get(e, CheckpointCount))
    case ChainBreak =>
      Complete(e) && Get(e, PreviousEventHash) != (if expected.Some? then JStr(expected.value) else JNull)
    case HashMismatch => Complete(e) && Get(e, EventHash) != JStr(p.digest(UnsignedPayload(e)))
    case UnknownKey => Complete(e) && !KnownSigner(e, trusted)
    case BadSignature =>
      && Complete(e) && KnownSigner(e, trusted)
      && !(Get(e, Signature).JStr?
           && p.verifies(trusted[Get(e, KeyId).s], p.digest(UnsignedPayload(e)), Get(e, Signature).s))
    case _ => false
  }

  lemma CompleteExactly(e: Event)
    requires Get(e, SchemaVersion) == SCHEMA_ONE && KnownType(Get(e, EventType))
    ensures EventType in e
    ensures Complete(e) <==> RequiredFields(e[EventType]) <= e.Keys
  {
    assert SchemaVersion in e && EventType in e;
  }

  // The issues of an event are exactly those whose check fails, on its line.
  lemma IssuesExactly(p: Primitives, e: Event, line: nat, expected: Option<string>, trusted: Keyring, issue: Issue)
    ensures issue in EventIssues(p, e, line, expected, trusted) <==>
            issue.line == line && Because(p, e, expected, trusted, issue.code)
  {
    hide Complete, RequiredFields, UnsignedPayload, HostEqual, EventIssues, Because;
    CompleteIsKnown(e);
    if Complete(e) {
      IssuesOfComplete(p, e, line, expected, trusted, issue);
    } else {
      IssuesOfIncomplete(p, e, line, expected, trusted, issue);
    }
  }

  lemma IssuesOfIncomplete(p: Primitives, e: Event, line: nat, expected: Option<string>, trusted: Keyring, issue: Issue)
    requires !Complete(e)
    ensures issue in EventIssues(p, e, line, expected, trusted) <==>
            issue.line == line && Because(p, e, expected, trusted, issue.code)
  {
    hide Complete, RequiredFields, UnsignedPayload, HostEqual, HeadIssues, SignerIssues, When;
    if Get(e, SchemaVersion) == SCHEMA_ONE && KnownType(Get(e, EventType)) {
      CompleteExactly(e);
    }
  }

  lemma IssuesOfComplete(p: Primitives, e: Event, line: nat, expected: Option<string>, trusted: Keyring, issue: Issue)
    requires Complete(e)
    ensures issue in EventIssues(p, e, line, expected, trusted) <==>
            issue.line == line && Because(p, e, expected, trusted, issue.code)
  {
    hide Complete, RequiredFields, UnsignedPayload, HostEqual, EventIssues, NonNegative, KnownSigner, HeadIssues, SignerIssues;
    CompleteIsKnown(e);
    CompleteExactly(e);
    PartsOfIssues(p, e, line, expected, trusted, issue);
    HeadExactly(e, line, issue);
    SignerExactly(p, e, line, trusted, issue);
  }

  lemma HeadExactly(e: Event, line: nat, issue: Issue)
    ensures issue in HeadIssues(e, line) <==>
            && issue.line == line
            && ((issue.code == CheckpointHeadMismatch && !HostEqual(Get(e, HeadSha256), Get(e, PreviousEventHash)))
                || (issue.code == CheckpointBadCount && !NonNegative(Get(e, CheckpointCount))))
  {
    hide HostEqual;
  }

  lemma SignerExactly(p: Primitives, e: Event, line: nat, trusted: Keyring, issue: Issue)
    ensures issue in SignerIssues(p, e, line, trusted) <==>
            && issue.line == line
            && ((issue.code == UnknownKey && !KnownSigner(e, trusted))
                || (issue.code == BadSignature && KnownSigner(e, trusted)
                    && !(Get(e, Signature).JStr?
                         && p.verifies(trusted[Get(e, KeyId).s], p.digest(UnsignedPayload(e)), Get(e, Signature).s))))
  {
    hide UnsignedPayload;
  }

  lemma CompleteIsKnown(e: Event)
    ensures Complete(e) ==>
              && Get(e, SchemaVersion) == SCHEMA_ONE && KnownType(Get(e, EventType))
              && PreviousEventHash in e && EventHash in e && SchemaVersion in e && EventType in e
  {
  }

  lemma PartsOfIssues(p: Primitives, e: Event, line: nat, expected: Option<string>, trusted: Keyring, issue: Issue)
    requires Get(e, SchemaVersion) == SCHEMA_ONE && KnownType(Get(e, EventType)) && EventType in e
    requires RequiredFields(e[EventType]) <= e.Keys && PreviousEventHash in e && EventHash in e
    ensures issue in EventIssues(p, e, line, expected, trusted) <==>
            || (e[EventType] == CHECKPOINT && issue in HeadIssues(e, line))
            || issue in When(e[PreviousEventHash] != HashJson(expected), line, ChainBreak)
            || issue in When(e[EventHash] != JStr(p.digest(UnsignedPayload(e))), line, HashMismatch)
            || issue in SignerIssues(p, e, line, trusted)
  {
    hide RequiredFields, UnsignedPayload, HeadIssues, SignerIssues, When;
  }

  // The place of a code among those reported of one event.
  function Rank(code: Code): nat {
    match code
    case CheckpointHeadMismatch => 1
    case CheckpointBadCount => 2
    case ChainBreak => 3
    case HashMismatch => 4
    case UnknownKey => 5
    case BadSignature => 5
    case _ => 0
  }

  predicate Ranked(issues: seq<Issue>, low: int, high: int) {
    && (forall i :: 0 <= i < |issues| ==> low < Rank(issues[i].code) <= high)
    && (forall i, j :: 0 <= i < j < |issues| ==> Rank(issues[i].code) < Rank(issues[j].code))
  }

  lemma RankedBehind(a: seq<Issue>, b: seq<Issue>, low: int, mid: int, high: int)
    requires low <= mid <= high && Ranked(a, low, mid) && Ranked(b, mid, high)
    ensures Ranked(a + b, low, high)
  {
  }

  lemma OneRanked(condition: bool, line: nat, code: Code, low: int, high: int)
    requires low < Rank(code) <= high
    ensures Ranked(When(condition, line, code), low, high)
  {
  }

  // They come in the order of the checks, each at most once.
  lemma IssuesInOrder(p: Primitives, e: Event, line: nat, expected: Option<string>, trusted: Keyring)
    ensures Ranked(EventIssues(p, e, line, expected, trusted), -1, 5)
  {
    hide UnsignedPayload, RequiredFields, When, HeadIssues, SignerIssues, HostEqual;
    if Complete(e) {
      CompleteIsKnown(e);
      CompleteExactly(e);
      var head := if e[EventType] == CHECKPOINT then HeadIssues(e, line) else [];
      var link := When(e[PreviousEventHash] != HashJson(expected), line, ChainBreak);
      var hash := When(e[EventHash] != JStr(p.digest(UnsignedPayload(e))), line, HashMismatch);
      var signer := SignerIssues(p, e, line, trusted);
      assert EventIssues(p, e, line, expected, trusted) == head + link + hash + signer;
      HeadRanked(e, line);
      SignerRanked(p, e, line, trusted);
      hide EventIssues, Ranked;
      OneRanked(e[PreviousEventHash] != HashJson(expected), line, ChainBreak, 2, 3);
      OneRanked(e[EventHash] != JStr(p.digest(UnsignedPayload(e))), line, HashMismatch, 3, 4);
      RankedBehind(head, link, -1, 2, 3);
      RankedBehind(head + link, hash, -1, 3, 4);
      RankedBehind(head + link + hash, signer, -1, 4, 5);
    } else if Get(e, SchemaVersion) == SCHEMA_ONE && KnownType(Get(e, EventType)) {
      CompleteExactly(e);
    }
  }

  lemma HeadRanked(e: Event, line: nat)
    ensures Ranked(HeadIssues(e, line), -1, 2) && Ranked([], -1, 2)
  {
    hide When, HostEqual, GoodCount;
    var head := !HostEqual(Get(e, HeadSha256), Get(e, PreviousEventHash));
    OneRanked(head, line, CheckpointHeadMismatch, -1, 1);
    OneRanked(!GoodCount(Get(e, CheckpointCount)), line, CheckpointBadCount, 1, 2);
    RankedBehind(When(head, line, CheckpointHeadMismatch), When(!GoodCount(Get(e, CheckpointCount)), line, CheckpointBadCount),
                 -1, 1, 2);
  }

  lemma SignerRanked(p: Primitives, e: Event, line: nat, trusted: Keyring)
    ensures Ranked(SignerIssues(p, e, line, trusted), 4, 5)
  {
    hide UnsignedPayload;
  }

  // ----- the pass over the lines -----

  // The host can look the version up, and the type of an event of the known version.
  predicate Judged(e: Event) {
    var version, kind := Get(e, SchemaVersion), Get(e, EventType);
    && !version.JArr? && !version.JObj?
    && (version == JStr("1") ==> !kind.JArr? && !kind.JObj?)
  }

  lemma JudgedExactly(e: Event)
    ensures Judged(e) <==> !Crashes(e)
  {
  }

  predicate Sound(line: Line) {
    line.Blank? || (line.Object? && Judged(line.event))
  }

  // The stored hash of the last event among the lines, if that has one.
  function LastHash(lines: seq<Line>): Option<string> {
    if |lines| == 0 then None
    else if lines[|lines| - 1].Object? then StoredHash(lines[|lines| - 1].event)
    else LastHash(lines[..|lines| - 1])
  }

  predicate ReportedOf(p: Primitives, trusted: Keyring, lines: seq<Line>, k: nat, issue: Issue) {
    && k < |lines| && lines[k].Object? && issue.line == k + 1
    && Because(p, lines[k].event, LastHash(lines[..k]), trusted, issue.code)
  }

  // Blank lines count as lines and as nothing else. Every event is checked
  // against the stored hash of the event before it, and every issue of the pass
  // is of one event, on its line.
  lemma {:induction false} IssuesOfPass(p: Primitives, trusted: Keyring, id: Option<string>, lines: seq<Line>, issue: Issue)
    requires forall k :: 0 <= k < |lines| ==> Sound(lines[k])
    ensures var s := ScanLines(p, trusted, id, lines);
            && s.status == Running && s.previous == LastHash(lines)
            && (issue in s.issues <==> exists k :: ReportedOf(p, trusted, lines, k, issue))
  {
    hide ScanLine, Because, Crashes, StoredHash;
    if |lines| > 0 {
      var n := |lines| - 1;
      IssuesOfPass(p, trusted, id, lines[..n], issue);
      LineIssues(p, trusted, id, ScanLines(p, trusted, id, lines[..n]), lines[n], n + 1, issue);
      ReportedSnoc(p, trusted, lines, issue);
      assert Sound(lines[n]);
    }
  }

  lemma LineIssues(p: Primitives, trusted: Keyring, id: Option<string>, s: Scan, line: Line, number: nat, issue: Issue)
    requires s.status == Running && Sound(line)
    ensures var next := ScanLine(p, trusted, id, s, line, number);
            && next.status == Running
            && next.previous == (if line.Object? then StoredHash(line.event) else s.previous)
            && (issue in next.issues <==>
                  issue in s.issues
                  || (line.Object? && issue.line == number && Because(p, line.event, s.previous, trusted, issue.code)))
  {
    hide Because, Crashes, Judged, StoredHash, EventIssues;
    if line.Object? {
      JudgedExactly(line.event);
      IssuesExactly(p, line.event, number, s.previous, trusted, issue);
    }
  }

  lemma ReportedSnoc(p: Primitives, trusted: Keyring, lines: seq<Line>, issue: Issue)
    requires |lines| > 0
    ensures var n := |lines| - 1;
            (exists k :: ReportedOf(p, trusted, lines, k, issue)) <==>
            (exists k :: ReportedOf(p, trusted, lines[..n], k, issue)) || ReportedOf(p, trusted, lines, n, issue)
  {
    hide Because, LastHash;
    var n := |lines| - 1;
    var before := lines[..n];
    assert forall k :: 0 <= k < n ==> before[k] == lines[k] && before[..k] == lines[..k];
    if k: nat :| ReportedOf(p, trusted, before, k, issue) {
      assert ReportedOf(p, trusted, lines, k, issue);
    }
    if k: nat :| ReportedOf(p, trusted, lines, k, issue) {
      assert k == n || ReportedOf(p, trusted, before, k, issue);
    }
  }

  // ----- the rest of what a pass tells -----

  function EventsIn(lines: seq<Line>): seq<Event> {
    if |lines| == 0 then []
    else
      var n := |lines| - 1;
      EventsIn(lines[..n]) + if lines[n].Object? then [lines[n].event] else []
  }

  ghost predicate Clean(p: Primitives, trusted: Keyring, lines: seq<Line>, k: nat) {
    k < |lines| && lines[k].Object? && forall code :: !Because(p, lines[k].event, LastHash(lines[..k]), trusted, code)
  }

  // How many of the first n lines are events with nothing wrong.
  ghost function CleanOnes(p: Primitives, trusted: Keyring, lines: seq<Line>, n: nat): nat {
    if n == 0 then 0 else CleanOnes(p, trusted, lines, n - 1) + if Clean(p, trusted, lines, n - 1) then 1 else 0
  }

  // The last checkpoint among the events, if there is one.
  ghost predicate IsNewest(events: seq<Event>, newest: Option<Event>) {
    && (newest.None? <==> forall i :: 0 <= i < |events| ==> !IsCheckpoint(events[i]))
    && forall i: nat :: NewestAt(events, i) ==> newest == Some(events[i])
  }

  predicate Met(events: seq<Event>, id: Option<string>) {
    id.Some? && exists i :: 0 <= i < |events| && Get(events[i], EventId) == JStr(id.value)
  }

  // Whatever is wrong with the events, the pass counts and keeps all of them; the
  // newest checkpoint is the last event of that type, the witness is met if some
  // event has its id, and verified are those with nothing wrong.
  lemma {:induction false} PassTells(p: Primitives, trusted: Keyring, id: Option<string>, lines: seq<Line>)
    requires forall k :: 0 <= k < |lines| ==> Sound(lines[k])
    ensures var s, events := ScanLines(p, trusted, id, lines), EventsIn(lines);
            && s.events == events && s.total == |events| && IsNewest(events, s.newest) && (s.found <==> Met(events, id))
            && s.verified == CleanOnes(p, trusted, lines, |lines|)
  {
    hide ScanLine, Because, StoredHash, Judged, Clean, IsNewest, Met, IsCheckpoint;
    if |lines| == 0 {
      NothingMet([], id);
    } else {
      var n := |lines| - 1;
      PassTells(p, trusted, id, lines[..n]);
      IssuesOfPass(p, trusted, id, lines[..n], Issue(0, Unreadable));
      assert Sound(lines[n]);
      LineTells(p, trusted, id, ScanLines(p, trusted, id, lines[..n]), lines, n);
      CleanBefore(p, trusted, lines, n);
      if lines[n].Object? {
        var before := EventsIn(lines[..n]);
        NewestSnoc(before, lines[n].event, ScanLines(p, trusted, id, lines[..n]).newest);
        MetSnoc(before, lines[n].event, id);
      }
    }
  }

  lemma NothingMet(events: seq<Event>, id: Option<string>)
    requires events == []
    ensures IsNewest(events, None) && !Met(events, id)
  {
  }

  lemma NewestSnoc(events: seq<Event>, e: Event, newest: Option<Event>)
    requires IsNewest(events, newest)
    ensures IsNewest(events + [e], if IsCheckpoint(e) then Some(e) else newest)
  {
    hide IsCheckpoint;
    var more := events + [e];
    assert more[|events|] == e;
    if IsCheckpoint(e) {
      forall i: nat | NewestAt(more, i)
        ensures i == |events|
      {
      }
    } else {
      forall i: nat | NewestAt(more, i)
        ensures NewestAt(events, i)
      {
        assert forall j :: 0 <= j < |events| ==> more[j] == events[j];
      }
      if i :| 0 <= i < |events| && IsCheckpoint(events[i]) {
        assert IsCheckpoint(more[i]);
      }
    }
  }

  lemma MetSnoc(events: seq<Event>, e: Event, id: Option<string>)
    ensures Met(events + [e], id) <==> Met(events, id) || (id.Some? && Get(e, EventId) == JStr(id.value))
  {
    hide Get;
    var more := events + [e];
    assert more[|events|] == e && forall i :: 0 <= i < |events| ==> more[i] == events[i];
  }

  lemma LineTells(p: Primitives, trusted: Keyring, id: Option<string>, s: Scan, lines: seq<Line>, n: nat)
    requires n < |lines| && s.status == Running && Sound(lines[n]) && s.previous == LastHash(lines[..n])
    ensures var next := ScanLine(p, trusted, id, s, lines[n], n + 1);
            if lines[n].Object? then
              var e := lines[n].event;
              && next.events == s.events + [e] && next.total == s.total + 1
              && next.newest == (if IsCheckpoint(e) then Some(e) else s.newest)
              && (next.found <==> s.found || (id.Some? && Get(e, EventId) == JStr(id.value)))
              && next.verified == s.verified + if Clean(p, trusted, lines, n) then 1 else 0
            else next == s && !Clean(p, trusted, lines, n)
  {
    hide Because, Judged, StoredHash, EventIssues, LastHash;
    if lines[n].Object? {
      var e := lines[n].event;
      JudgedExactly(e);
      forall code
        ensures Because(p, e, s.previous, trusted, code) <==>
                Issue(n + 1, code) in EventIssues(p, e, n + 1, s.previous, trusted)
      {
        IssuesExactly(p, e, n + 1, s.previous, trusted, Issue(n + 1, code));
      }
      var issues := EventIssues(p, e, n + 1, s.previous, trusted);
      if issues != [] {
        IssuesExactly(p, e, n + 1, s.previous, trusted, issues[0]);
        assert issues[0] in issues;
      }
    }
  }

  lemma {:induction false} CleanBefore(p: Primitives, trusted: Keyring, lines: seq<Line>, n: nat)
    requires n <= |lines|
    ensures CleanOnes(p, trusted, lines[..n], n) == CleanOnes(p, trusted, lines, n)
  {
    hide Clean;
    CleanUpTo(p, trusted, lines, n, n);
  }

  lemma {:induction false} CleanUpTo(p: Primitives, trusted: Keyring, lines: seq<Line>, n: nat, k: nat)
    requires k <= n <= |lines|
    ensures CleanOnes(p, trusted, lines[..n], k) == CleanOnes(p, trusted, lines, k)
  {
    hide Because, LastHash;
    if k > 0 {
      CleanUpTo(p, trusted, lines, n, k - 1);
      assert lines[..n][..k - 1] == lines[..k - 1];
    }
  }

  // The report of a file without bad lines: the issue of the witness file, those
  // of the events, and those of the coverage; it is valid if there are none.
  lemma ReportExactly(p: Primitives, trusted: Keyring, lines: seq<Line>, file: Option<WitnessFile>,
                      wit: Option<Event>, refused: seq<Issue>)
    requires forall k :: 0 <= k < |lines| ==> Sound(lines[k])
    requires if file.Some? then LoadWitness(p, file.value, trusted) == Some((wit, refused)) else wit.None? && refused == []
    ensures wit.Some? ==> IsWhole(Get(wit.value, CheckpointCount))
    ensures var id := if wit.Some? then Some(p.text(Get(wit.value, EventId))) else None;
            var s := ScanLines(p, trusted, id, lines);
            var coverage := CoverageIssues(p, s.newest, wit, s.found, s.total);
            Verify(p, trusted, Readable(lines), file) ==
            if coverage.None? then Verification.Crashed
            else
              var issues := refused + s.issues + coverage.value;
              Finished(Report(|issues| == 0, CleanOnes(p, trusted, lines, |lines|), issues), EventsIn(lines))
    ensures Verify(p, trusted, Unopenable, file) == Finished(Report(false, 0, [Issue(0, Unreadable)]), [])
  {
    hide ScanLines, CoverageIssues, CleanOnes, EventsIn, Sound;
    var id := if wit.Some? then Some(p.text(Get(wit.value, EventId))) else None;
    PassTells(p, trusted, id, lines);
    IssuesOfPass(p, trusted, id, lines, Issue(0, Unreadable));
  }

  // The first line that is no JSON, or no JSON object, ends the pass with an
  // issue of its own; what comes after it is not looked at.
  lemma BadLineEndsPass(p: Primitives, trusted: Keyring, id: Option<string>, lines: seq<Line>, k: nat)
    requires k < |lines| && (lines[k].NotJson? || lines[k].NotObject?)
    requires forall i :: 0 <= i < k ==> Sound(lines[i])
    ensures var before := ScanLines(p, trusted, id, lines[..k]);
            ScanLines(p, trusted, id, lines) ==
              before.(status := Stopped,
                      issues := before.issues + [Issue(k + 1, if lines[k].NotJson? then MalformedJson else MalformedEvent)])
  {
    IssuesOfPass(p, trusted, id, lines[..k], Issue(0, Unreadable));
    assert lines[..k + 1][..k] == lines[..k];
    StoppedStays(p, trusted, id, lines, k + 1);
  }

  // An event that cannot be judged makes the host raise, unless the pass ended before.
  lemma UnjudgedRaises(p: Primitives, trusted: Keyring, id: Option<string>, lines: seq<Line>, k: nat)
    requires k < |lines| && lines[k].Object? && !Judged(lines[k].event)
    requires forall i :: 0 <= i < k ==> Sound(lines[i])
    ensures ScanLines(p, trusted, id, lines).status == Raised
  {
    IssuesOfPass(p, trusted, id, lines[..k], Issue(0, Unreadable));
    JudgedExactly(lines[k].event);
    assert lines[..k + 1][..k] == lines[..k];
    StoppedStays(p, trusted, id, lines, k + 1);
  }

  // ----- coverage -----

  function Largest(a: int, b: int): int {
    if a > b then a else b
  }

  // With integer counts: a witness that is not among the events is reported and
  // bounds the length of the journal by itself; otherwise the larger of its
  // count and the newest checkpoint's does.
  lemma CoverageExactly(p: Primitives, newest: Option<Event>, wit: Option<Event>, found: bool, total: nat)
    requires wit.Some? ==> IsWhole(Get(wit.value, CheckpointCount))
    requires newest.Some? ==> IsWhole(Get(newest.value, CheckpointCount))
    ensures var short := [Issue(0, CheckpointTruncation)];
            var n := if newest.Some? then Whole(Get(newest.value, CheckpointCount)) else 0;
            var w := if wit.Some? then Whole(Get(wit.value, CheckpointCount)) else 0;
            CoverageIssues(p, newest, wit, found, total) == Some(
              if wit.Some? && !found then
                [Issue(0, CheckpointNotFound)] + (if total < w then short else [])
                + (if newest.Some? && total < n then short else [])
              else if wit.Some? && newest.Some? then if total < Largest(n, w) then short else []
              else if total < n || total < w then short else [])
  {
    var w := if wit.Some? then Whole(Get(wit.value, CheckpointCount)) else 0;
    var n := if newest.Some? then Whole(Get(newest.value, CheckpointCount)) else 0;
    var missing := [Issue(0, CheckpointNotFound)] + TruncationIssues(total, w);
    assert missing + [] == missing;
    assert [] + TruncationIssues(total, w) == TruncationIssues(total, w);
    assert [] + TruncationIssues(total, n) == TruncationIssues(total, n);
  }

  // A count of the newest checkpoint that is no integer: the host converts it,
  // or raises; next to a witness that was met it must be comparable, so a float.
  lemma OddCountExactly(p: Primitives, newest: Event, wit: Option<Event>, found: bool, total: nat)
    requires wit.Some? ==> IsWhole(Get(wit.value, CheckpointCount))
    requires !IsWhole(Get(newest, CheckpointCount))
    ensures var short := [Issue(0, CheckpointTruncation)];
            var count := Get(newest, CheckpointCount);
            var w := if wit.Some? then Whole(Get(wit.value, CheckpointCount)) else 0;
            var missing := if wit.Some? && !found
                           then [Issue(0, CheckpointNotFound)] + (if total < w then short else []) else [];
            var issues := CoverageIssues(p, Some(newest), wit, found, total);
            if wit.Some? && found && count.JFloat? && p.above(w, count) then
              issues == Some(if total < w then short else [])
            else if count.JFloat? || (count.JStr? && !(wit.Some? && found)) then
              var n := p.intOf(count);
              issues == if n.Some? then Some(missing + if total < n.value then short else []) else None
            else issues.None?
  {
    var w := if wit.Some? then Whole(Get(wit.value, CheckpointCount)) else 0;
    assert [] + TruncationIssues(total, w) == TruncationIssues(total, w);
  }
}
