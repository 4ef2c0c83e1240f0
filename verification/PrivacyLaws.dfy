// The two classifiers agree, and neither ever hides a readable argument.
module PrivacyLaws {
  import opened Wrappers
  import opened Json
  import opened JsonText
  import opened JsonTextLaws
  import opened Redaction
  import opened Summary
  import opened Privacy
  import opened Evidence
  import C = Canonical
  import CanonicalLaws

  function States(fields: seq<(string, Json)>): (states: seq<string>)
    ensures |states| == |fields|
  {
    seq(|fields|, i requires 0 <= i < |fields| => StateOf(fields[i].1))
  }

  predicate SomeArgument(fields: seq<(string, Json)>, state: string) {
    exists i :: 0 <= i < |fields| && StateOf(fields[i].1) == state
  }

  predicate AllRedacted(fields: seq<(string, Json)>) {
    forall i :: 0 <= i < |fields| ==> fields[i].1 == JStr(C.REDACTED)
  }

  // The normal form changes no state.
  lemma StatesOfArguments(fields: seq<(string, Json)>)
    ensures Names(Arguments(fields)) == Names(FromPairs(fields))
    ensures States(Arguments(fields)) == States(FromPairs(fields))
    ensures |Arguments(fields)| == |FromPairs(fields)|
  {
    NormFromPairs(fields);
    assert Arguments(fields) == NormMembers(FromPairs(fields));
  }

  // ----- reading the retention list back -----

  lemma RecordReads(field: (string, Json), names: seq<string>, states: seq<string>)
    requires field.0 !in names
    ensures ReadRecord(Record(field), names, states) == All(names + [field.0], states + [StateOf(field.1)])
  {
    var record := [("name", JStr(field.0)), ("state", JStr(StateOf(field.1)))];
    assert record[..1] == [("name", JStr(field.0))];
    assert Lookup(record, "state") == JStr(StateOf(field.1));
    assert "name" != "state" by {
      assert |"name"| != |"state"|;
    }
    assert Lookup(record, "name") == JStr(field.0);
  }

  lemma {:induction false} RecordsRead(fields: seq<(string, Json)>)
    requires InOrder(fields)
    ensures ReadRecords(Records(fields)) == All(Names(fields), States(fields))
  {
    hide ReadRecord, Record;
    if |fields| > 0 {
      var n := |fields| - 1;
      RecordsRead(fields[..n]);
      assert Records(fields)[..n] == Records(fields[..n]);
      assert Names(fields) == Names(fields[..n]) + [fields[n].0];
      assert States(fields) == States(fields[..n]) + [StateOf(fields[n].1)];
      forall i | 0 <= i < n
        ensures fields[i].0 != fields[n].0
      {
        assert Less(fields[i].0, fields[n].0);
        LessIsTotal(fields[n].0, fields[n].0);
      }
      RecordReads(fields[n], Names(fields[..n]), States(fields[..n]));
    }
  }

  lemma {:induction false} SelectedByState(fields: seq<(string, Json)>, state: string)
    ensures Selected(Names(fields), States(fields), state) == NamesWith(fields, state)
  {
    if |fields| > 0 {
      var n := |fields| - 1;
      SelectedByState(fields[..n], state);
      assert Names(fields)[..n] == Names(fields[..n]);
      assert States(fields)[..n] == States(fields[..n]);
    }
  }

  predicate Holds(fields: seq<(string, Json)>, state: string, name: string) {
    exists i :: 0 <= i < |fields| && fields[i].0 == name && StateOf(fields[i].1) == state
  }

  lemma HoldsAtEnd(fields: seq<(string, Json)>, state: string, name: string)
    requires |fields| > 0
    ensures var n := |fields| - 1;
            Holds(fields, state, name) <==>
              Holds(fields[..n], state, name) || (fields[n].0 == name && StateOf(fields[n].1) == state)
  {
    hide StateOf;
    var n := |fields| - 1;
    if Holds(fields[..n], state, name) {
      var i :| 0 <= i < n && fields[..n][i].0 == name && StateOf(fields[..n][i].1) == state;
      assert fields[i].0 == name;
    }
    if Holds(fields, state, name) {
      var i :| 0 <= i < |fields| && fields[i].0 == name && StateOf(fields[i].1) == state;
      assert i < n ==> fields[..n][i].0 == name;
    }
  }

  lemma {:induction false} NameWithHolds(fields: seq<(string, Json)>, state: string, name: string)
    ensures name in NamesWith(fields, state) <==> Holds(fields, state, name)
  {
    hide StateOf, Holds;
    if |fields| > 0 {
      NameWithHolds(fields[..|fields| - 1], state, name);
      HoldsAtEnd(fields, state, name);
    } else {
      HoldsNowhere(fields, state, name);
    }
  }

  lemma HoldsNowhere(fields: seq<(string, Json)>, state: string, name: string)
    requires |fields| == 0
    ensures !Holds(fields, state, name)
  {
  }

  lemma NamesWithHolds(fields: seq<(string, Json)>, state: string)
    ensures forall name :: name in NamesWith(fields, state) <==>
              exists i :: 0 <= i < |fields| && fields[i].0 == name && StateOf(fields[i].1) == state
  {
    hide StateOf, NamesWith;
    forall name
      ensures name in NamesWith(fields, state) <==>
              exists i :: 0 <= i < |fields| && fields[i].0 == name && StateOf(fields[i].1) == state
    {
      NameWithHolds(fields, state, name);
    }
  }

  lemma NoneWith(fields: seq<(string, Json)>, state: string)
    ensures NamesWith(fields, state) == [] <==> !SomeArgument(fields, state)
    ensures SomeArgument(fields, state) <==> state in States(fields)
  {
    NamesWithHolds(fields, state);
    if SomeArgument(fields, state) {
      var i :| 0 <= i < |fields| && StateOf(fields[i].1) == state;
      assert fields[i].0 in NamesWith(fields, state);
      assert States(fields)[i] == state;
    } else if NamesWith(fields, state) != [] {
      assert NamesWith(fields, state)[0] in NamesWith(fields, state);
    }
  }

  lemma {:induction false} NamesWithInOrder(fields: seq<(string, Json)>, state: string)
    requires InOrder(fields)
    ensures NamesInOrder(NamesWith(fields, state))
  {
    if |fields| > 0 {
      var n := |fields| - 1;
      NamesWithInOrder(fields[..n], state);
      NamesWithHolds(fields[..n], state);
      var before := NamesWith(fields[..n], state);
      forall k | 0 <= k < |before|
        ensures Less(before[k], fields[n].0)
      {
        assert before[k] in before;
        var i :| 0 <= i < n && fields[..n][i].0 == before[k];
      }
    }
  }

  lemma StatesOfText()
    ensures "redacted" != "retained" && "redacted" != "unsupported" && "retained" != "unsupported"
  {
    assert "redacted"[2] == 'd' && "retained"[2] == 't' && "unsupported"[2] == 's';
  }

  // What the retention list of an argument map is classified as.
  function RetentionVerdict(fields: seq<(string, Json)>): Verdict {
    if fields == [] then Verdict(NoArguments, [])
    else if SomeArgument(fields, "unsupported") then Verdict(Unknown, Names(fields))
    else if SomeArgument(fields, "retained") then Verdict(PartiallyRedacted, NamesWith(fields, "retained"))
    else Verdict(FullyRedacted, [])
  }

  lemma RetentionIsClassified(fields: seq<(string, Json)>)
    ensures ClassifyRetention(RetentionOf(fields)) == RetentionVerdict(FromPairs(fields))
  {
    hide ReadRecords, Record, SortNames, Selected, NamesWith, SomeArgument, FromPairs;
    var table := FromPairs(fields);
    FromPairsInOrder(fields);
    RecordsRead(table);
    NoneWith(table, "unsupported");
    NoneWith(table, "retained");
    SelectedByState(table, "retained");
    SortOfOrdered(Names(table));
  }

  // ----- reading the summary back -----

  lemma SummaryIsEmpty(fields: seq<(string, Json)>)
    ensures BoundedSummary(JObj(fields)) == "" <==> FromPairs(fields) == []
  {
    hide Dumps;
    var table := FromPairs(fields);
    if table != [] {
      assert Part(table[0]) != "" && Parts(table)[0] == Part(table[0]);
      assert Join(Parts(table)) != "";
    }
  }

  lemma SummaryIsClassified(h: Numbers, isIdentifier: string -> bool, fields: seq<(string, Json)>)
    requires IdentifierLike(isIdentifier) && Summarizable(h, isIdentifier, fields)
    ensures ClassifySummary(h, isIdentifier, JStr(BoundedSummary(JObj(fields)))) ==
              if Arguments(fields) == [] then Verdict(NoArguments, []) else ParsedVerdict(Arguments(fields))
  {
    hide BoundedSummary, ParseExact, ParsedVerdict, Summarizable, Arguments;
    SummaryRoundTrip(h, isIdentifier, fields, BoundedSummary(JObj(fields)));
    SummaryIsEmpty(fields);
    StatesOfArguments(fields);
  }

  // Agreement: on arguments whose summary is complete, both classifiers give
  // the same class and the same names, except that for an unsupported argument
  // the retention list names every argument and the summary those not redacted.
  lemma {:induction false} ClassifiersAgree(h: Numbers, isIdentifier: string -> bool, fields: seq<(string, Json)>)
    requires IdentifierLike(isIdentifier) && Summarizable(h, isIdentifier, fields)
    ensures var byList := ClassifyRetention(RetentionOf(fields));
            var byText := ClassifySummary(h, isIdentifier, JStr(BoundedSummary(JObj(fields))));
            var table := FromPairs(fields);
            && byList.Verdict? && byText.Verdict? && byList.classification == byText.classification
            && (!SomeArgument(table, "unsupported") ==> byList.names == byText.names)
            && (SomeArgument(table, "unsupported") ==>
                  && byList == Verdict(Unknown, Names(table))
                  && byText == Verdict(Unknown, SortNames(NamesWith(table, "retained") + NamesWith(table, "unsupported"))))
  {
    hide BoundedSummary, ParseExact, Summarizable, Arguments, SortNames, FromPairs, NamesWith, RetentionOf,
      ClassifyRetention, ClassifySummary;
    var table := FromPairs(fields);
    var all := Arguments(fields);
    RetentionIsClassified(fields);
    SummaryIsClassified(h, isIdentifier, fields);
    StatesOfArguments(fields);
    SelectedByState(all, "unsupported");
    SelectedByState(all, "retained");
    SelectedByState(table, "unsupported");
    SelectedByState(table, "retained");
    NoneWith(table, "unsupported");
    NoneWith(table, "retained");
    FromPairsInOrder(fields);
    NamesWithInOrder(table, "retained");
    SortOfOrdered(NamesWith(table, "retained"));
  }

  // The sort in the exceptional case: the names are those of the arguments
  // that are not redacted.
  lemma {:induction false} ReadableNames(fields: seq<(string, Json)>)
    requires InOrder(fields)
    ensures var names := SortNames(NamesWith(fields, "retained") + NamesWith(fields, "unsupported"));
            forall i :: 0 <= i < |fields| ==> (fields[i].0 in names <==> fields[i].1 != JStr(C.REDACTED))
  {
    var retained, unsupported := NamesWith(fields, "retained"), NamesWith(fields, "unsupported");
    var names := SortNames(retained + unsupported);
    SortKeepsNames(retained + unsupported);
    NamesWithHolds(fields, "retained");
    NamesWithHolds(fields, "unsupported");
    StatesOfText();
    forall i | 0 <= i < |fields|
      ensures fields[i].0 in names <==> fields[i].1 != JStr(C.REDACTED)
    {
      var name := fields[i].0;
      assert name in names <==> name in multiset(names);
      assert name in multiset(retained + unsupported) <==> name in retained || name in unsupported;
      if k :| 0 <= k < |fields| && fields[k].0 == name && StateOf(fields[k].1) != "redacted" {
        LessIsTotal(name, name);
        assert k == i;
      }
    }
  }

  // ----- a summary never hides an argument -----

  const MARK: string := "\"<REDACTED>\""

  predicate PlainChar(c: char) {
    c >= ' ' && c != '\"' && c != '\\'
  }

  lemma MarkIsDumped()
    ensures Dumps(JStr(C.REDACTED)) == MARK && MARK == "\"" + Escape(C.REDACTED) + "\""
  {
    hide Escape;
    EscapePlain(C.REDACTED);
  }

  lemma {:induction false} EscapePlain(s: string)
    requires forall i :: 0 <= i < |s| ==> PlainChar(s[i])
    ensures Escape(s) == s
    decreases |s|
  {
    if s != "" {
      EscapePlain(s[1..]);
      assert s == [s[0]] + s[1..] && EscapeChar(s[0]) == [s[0]];
    }
  }

  // A quoted text can only be read in one way.
  lemma QuotedTextIsUnique(s: string, a: string, t: string, b: string)
    requires "\"" + Escape(s) + "\"" + a == "\"" + Escape(t) + "\"" + b
    ensures s == t && a == b
  {
    hide Escape, DecodeString;
    EscapedDecodes(s, a);
    EscapedDecodes(t, b);
    assert ("\"" + Escape(s) + "\"" + a)[1..] == Escape(s) + "\"" + a;
    assert ("\"" + Escape(t) + "\"" + b)[1..] == Escape(t) + "\"" + b;
  }

  lemma PrintedQuote(h: Numbers, j: Json)
    requires FloatsReadBack(h, j) && Print(Spaced, j) != "" && Print(Spaced, j)[0] == '\"'
    ensures j.JStr?
  {
    match j
    case JNum(n) => DecimalDecodes(h, n);
    case JFloat(repr) => NumbersStartSo(h, repr);
    case _ =>
  }

  lemma QuoteMeansString(h: Numbers, v: Json)
    requires FloatsReadBack(h, v) && StartsWith(Dumps(v), '\"')
    ensures Norm(v).JStr? && Dumps(v) == "\"" + Escape(Norm(v).s) + "\""
  {
    hide Norm, Escape;
    NormIsOrdered(h, v);
    PrintedQuote(h, Norm(v));
  }

  lemma FrontOfText(d: string, a: string, b: string)
    requires d != "" && Truncate(d, MAX_VALUE_CHARS) + a == MARK + b
    ensures StartsWith(d, '\"')
    ensures |d| <= MAX_VALUE_CHARS || d == MARK + d[|MARK|..]
  {
    var text := Truncate(d, MAX_VALUE_CHARS) + a;
    assert d[0] == text[0] == MARK[0];
    assert text[..|MARK|] == MARK;
    if |d| > MAX_VALUE_CHARS {
      assert text[..|MARK|] == d[..|MARK|];
    }
  }

  // A value whose text, cut or not, begins like the marker's is the marker.
  lemma OnlyTheMarkerLooksRedacted(h: Numbers, v: Json, a: string, b: string)
    requires FloatsReadBack(h, v)
    requires Truncate(Dumps(v), MAX_VALUE_CHARS) + a == MARK + b
    ensures Norm(v) == JStr(C.REDACTED) && a == b
  {
    hide Norm, Escape, Dumps, FloatsReadBack, Print, Escape;
    var d := Dumps(v);
    DumpsEnd(h, v);
    FrontOfText(d, a, b);
    QuoteMeansString(h, v);
    MarkIsDumped();
    if |d| <= MAX_VALUE_CHARS {
      QuotedTextIsUnique(Norm(v).s, a, C.REDACTED, b);
    } else {
      TextAfterMarker(Norm(v).s, d);
    }
  }

  // A quoted text that begins with the marker's text is the marker's text.
  lemma TextAfterMarker(s: string, d: string)
    requires d == "\"" + Escape(s) + "\"" && |d| >= |MARK| && d == MARK + d[|MARK|..]
    ensures s == C.REDACTED && |d| == |MARK|
  {
    hide Escape;
    MarkIsDumped();
    assert d == "\"" + Escape(s) + "\"" + "";
    QuotedTextIsUnique(s, "", C.REDACTED, d[|MARK|..]);
  }

  predicate PlainNames(fields: seq<(string, Json)>) {
    forall i :: 0 <= i < |fields| ==> '=' !in fields[i].0
  }

  // The text of a part together with everything after it.
  lemma JoinFirst(fields: seq<(string, Json)>)
    requires |fields| > 0
    ensures Join(Parts(fields)) ==
              fields[0].0 + "=" + (Truncate(Dumps(fields[0].1), MAX_VALUE_CHARS) + AfterFirst(fields))
  {
    hide Dumps, Truncate;
    PartsTail(fields);
    var (name, text) := (fields[0].0, Truncate(Dumps(fields[0].1), MAX_VALUE_CHARS));
    if |fields| == 1 {
      assert text + "" == text;
    } else {
      var more := Join(Parts(fields[1..]));
      assert name + "=" + text + ", " + more == name + "=" + (text + (", " + more));
    }
  }

  // A text that begins with a name and an equals sign does so in one way.
  lemma NameIsUnique(m: string, a: string, n: string, b: string)
    requires '=' !in m && '=' !in n && m + "=" + a == n + "=" + b
    ensures m == n && a == b
  {
    FindName(m, a);
    FindName(n, b);
    assert (m + "=" + a)[..|m|] == m && (n + "=" + b)[..|n|] == n;
    assert (m + "=" + a)[|m| + 1..] == a && (n + "=" + b)[|n| + 1..] == b;
  }

  // Two argument maps with one summary: if one is all redacted, so is the other.
  lemma {:induction false} SameTextSameMarkers(h: Numbers, fields: seq<(string, Json)>, marks: seq<(string, Json)>)
    requires PlainNames(fields) && PlainNames(marks) && AllRedacted(marks)
    requires FloatsReadBack(h, JObj(fields)) && Join(Parts(fields)) == Join(Parts(marks))
    ensures forall i :: 0 <= i < |fields| ==> Norm(fields[i].1) == JStr(C.REDACTED)
    decreases |fields|
  {
    hide Dumps, Truncate, Parts, Join;
    if |fields| > 0 {
      JoinFirst(fields);
      if |marks| == 0 {
        EmptyJoin(marks);
      } else {
        JoinFirst(marks);
        MarkFits(marks[0].1);
        NameIsUnique(fields[0].0, Truncate(Dumps(fields[0].1), MAX_VALUE_CHARS) + AfterFirst(fields),
                     marks[0].0, MARK + AfterFirst(marks));
        OnlyTheMarkerLooksRedacted(h, fields[0].1, AfterFirst(fields), AfterFirst(marks));
        if |fields| > 1 {
          assert AfterFirst(fields)[0] == ',';
          assert AfterFirst(fields)[2..] == Join(Parts(fields[1..]));
          assert AfterFirst(marks)[2..] == Join(Parts(marks[1..]));
          SameTextSameMarkers(h, fields[1..], marks[1..]);
        }
      }
    }
  }

  lemma EmptyJoin(fields: seq<(string, Json)>)
    requires |fields| == 0
    ensures Join(Parts(fields)) == ""
  {
  }

  lemma MarkFits(v: Json)
    requires v == JStr(C.REDACTED)
    ensures Truncate(Dumps(v), MAX_VALUE_CHARS) == MARK
  {
    MarkIsDumped();
  }

  ghost predicate Identified(isIdentifier: string -> bool, fields: seq<(string, Json)>) {
    forall i :: 0 <= i < |fields| ==> isIdentifier(fields[i].0)
  }

  lemma IdentifiedMore(isIdentifier: string -> bool, fields: seq<(string, Json)>, name: string, value: Json)
    requires Identified(isIdentifier, fields) && isIdentifier(name)
    ensures Identified(isIdentifier, fields + [(name, value)])
  {
  }

  lemma {:induction false} AcceptedNames(h: Numbers, isIdentifier: string -> bool, summary: string, s: string,
                                         fields: seq<(string, Json)>)
    requires Identified(isIdentifier, fields)
    ensures var r := ParseFrom(h, isIdentifier, summary, s, fields);
            r.fields.Some? ==> Identified(isIdentifier, r.fields.value)
    decreases |s|
  {
    hide BoundedSummary, DecodeValue, InOrder, Identified;
    if s != "" {
      var equals := Find(s, '=');
      if equals < |s| && isIdentifier(s[..equals]) && !HasKey(fields, s[..equals]) {
        var decoded := DecodeValue(h, s[equals + 1..]);
        if decoded.Got? {
          IdentifiedMore(isIdentifier, fields, s[..equals], decoded.value);
          if ", " <= decoded.rest {
            AcceptedNames(h, isIdentifier, summary, decoded.rest[2..], fields + [(s[..equals], decoded.value)]);
          }
        }
      }
    }
  }

  lemma UncutTotal(text: string)
    ensures Truncate(text, MAX_TOTAL_CHARS) == text || EndsWith(Truncate(text, MAX_TOTAL_CHARS), TRUNCATED)
  {
    if |text| > MAX_TOTAL_CHARS {
      var cut := text[..MAX_TOTAL_CHARS] + TRUNCATED;
      assert cut[|cut| - |TRUNCATED|..] == TRUNCATED;
    }
  }

  ghost predicate GuardArguments(h: Numbers, isIdentifier: string -> bool, fields: seq<(string, Json)>) {
    FloatsReadBack(h, JObj(fields)) && forall i :: 0 <= i < |fields| ==> isIdentifier(fields[i].0)
  }

  lemma TableOfArguments(h: Numbers, isIdentifier: string -> bool, fields: seq<(string, Json)>)
    requires IdentifierLike(isIdentifier) && GuardArguments(h, isIdentifier, fields)
    ensures PlainNames(FromPairs(fields)) && FloatsReadBack(h, JObj(FromPairs(fields)))
  {
    hide FromPairs;
    var table := FromPairs(fields);
    FromPairsInOrder(fields);
    FromPairsValues(fields, v => FloatsReadBack(h, v));
    forall i | 0 <= i < |table|
      ensures '=' !in table[i].0
    {
      assert HasKey(table, table[i].0);
      var k :| 0 <= k < |fields| && fields[k].0 == table[i].0;
    }
  }

  // A parsed summary whose verdict is full redaction holds only markers.
  lemma FullVerdictMeansMarkers(fields: seq<(string, Json)>)
    requires ParsedVerdict(fields).Verdict? && ParsedVerdict(fields).classification == FullyRedacted
    ensures AllRedacted(fields)
  {
    hide SortNames, NamesWith;
    NoneWith(fields, "retained");
    NoneWith(fields, "unsupported");
    StatesOfText();
    forall i | 0 <= i < |fields|
      ensures fields[i].1 == JStr(C.REDACTED)
    {
      assert !(StateOf(fields[i].1) == "retained") && !(StateOf(fields[i].1) == "unsupported");
    }
  }

  // Whatever the arguments, and however much of them was cut from the summary:
  // when the summary is classified as fully redacted, every argument is.
  lemma SummaryNeverHides(h: Numbers, isIdentifier: string -> bool, fields: seq<(string, Json)>)
    requires IdentifierLike(isIdentifier) && GuardArguments(h, isIdentifier, fields)
    ensures var verdict := ClassifySummary(h, isIdentifier, JStr(BoundedSummary(JObj(fields))));
            && verdict.Verdict?
            && (verdict.classification == NoArguments <==> FromPairs(fields) == [])
            && (verdict.classification == FullyRedacted ==> AllRedacted(FromPairs(fields)))
  {
    hide ParseFrom, BoundedSummary, FromPairs, Parts, Join, Truncate, ParsedVerdict, GuardArguments;
    var text := BoundedSummary(JObj(fields));
    var table := FromPairs(fields);
    SummaryIsEmpty(fields);
    ParsedIsNotEmptyVerdict();
    var parsed := ParseExact(h, isIdentifier, text);
    if text != "" && parsed.fields.Some? && ParsedVerdict(parsed.fields.value).classification == FullyRedacted {
      var marks := parsed.fields.value;
      FullVerdictMeansMarkers(marks);
      AcceptedReprints(h, isIdentifier, text);
      AcceptedNames(h, isIdentifier, text, text, []);
      FromPairsKeepsOrdered(marks);
      TableOfArguments(h, isIdentifier, fields);
      SummaryText(fields);
      SummaryText(marks);
      UncutTotal(Join(Parts(table)));
      UncutTotal(Join(Parts(marks)));
      SameTextSameMarkers(h, table, marks);
      OnlyTheMarkerIsMarker(table);
    }
  }

  lemma SummaryText(fields: seq<(string, Json)>)
    ensures BoundedSummary(JObj(fields)) == Truncate(Join(Parts(FromPairs(fields))), MAX_TOTAL_CHARS)
  {
  }

  lemma OnlyTheMarkerIsMarker(fields: seq<(string, Json)>)
    requires forall i :: 0 <= i < |fields| ==> Norm(fields[i].1) == JStr(C.REDACTED)
    ensures AllRedacted(fields)
  {
    forall i | 0 <= i < |fields|
      ensures fields[i].1 == JStr(C.REDACTED)
    {
      assert fields[i].1.JStr?;
    }
  }

  lemma ParsedIsNotEmptyVerdict()
    ensures forall fields :: ParsedVerdict(fields).Verdict? && ParsedVerdict(fields).classification != NoArguments
  {
    hide SortNames, NamesWith;
  }

  // ----- whole journals -----

  // The decision event the guard writes for a call with these canonical
  // arguments; older journals lack the retention list.
  ghost predicate RecordedBy(e: Event, fields: seq<(string, Json)>) {
    && Get(e, EventType) == DECISION
    && Get(e, RedactedInputSummary) == JStr(BoundedSummary(JObj(fields)))
    && (Get(e, ParameterRetention) == JNull || Get(e, ParameterRetention) == RetentionOf(fields))
  }

  // The event says everything about the arguments: it has the list, or an uncut summary.
  ghost predicate Telling(h: Numbers, isIdentifier: string -> bool, e: Event, fields: seq<(string, Json)>) {
    Get(e, ParameterRetention) != JNull || Summarizable(h, isIdentifier, fields)
  }

  predicate Harmless(verdict: Verdict) {
    verdict.Verdict? && (verdict.classification == FullyRedacted || verdict.classification == NoArguments)
  }

  lemma RedactedMeansNoState(fields: seq<(string, Json)>)
    ensures AllRedacted(fields) <==> !SomeArgument(fields, "retained") && !SomeArgument(fields, "unsupported")
  {
    StatesOfText();
    if AllRedacted(fields) {
      assert forall i :: 0 <= i < |fields| ==> StateOf(fields[i].1) == "redacted";
    } else {
      var i :| 0 <= i < |fields| && fields[i].1 != JStr(C.REDACTED);
      assert StateOf(fields[i].1) == "retained" || StateOf(fields[i].1) == "unsupported";
    }
  }

  // A harmless verdict on a decision is never wrong, and a harmless decision
  // gets one whenever the event is telling.
  lemma VerdictIsHonest(h: Numbers, isIdentifier: string -> bool, e: Event, fields: seq<(string, Json)>)
    requires IdentifierLike(isIdentifier) && GuardArguments(h, isIdentifier, fields) && RecordedBy(e, fields)
    ensures ClassifyEvent(h, isIdentifier, e).Verdict?
    ensures Harmless(ClassifyEvent(h, isIdentifier, e)) ==> AllRedacted(FromPairs(fields))
    ensures Telling(h, isIdentifier, e, fields) && AllRedacted(FromPairs(fields)) ==>
              Harmless(ClassifyEvent(h, isIdentifier, e))
  {
    hide ClassifySummary, ClassifyRetention, BoundedSummary, FromPairs, SomeArgument, AllRedacted, GuardArguments,
      NamesWith, SortNames, Names, Summarizable;
    RetentionIsClassified(fields);
    RedactedMeansNoState(FromPairs(fields));
    EmptyIsRedacted(FromPairs(fields));
    SummaryNeverHides(h, isIdentifier, fields);
    if Summarizable(h, isIdentifier, fields) {
      ClassifiersAgree(h, isIdentifier, fields);
    }
  }

  lemma EmptyIsRedacted(fields: seq<(string, Json)>)
    ensures fields == [] ==> AllRedacted(fields)
  {
  }

  function AllClasses(actions: seq<Action>): nat {
    CountOf(actions, FullyRedacted) + CountOf(actions, PartiallyRedacted)
    + CountOf(actions, NoArguments) + CountOf(actions, Unknown)
  }

  lemma OneClassEach(actions: seq<Action>, action: Action)
    requires action.verdict.Verdict?
    ensures AllClasses(actions + [action]) == AllClasses(actions) + 1
  {
    var more := actions + [action];
    assert more[..|more| - 1] == actions;
  }

  predicate Balanced(r: Inspection, events: nat) {
    r.Inspection? ==>
      (&& r.tally.decisions == |r.actions| == AllClasses(r.actions)
       && r.tally.allowed + r.tally.denied <= r.tally.decisions
       && r.tally.succeeded + r.tally.failed <= r.tally.outcomes
       && r.tally.decisions + r.tally.outcomes <= events)
  }

  // Every decision is listed once and counted in exactly one class.
  lemma {:induction false} DecisionsAreConserved(h: Numbers, isIdentifier: string -> bool, events: seq<Event>)
    ensures Balanced(InspectOf(h, isIdentifier, events), |events|)
  {
    hide ClassifyEvent, AllClasses;
    if |events| > 0 {
      var n := |events| - 1;
      DecisionsAreConserved(h, isIdentifier, events[..n]);
      var before := InspectOf(h, isIdentifier, events[..n]);
      var r := InspectOf(h, isIdentifier, events);
      if r.Inspection? && |r.actions| > |before.actions| {
        OneClassEach(before.actions, r.actions[|before.actions|]);
      }
    } else {
      NoClasses();
    }
  }

  lemma NoClasses()
    ensures AllClasses([]) == 0
  {
  }

  predicate HarmlessDecisions(h: Numbers, isIdentifier: string -> bool, events: seq<Event>) {
    forall i :: 0 <= i < |events| && Get(events[i], EventType) == DECISION ==>
      Harmless(ClassifyEvent(h, isIdentifier, events[i]))
  }

  predicate SomeDecisionCrashes(h: Numbers, isIdentifier: string -> bool, events: seq<Event>) {
    exists i :: 0 <= i < |events| && Get(events[i], EventType) == DECISION
                && ClassifyEvent(h, isIdentifier, events[i]).Crashed?
  }

  // The counters decide the same as looking at every decision.
  lemma {:induction false} SafeMeansHarmless(h: Numbers, isIdentifier: string -> bool, events: seq<Event>)
    ensures var r := InspectOf(h, isIdentifier, events);
            && (r.InspectionCrashed? <==> SomeDecisionCrashes(h, isIdentifier, events))
            && (r.Inspection? ==> (SafeForUpload(r.actions) <==> HarmlessDecisions(h, isIdentifier, events)))
  {
    hide ClassifyEvent, NameOfAction, TallyDecision, TallyOutcome;
    if |events| > 0 {
      var n := |events| - 1;
      var before := events[..n];
      SafeMeansHarmless(h, isIdentifier, before);
      assert forall i :: 0 <= i < n ==> events[i] == before[i];
      assert HarmlessDecisions(h, isIdentifier, events) <==>
             HarmlessDecisions(h, isIdentifier, before)
             && (Get(events[n], EventType) == DECISION ==> Harmless(ClassifyEvent(h, isIdentifier, events[n])));
      assert SomeDecisionCrashes(h, isIdentifier, events) <==>
             SomeDecisionCrashes(h, isIdentifier, before)
             || (Get(events[n], EventType) == DECISION && ClassifyEvent(h, isIdentifier, events[n]).Crashed?);
      var (r0, r) := (InspectOf(h, isIdentifier, before), InspectOf(h, isIdentifier, events));
      if r.Inspection? && Get(events[n], EventType) == DECISION {
        assert r.actions[..|r.actions| - 1] == r0.actions;
      }
    }
  }

  // Safe for upload means that no argument of any recorded call is readable;
  // and it is exactly that when every decision is telling.
  lemma SafeMeansRedacted(h: Numbers, isIdentifier: string -> bool, events: seq<Event>, args: seq<seq<(string, Json)>>)
    requires IdentifierLike(isIdentifier) && |args| == |events|
    requires forall i :: 0 <= i < |events| && Get(events[i], EventType) == DECISION ==>
      RecordedBy(events[i], args[i]) && GuardArguments(h, isIdentifier, args[i])
    ensures var r := InspectOf(h, isIdentifier, events);
            var redacted := forall i :: 0 <= i < |events| && Get(events[i], EventType) == DECISION ==>
                                          AllRedacted(FromPairs(args[i]));
            && r.Inspection?
            && (SafeForUpload(r.actions) ==> redacted)
            && ((forall i :: 0 <= i < |events| && Get(events[i], EventType) == DECISION ==>
                               Telling(h, isIdentifier, events[i], args[i]))
                ==> (SafeForUpload(r.actions) <==> redacted))
  {
    hide RecordedBy, GuardArguments, Telling, AllRedacted, FromPairs, ClassifyEvent, Harmless, IdentifierLike;
    SafeMeansHarmless(h, isIdentifier, events);
    forall i | 0 <= i < |events| && Get(events[i], EventType) == DECISION
      ensures ClassifyEvent(h, isIdentifier, events[i]).Verdict?
      ensures Harmless(ClassifyEvent(h, isIdentifier, events[i])) ==> AllRedacted(FromPairs(args[i]))
      ensures Telling(h, isIdentifier, events[i], args[i]) && AllRedacted(FromPairs(args[i])) ==>
                Harmless(ClassifyEvent(h, isIdentifier, events[i]))
    {
      VerdictIsHonest(h, isIdentifier, events[i], args[i]);
    }
  }

  // ----- from host values to recorded evidence -----

  // What the guard records of a call's arguments: the digest of the canonical
  // form, its summary and its retention list; or the traversal's failure.
  datatype Input = Refused(error: C.Error) | Input(hash: string, summary: string, retention: Json)

  function RecordInput(policy: C.Policy, heap: C.Heap, args: C.Value, hash: Json -> string): Input {
    match C.Canonicalize(policy, heap, args)
    case Fail(error) => Refused(error)
    case Done(j, _) => Input(hash(Norm(j)), BoundedSummary(j), if j.JObj? then RetentionOf(j.fields) else JArr([]))
  }

  // Two calls that differ only in what sits under sensitive names leave the
  // same record, or fail alike.
  lemma SecretsReachNoRecord(policy: C.Policy, f: map<nat, nat>, h1: C.Heap, h2: C.Heap, v1: C.Value, v2: C.Value,
                             hash: Json -> string)
    requires CanonicalLaws.LowEqual(policy, f, h1, h2) && CanonicalLaws.SameValue(f, v1, v2)
    ensures RecordInput(policy, h1, v1, hash) == RecordInput(policy, h2, v2, hash)
  {
    hide C.Canonicalize, CanonicalLaws.LowEqual;
    CanonicalLaws.RedactionNoninterference(policy, f, h1, h2, v1, v2);
  }

  lemma {:induction false} PutMembers(fields: seq<(string, Json)>, name: string, value: Json)
    ensures forall x :: x in Put(fields, name, value) ==> x == (name, value) || x in fields
    decreases |fields|
  {
    if |fields| > 0 {
      PutMembers(fields[1..], name, value);
    }
  }

  lemma {:induction false} FromPairsMembers(pairs: seq<(string, Json)>)
    ensures forall x :: x in FromPairs(pairs) ==> x in pairs
  {
    if |pairs| > 0 {
      var n := |pairs| - 1;
      FromPairsMembers(pairs[..n]);
      PutMembers(FromPairs(pairs[..n]), pairs[n].0, pairs[n].1);
    }
  }

  // Every argument with a sensitive name is recorded as redacted.
  lemma SensitiveArgumentsAreRedacted(policy: C.Policy, heap: C.Heap, args: C.Value)
    requires C.Canonicalize(policy, heap, args).Done? && C.Canonicalize(policy, heap, args).value.JObj?
    ensures var table := FromPairs(C.Canonicalize(policy, heap, args).value.fields);
            forall i :: 0 <= i < |table| && C.Sensitive(policy, table[i].0) ==> StateOf(table[i].1) == "redacted"
  {
    hide C.Walk;
    var fields := C.Canonicalize(policy, heap, args).value.fields;
    var table := FromPairs(fields);
    CanonicalLaws.SuccessIsNormal(policy, heap, args, 0, {});
    FromPairsMembers(fields);
    forall i | 0 <= i < |table| && C.Sensitive(policy, table[i].0)
      ensures StateOf(table[i].1) == "redacted"
    {
      assert table[i] in table && table[i] in fields;
      var k :| 0 <= k < |fields| && fields[k] == table[i];
      assert fields[k].1 == JStr(C.REDACTED);
    }
  }
}
