// The bounded argument summary, and the parser that reads one back.
module Summary {
  import opened Wrappers
  import opened Json
  import opened JsonText
  import opened JsonTextLaws
  import opened Redaction

  const MAX_VALUE_CHARS: nat := 120
  const MAX_TOTAL_CHARS: nat := 2000

  // str.isidentifier, about which only this is used.
  ghost predicate IdentifierLike(isIdentifier: string -> bool) {
    forall name :: isIdentifier(name) ==> name != "" && '=' !in name
  }

  function Join(parts: seq<string>): string {
    if |parts| == 0 then ""
    else if |parts| == 1 then parts[0]
    else parts[0] + ", " + Join(parts[1..])
  }

  function Part(field: (string, Json)): string {
    field.0 + "=" + Truncate(Dumps(field.1), MAX_VALUE_CHARS)
  }

  function Parts(fields: seq<(string, Json)>): (parts: seq<string>)
    ensures |parts| == |fields|
  {
    seq(|fields|, i requires 0 <= i < |fields| => Part(fields[i]))
  }

  function BoundedSummary(j: Json): string {
    if j.JObj? then Truncate(Join(Parts(FromPairs(j.fields))), MAX_TOTAL_CHARS)
    else Truncate(Dumps(j), MAX_TOTAL_CHARS)
  }

  method Summarize(j: Json) returns (summary: string)
    ensures summary == BoundedSummary(j)
  {
    if !j.JObj? {
      return Truncate(Dumps(j), MAX_TOTAL_CHARS);
    }
    var fields := FromPairs(j.fields);
    var parts: seq<string> := [];
    for i := 0 to |fields|
      invariant parts == Parts(fields[..i])
    {
      parts := parts + [fields[i].0 + "=" + Truncate(Dumps(fields[i].1), MAX_VALUE_CHARS)];
    }
    assert fields[..|fields|] == fields;
    return Truncate(Join(parts), MAX_TOTAL_CHARS);
  }

  // ----- the parser -----

  // str.find of a character.
  function Find(s: string, c: char): (i: nat)
    ensures i <= |s| && c !in s[..i] && (i < |s| ==> s[i] == c)
  {
    if s == "" || s[0] == c then 0
    else
      var i := 1 + Find(s[1..], c);
      assert s[..i] == [s[0]] + s[1..][..i - 1];
      i
  }

  predicate EndsWith(s: string, suffix: string) {
    |s| >= |suffix| && s[|s| - |suffix|..] == suffix
  }

  function Names(fields: seq<(string, Json)>): (names: seq<string>)
    ensures |names| == |fields|
  {
    seq(|fields|, i requires 0 <= i < |fields| => fields[i].0)
  }

  // What the parser returns: the parsed arguments or nothing, and the names
  // read up to that point.
  datatype Parsed = Parsed(fields: Option<seq<(string, Json)>>, names: seq<string>)

  function Rejected(fields: seq<(string, Json)>): Parsed {
    Parsed(None, Names(fields))
  }

  function Finish(summary: string, fields: seq<(string, Json)>): Parsed {
    if !InOrder(fields) || BoundedSummary(JObj(fields)) != summary then Rejected(fields)
    else Parsed(Some(fields), Names(fields))
  }

  function ParseFrom(h: Numbers, isIdentifier: string -> bool, summary: string, s: string,
                     fields: seq<(string, Json)>): Parsed
    decreases |s|
  {
    if s == "" then Finish(summary, fields)
    else
      var equals := Find(s, '=');
      if equals == |s| || !isIdentifier(s[..equals]) || HasKey(fields, s[..equals]) then Rejected(fields)
      else
        match DecodeValue(h, s[equals + 1..])
        case Fail => Rejected(fields)
        case Got(value, rest) =>
          var more := fields + [(s[..equals], value)];
          if rest == "" then Finish(summary, more)
          else if ", " <= rest then ParseFrom(h, isIdentifier, summary, rest[2..], more)
          else Rejected(more)
  }

  function ParseExact(h: Numbers, isIdentifier: string -> bool, summary: string): Parsed {
    if EndsWith(summary, TRUNCATED) then Parsed(None, [])
    else ParseFrom(h, isIdentifier, summary, summary, [])
  }

  method ParseExactSummary(h: Numbers, isIdentifier: string -> bool, summary: string) returns (r: Parsed)
    ensures r == ParseExact(h, isIdentifier, summary)
  {
    hide Finish, DecodeValue, InOrder;
    if EndsWith(summary, TRUNCATED) {
      return Parsed(None, []);
    }
    // todo is the text from the current offset on.
    var fields: seq<(string, Json)> := [];
    var todo := summary;
    while todo != ""
      invariant ParseExact(h, isIdentifier, summary) == ParseFrom(h, isIdentifier, summary, todo, fields)
      decreases |todo|
    {
      var equals := Find(todo, '=');
      if equals == |todo| {
        return Rejected(fields);
      }
      var name := todo[..equals];
      if !isIdentifier(name) || HasKey(fields, name) {
        return Rejected(fields);
      }
      var decoded := DecodeValue(h, todo[equals + 1..]);
      if decoded.Fail? {
        return Rejected(fields);
      }
      fields := fields + [(name, decoded.value)];
      if decoded.rest == "" {
        break;
      }
      if !(", " <= decoded.rest) {
        return Rejected(fields);
      }
      todo := decoded.rest[2..];
    }
    return Finish(summary, fields);
  }

  // ----- the printer and the parser are inverse to each other -----

  // No value and not the whole was cut.
  predicate Untruncated(fields: seq<(string, Json)>) {
    && (forall i :: 0 <= i < |fields| ==> |Dumps(fields[i].1)| <= MAX_VALUE_CHARS)
    && |Join(Parts(fields))| <= MAX_TOTAL_CHARS
  }

  lemma WholeEndsInDigit(s: string)
    requires WholeLength(s) > 0
    ensures IsDigit(s[WholeLength(s) - 1])
  {
    var sign := if StartsWith(s, '-') then 1 else 0;
    DigitsCounted(s[sign..]);
    var n := WholeLength(s);
    assert s[n - 1] == s[sign..][n - 1 - sign];
  }

  lemma FractionEndsInDigit(s: string)
    requires FractionLength(s) > 0
    ensures IsDigit(s[FractionLength(s) - 1])
  {
    DigitsCounted(s[1..]);
    var n := FractionLength(s);
    assert s[n - 1] == s[1..][n - 2];
  }

  lemma ExponentEndsInDigit(s: string)
    requires ExponentLength(s) > 0
    ensures IsDigit(s[ExponentLength(s) - 1])
  {
    var sign := if StartsWith(s[1..], '+') || StartsWith(s[1..], '-') then 1 else 0;
    DigitsCounted(s[1 + sign..]);
    var n := ExponentLength(s);
    assert s[n - 1] == s[1 + sign..][n - 2 - sign];
  }

  lemma NumberEndsInDigit(h: Numbers, s: string)
    requires DecodeNumber(h, s).Got? && DecodeNumber(h, s).rest == ""
    ensures s != "" && IsDigit(s[|s| - 1])
  {
    hide WholeLength, FractionLength, ExponentLength, WholeValue;
    var whole := WholeLength(s);
    var t := s[whole..];
    var fraction := FractionLength(t);
    var u := s[whole + fraction..];
    var exponent := ExponentLength(u);
    assert |s[whole + fraction + exponent..]| == 0;
    if exponent > 0 {
      ExponentEndsInDigit(u);
      assert u[exponent - 1] == s[|s| - 1];
    } else if fraction > 0 {
      FractionEndsInDigit(t);
      assert t[fraction - 1] == s[|s| - 1];
    } else {
      WholeEndsInDigit(s);
    }
  }

  predicate ClosesWith(s: string, c: char) {
    s != "" && s[|s| - 1] == c
  }

  lemma PrintEnd(h: Numbers, j: Json)
    requires FloatsReadBack(h, j)
    ensures Print(Spaced, j) != "" && !ClosesWith(Print(Spaced, j), ')')
  {
    match j
    case JNum(n) =>
      DecimalDecodes(h, n);
      NumberEndsInDigit(h, Decimal(n));
    case JFloat(repr) => NumberEndsInDigit(h, repr);
    case _ =>
  }

  lemma DumpsEnd(h: Numbers, j: Json)
    requires FloatsReadBack(h, j)
    ensures Dumps(j) != "" && !ClosesWith(Dumps(j), ')')
  {
    NormIsOrdered(h, j);
    PrintEnd(h, Norm(j));
  }

  ghost predicate Readable(h: Numbers, isIdentifier: string -> bool, fields: seq<(string, Json)>) {
    && (forall i :: 0 <= i < |fields| ==>
          isIdentifier(fields[i].0) && FloatsReadBack(h, fields[i].1) && Ordered(fields[i].1)
          && |Dumps(fields[i].1)| <= MAX_VALUE_CHARS)
    && InOrder(fields)
  }

  lemma {:induction false} SummaryEnd(h: Numbers, isIdentifier: string -> bool, fields: seq<(string, Json)>)
    requires Readable(h, isIdentifier, fields)
    ensures !ClosesWith(Join(Parts(fields)), ')')
    decreases |fields|
  {
    hide Dumps;
    if |fields| > 0 {
      var s := Join(Parts(fields));
      DumpsEnd(h, fields[0].1);
      var d := Dumps(fields[0].1);
      assert ClosesWith(Parts(fields)[0], d[|d| - 1]);
      if |fields| > 1 {
        PartsTail(fields);
        SummaryEnd(h, isIdentifier, fields[1..]);
        var t := Join(Parts(fields[1..]));
        assert s == Parts(fields)[0] + ", " + t;
        assert ClosesWith(s, ')') ==> t != "" ==> ClosesWith(t, ')');
      }
    }
  }

  lemma PartsTail(fields: seq<(string, Json)>)
    requires |fields| > 0
    ensures Parts(fields)[1..] == Parts(fields[1..])
  {
  }

  lemma {:induction false} FindName(name: string, s: string)
    requires '=' !in name
    ensures Find(name + "=" + s, '=') == |name|
    decreases |name|
  {
    if name != "" {
      FindName(name[1..], s);
      assert (name + "=" + s)[1..] == name[1..] + "=" + s;
    }
  }

  // One round of the parser on a well-formed part.
  lemma ParseStep(h: Numbers, isIdentifier: string -> bool, summary: string, before: seq<(string, Json)>,
                  name: string, value: Json, text: string, rest: string)
    requires isIdentifier(name) && '=' !in name && !HasKey(before, name)
    requires DecodeValue(h, text) == Got(value, rest)
    ensures var more := before + [(name, value)];
            ParseFrom(h, isIdentifier, summary, name + "=" + text, before) ==
              if rest == "" then Finish(summary, more)
              else if ", " <= rest then ParseFrom(h, isIdentifier, summary, rest[2..], more)
              else Rejected(more)
  {
    hide Finish, DecodeValue, Find, HasKey;
    var s := name + "=" + text;
    FindName(name, text);
    assert s[..|name|] == name && s[|name| + 1..] == text;
  }

  lemma PartOfShort(field: (string, Json))
    requires |Dumps(field.1)| <= MAX_VALUE_CHARS
    ensures Part(field) == field.0 + "=" + Dumps(field.1)
  {
  }

  // What follows the first value in the summary.
  function AfterFirst(fields: seq<(string, Json)>): (rest: string)
    requires |fields| > 0
    ensures Ended(rest)
  {
    if |fields| == 1 then "" else ", " + Join(Parts(fields[1..]))
  }

  lemma JoinUnfolds(fields: seq<(string, Json)>)
    requires |fields| > 0 && |Dumps(fields[0].1)| <= MAX_VALUE_CHARS
    ensures Join(Parts(fields)) == fields[0].0 + "=" + (Dumps(fields[0].1) + AfterFirst(fields))
  {
    hide Dumps, Part;
    var (name, value) := fields[0];
    PartOfShort(fields[0]);
    PartsTail(fields);
    if |fields| == 1 {
      assert Dumps(value) + "" == Dumps(value);
    } else {
      var more := Join(Parts(fields[1..]));
      assert name + "=" + Dumps(value) + ", " + more == name + "=" + (Dumps(value) + (", " + more));
    }
  }

  lemma ReadableTail(h: Numbers, isIdentifier: string -> bool, fields: seq<(string, Json)>)
    requires |fields| > 0 && Readable(h, isIdentifier, fields)
    ensures Readable(h, isIdentifier, fields[1..])
  {
    hide FloatsReadBack, Ordered, Dumps, Less;
  }

  lemma MoveFirst<T>(before: seq<T>, fields: seq<T>)
    requires |fields| > 0
    ensures before + fields == before + [fields[0]] + fields[1..]
    ensures |fields| == 1 ==> before + fields == before + [fields[0]]
  {
  }

  lemma FirstParses(h: Numbers, isIdentifier: string -> bool, summary: string,
                    before: seq<(string, Json)>, fields: seq<(string, Json)>)
    requires IdentifierLike(isIdentifier) && Readable(h, isIdentifier, fields) && InOrder(before + fields)
    requires |fields| > 0
    ensures var more := before + [fields[0]];
            ParseFrom(h, isIdentifier, summary, Join(Parts(fields)), before) ==
              if |fields| == 1 then Finish(summary, more)
              else ParseFrom(h, isIdentifier, summary, Join(Parts(fields[1..])), more)
  {
    hide Finish, DecodeValue, Dumps, HasKey, FloatsReadBack, Ordered, InOrder, Parts, Less, ParseFrom, Join;
    var (name, value) := fields[0];
    JoinUnfolds(fields);
    FreshName(before, fields);
    DumpedDecodes(h, value, AfterFirst(fields));
    NormOfOrdered(value);
    ParseStep(h, isIdentifier, summary, before, name, value, Dumps(value) + AfterFirst(fields), AfterFirst(fields));
    if |fields| > 1 {
      assert AfterFirst(fields)[2..] == Join(Parts(fields[1..]));
    }
  }

  // The part of the summary from one argument on parses to the arguments from there on.
  lemma {:induction false} PartsParse(h: Numbers, isIdentifier: string -> bool, summary: string,
                                      before: seq<(string, Json)>, fields: seq<(string, Json)>)
    requires IdentifierLike(isIdentifier) && Readable(h, isIdentifier, fields) && InOrder(before + fields)
    ensures ParseFrom(h, isIdentifier, summary, Join(Parts(fields)), before) == Finish(summary, before + fields)
    decreases |fields|
  {
    hide Finish, InOrder, Parts, Readable, IdentifierLike;
    if |fields| == 0 {
      assert before + fields == before;
      assert Join(Parts(fields)) == "";
    } else {
      hide ParseFrom, Join;
      MoveFirst(before, fields);
      FirstParses(h, isIdentifier, summary, before, fields);
      if |fields| > 1 {
        ReadableTail(h, isIdentifier, fields);
        PartsParse(h, isIdentifier, summary, before + [fields[0]], fields[1..]);
      }
    }
  }

  lemma FreshName(before: seq<(string, Json)>, fields: seq<(string, Json)>)
    requires |fields| > 0 && InOrder(before + fields)
    ensures !HasKey(before, fields[0].0)
  {
    var all := before + fields;
    forall i | 0 <= i < |before|
      ensures before[i].0 != fields[0].0
    {
      assert Less(all[i].0, all[|before|].0);
      LessIsTotal(all[i].0, all[i].0);
    }
  }

  // The canonical form of an argument map, as the summary shows it.
  function Arguments(fields: seq<(string, Json)>): seq<(string, Json)> {
    Norm(JObj(fields)).fields
  }

  // The arguments whose summary says all: names are identifiers and nothing is cut.
  ghost predicate Summarizable(h: Numbers, isIdentifier: string -> bool, fields: seq<(string, Json)>) {
    && FloatsReadBack(h, JObj(fields))
    && (forall i :: 0 <= i < |fields| ==> isIdentifier(fields[i].0))
    && Untruncated(Arguments(fields))
  }

  lemma ArgumentsReadable(h: Numbers, isIdentifier: string -> bool, fields: seq<(string, Json)>)
    requires Summarizable(h, isIdentifier, fields)
    ensures Readable(h, isIdentifier, Arguments(fields))
  {
    hide Dumps;
    var all := Arguments(fields);
    NormIsOrdered(h, JObj(fields));
    FromPairsInOrder(NormMembers(fields));
    forall i | 0 <= i < |all|
      ensures isIdentifier(all[i].0)
    {
      assert HasKey(all, all[i].0);
      var k :| 0 <= k < |NormMembers(fields)| && NormMembers(fields)[k].0 == all[i].0;
      assert isIdentifier(fields[k].0);
    }
  }

  // Norm commutes with building the dictionary, so the summary of the map is
  // the summary of its normal form.
  lemma {:induction false} NormPut(fields: seq<(string, Json)>, name: string, value: Json)
    ensures NormMembers(Put(fields, name, value)) == Put(NormMembers(fields), name, Norm(value))
    decreases |fields|
  {
    if |fields| > 0 {
      assert NormMembers(fields)[1..] == NormMembers(fields[1..]);
      NormPut(fields[1..], name, value);
    }
  }

  lemma {:induction false} NormFromPairs(fields: seq<(string, Json)>)
    ensures NormMembers(FromPairs(fields)) == FromPairs(NormMembers(fields))
  {
    if |fields| > 0 {
      var n := |fields| - 1;
      NormFromPairs(fields[..n]);
      NormPut(FromPairs(fields[..n]), fields[n].0, fields[n].1);
      assert NormMembers(fields)[..n] == NormMembers(fields[..n]);
    }
  }

  lemma NormTwice(h: Numbers, j: Json)
    ensures Norm(Norm(j)) == Norm(j)
  {
    NormIsOrdered(h, j);
    NormOfOrdered(Norm(j));
  }

  lemma SummaryOfNormalForm(h: Numbers, fields: seq<(string, Json)>)
    ensures Parts(FromPairs(fields)) == Parts(Arguments(fields))
    ensures FromPairs(Arguments(fields)) == Arguments(fields)
    ensures BoundedSummary(JObj(Arguments(fields))) == BoundedSummary(JObj(fields))
  {
    hide Join, Truncate;
    var table := FromPairs(fields);
    var all := Arguments(fields);
    NormFromPairs(fields);
    assert all == NormMembers(table);
    forall i | 0 <= i < |table|
      ensures Part(all[i]) == Part(table[i])
    {
      NormTwice(h, table[i].1);
    }
    FromPairsInOrder(NormMembers(fields));
    FromPairsKeepsOrdered(all);
  }

  // The round trip, and its converse: on arguments whose summary is not cut,
  // the summary is the one text that parses back to them.
  lemma SummaryRoundTrip(h: Numbers, isIdentifier: string -> bool, fields: seq<(string, Json)>, summary: string)
    requires IdentifierLike(isIdentifier) && Summarizable(h, isIdentifier, fields)
    ensures ParseExact(h, isIdentifier, summary).fields == Some(Arguments(fields)) <==>
            summary == BoundedSummary(JObj(fields))
    ensures ParseExact(h, isIdentifier, BoundedSummary(JObj(fields))) ==
            Parsed(Some(Arguments(fields)), Names(Arguments(fields)))
  {
    hide Join, Truncate, Dumps, Norm, FromPairs;
    var all := Arguments(fields);
    var text := BoundedSummary(JObj(fields));
    ArgumentsReadable(h, isIdentifier, fields);
    SummaryOfNormalForm(h, fields);
    UntruncatedJoin(all);
    SummaryEnd(h, isIdentifier, all);
    assert [] + all == all;
    PartsParse(h, isIdentifier, text, [], all);
    AcceptedReprints(h, isIdentifier, summary);
  }

  lemma UntruncatedJoin(fields: seq<(string, Json)>)
    requires Untruncated(fields)
    ensures Truncate(Join(Parts(fields)), MAX_TOTAL_CHARS) == Join(Parts(fields))
  {
  }

  lemma {:induction false} ParseFromReprints(h: Numbers, isIdentifier: string -> bool, summary: string, s: string,
                                             fields: seq<(string, Json)>)
    ensures var r := ParseFrom(h, isIdentifier, summary, s, fields);
            r.fields.Some? ==>
              (BoundedSummary(JObj(r.fields.value)) == summary
               && InOrder(r.fields.value) && r.names == Names(r.fields.value))
    decreases |s|
  {
    hide BoundedSummary, DecodeValue;
    if s != "" {
      var equals := Find(s, '=');
      if equals < |s| && isIdentifier(s[..equals]) && !HasKey(fields, s[..equals]) {
        var decoded := DecodeValue(h, s[equals + 1..]);
        if decoded.Got? && ", " <= decoded.rest {
          ParseFromReprints(h, isIdentifier, summary, decoded.rest[2..], fields + [(s[..equals], decoded.value)]);
        }
      }
    }
  }

  // Whatever the parser accepts prints as the text it was read from, its
  // names in order.
  lemma AcceptedReprints(h: Numbers, isIdentifier: string -> bool, summary: string)
    ensures var r := ParseExact(h, isIdentifier, summary);
            r.fields.Some? ==>
              (BoundedSummary(JObj(r.fields.value)) == summary
               && InOrder(r.fields.value) && r.names == Names(r.fields.value))
  {
    ParseFromReprints(h, isIdentifier, summary, summary, []);
  }
}
