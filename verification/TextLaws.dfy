// The texts themselves: what the printer and the encoder write, character by
// character, and the order of names.
module TextLaws {
  import opened Wrappers
  import opened Json
  import opened JsonText
  import opened Evidence
  import opened EventText
  import opened TailReader
  import opened Redaction
  import opened Summary
  import Utf8

  // ----- the order of names -----

  // Names are compared by their first different character; a proper beginning
  // of a name comes before it.
  lemma {:induction false} LessExactly(a: string, b: string)
    ensures Less(a, b) <==>
            exists k :: 0 <= k <= |a| && k < |b| && a[..k] == b[..k] && (k == |a| || a[k] < b[k])
    decreases |a|
  {
    if b == "" {
    } else if a == "" {
      assert a[..0] == b[..0];
    } else if a[0] != b[0] {
      assert a[..0] == b[..0];
      assert forall k :: 0 < k <= |a| && k < |b| ==> a[..k][0] != b[..k][0];
    } else {
      LessExactly(a[1..], b[1..]);
      if k :| 0 <= k <= |a[1..]| && k < |b[1..]| && a[1..][..k] == b[1..][..k] && (k == |a[1..]| || a[1..][k] < b[1..][k]) {
        assert a[..k + 1] == [a[0]] + a[1..][..k] && b[..k + 1] == [b[0]] + b[1..][..k];
      }
      if k :| 0 <= k <= |a| && k < |b| && a[..k] == b[..k] && (k == |a| || a[k] < b[k]) {
        assert k > 0;
        assert a[1..][..k - 1] == a[..k][1..] && b[1..][..k - 1] == b[..k][1..];
      }
    }
  }

  // ----- what is written -----

  // Only quotes, backslashes and control characters are escaped.
  lemma EscapedExactly(c: char)
    ensures c == '\"' ==> EscapeChar(c) == "\\\""
    ensures c == '\\' ==> EscapeChar(c) == "\\\\"
    ensures c == '\n' ==> EscapeChar(c) == "\\n"
    ensures c == '\r' ==> EscapeChar(c) == "\\r"
    ensures c == '\t' ==> EscapeChar(c) == "\\t"
    ensures c as int == 8 ==> EscapeChar(c) == "\\b"
    ensures c as int == 12 ==> EscapeChar(c) == "\\f"
    ensures c as int == 1 ==> EscapeChar(c) == "\\u0001"
    ensures c as int == 31 ==> EscapeChar(c) == "\\u001f"
    ensures c >= ' ' && c != '\"' && c != '\\' ==> EscapeChar(c) == [c]
    ensures c < ' ' ==> |EscapeChar(c)| == 2 || (|EscapeChar(c)| == 6 && "\\u00" <= EscapeChar(c))
  {
  }

  function JoinWith(separator: string, parts: seq<string>): string {
    if |parts| == 0 then ""
    else if |parts| == 1 then parts[0]
    else parts[0] + separator + JoinWith(separator, parts[1..])
  }

  function ItemTexts(style: Style, items: seq<Json>): seq<string> {
    seq(|items|, i requires 0 <= i < |items| => Print(style, items[i]))
  }

  function MemberTexts(style: Style, fields: seq<(string, Json)>): seq<string> {
    seq(|fields|, i requires 0 <= i < |fields| =>
      "\"" + Escape(fields[i].0) + "\"" + (if style.Compact? then ":" else ": ") + Print(style, fields[i].1))
  }

  // The style of events has no space after a separator, that of summaries one.
  lemma {:induction false} ItemsAreJoined(style: Style, items: seq<Json>)
    ensures PrintItems(style, items) == JoinWith(if style.Compact? then "," else ", ", ItemTexts(style, items))
  {
    hide Print;
    if |items| > 1 {
      ItemsAreJoined(style, items[1..]);
      assert ItemTexts(style, items)[1..] == ItemTexts(style, items[1..]);
    }
  }

  lemma {:induction false} MembersAreJoined(style: Style, fields: seq<(string, Json)>)
    ensures PrintMembers(style, fields) == JoinWith(if style.Compact? then "," else ", ", MemberTexts(style, fields))
  {
    hide Print, Escape;
    if |fields| > 1 {
      MembersAreJoined(style, fields[1..]);
      assert MemberTexts(style, fields)[1..] == MemberTexts(style, fields[1..]);
    }
  }

  // Every value has the text the format gives it.
  lemma PrintedExactly(style: Style, j: Json)
    ensures Print(style, j) ==
              match j
              case JNull => "null"
              case JBool(b) => if b then "true" else "false"
              case JNum(n) => Decimal(n)
              case JFloat(repr) => repr
              case JStr(s) => "\"" + Escape(s) + "\""
              case JArr(items) => "[" + JoinWith(if style.Compact? then "," else ", ", ItemTexts(style, items)) + "]"
              case JObj(fields) => "{" + JoinWith(if style.Compact? then "," else ", ", MemberTexts(style, fields)) + "}"
  {
    hide JoinWith, ItemTexts, MemberTexts, PrintItems, PrintMembers;
    match j
    case JArr(items) => ItemsAreJoined(style, items);
    case JObj(fields) => MembersAreJoined(style, fields);
    case _ =>
  }

  // The bytes of one character of each length (section 3 of RFC 3629).
  lemma BytesOfCharacters()
    ensures Utf8.EncodeChar('A') == [0x41]
    ensures Utf8.EncodeChar(0xE9 as char) == [0xC3, 0xA9]
    ensures Utf8.EncodeChar(0x20AC as char) == [0xE2, 0x82, 0xAC]
    ensures Utf8.EncodeChar(0x1F600 as char) == [0xF0, 0x9F, 0x98, 0x80]
  {
  }

  // ----- the text of an event -----

  // The keys of an event's text are its field names, in order, each once, with
  // the values of the fields.
  lemma KeysOfText(e: Event)
    ensures TextOf(e) == Print(Compact, JObj(Entries(e)))
    ensures InOrder(Entries(e))
    ensures forall name, j :: (name, j) in Entries(e) <==> FieldOf(name) in e && e[FieldOf(name)] == j
  {
    hide Print, Entries;
    EntriesSpell(e);
    forall name, j | (name, j) in Entries(e)
      ensures FieldOf(name) in e && e[FieldOf(name)] == j
    {
      assert Owns(e, (name, j));
    }
    forall name, j | FieldOf(name) in e && e[FieldOf(name)] == j
      ensures (name, j) in Entries(e)
    {
      assert Lists(Entries(e), FieldOf(name), e[FieldOf(name)]);
      NameOfField(name);
    }
  }

  // The name of each field in the text of an event.
  const NAMED: seq<(string, Field)> := [
    ("schema_version", SchemaVersion), ("event_type", EventType), ("event_id", EventId), ("action_id", ActionId),
    ("action_name", ActionName), ("contract_hash", ContractHash), ("timestamp_utc", TimestampUtc), ("key_id", KeyId),
    ("previous_event_hash", PreviousEventHash), ("event_hash", EventHash), ("signature", Signature),
    ("decision", Decision), ("risk", Risk), ("approval_mode", ApprovalMode),
    ("redacted_input_summary", RedactedInputSummary), ("input_hash", InputHash), ("status", Status),
    ("decision_event_id", DecisionEventId), ("checkpoint_count", CheckpointCount), ("head_sha256", HeadSha256),
    ("parameter_retention", ParameterRetention)]

  lemma NamedInText(e: Event, k: nat, j: Json)
    requires k < |NAMED|
    ensures (NAMED[k].0, j) in Entries(e) <==> NAMED[k].1 in e && e[NAMED[k].1] == j
  {
    hide Entries;
    KeysOfText(e);
    var (name, f) := NAMED[k];
    NamedAs(k);
    FieldFromFinds(name, 0);
    KnownFieldsAreAll(f);
    if !FieldOf(name).Other? {
      KnownNamesDiffer(f, FieldOf(name));
    }
  }

  lemma NamedAs(k: nat)
    requires k < |NAMED|
    ensures FieldName(NAMED[k].1) == NAMED[k].0 && !NAMED[k].1.Other?
  {
  }

  lemma NameOfField(name: string)
    ensures FieldName(FieldOf(name)) == name
  {
    NameFrom(name, 0);
  }

  lemma {:induction false} NameFrom(name: string, i: nat)
    ensures FieldName(FieldFrom(name, i)) == name
    decreases |KNOWN_FIELDS| - i
  {
    if i < |KNOWN_FIELDS| && FieldName(KNOWN_FIELDS[i]) != name {
      NameFrom(name, i + 1);
    }
  }

  // ----- summaries -----

  // A summary is cut at 2000 characters, each value in it at 120.
  lemma SummaryIsBounded(j: Json, field: (string, Json))
    ensures |BoundedSummary(j)| <= 2014
    ensures var text := Dumps(field.1);
            Part(field) == field.0 + "=" + if |text| <= 120 then text else text[..120] + "...(truncated)"
    ensures j.JObj? ==>
              var joined := Join(Parts(FromPairs(j.fields)));
              BoundedSummary(j) == if |joined| <= 2000 then joined else joined[..2000] + "...(truncated)"
    ensures !j.JObj? ==>
              var text := Dumps(j);
              BoundedSummary(j) == if |text| <= 2000 then text else text[..2000] + "...(truncated)"
  {
    hide Dumps, Join;
  }

  // Two arguments, given in the other order.
  lemma SummaryOfTwo(a: Json, b: Json)
    requires |Dumps(a)| <= 120 && |Dumps(b)| <= 120
    ensures BoundedSummary(JObj([("y", b), ("x", a)])) == "x=" + Dumps(a) + ", y=" + Dumps(b)
  {
    hide Dumps;
    var pairs := [("y", b), ("x", a)];
    assert pairs[..1] == [("y", b)] && pairs[..1][..0] == [];
    assert Less("x", "y");
    assert FromPairs(pairs[..1]) == [("y", b)];
    assert FromPairs(pairs) == [("x", a), ("y", b)];
    var parts := Parts([("x", a), ("y", b)]);
    assert parts[1..] == [parts[1]];
    assert Join(parts) == parts[0] + ", " + parts[1];
  }
}
