// Decoding a printed value gives it back, whatever follows it in the text.
module JsonTextLaws {
  import opened Json
  import opened JsonText

  // Every object, at any depth, is in key order.
  predicate Ordered(j: Json) {
    match j
    case JArr(items) => forall i :: 0 <= i < |items| ==> Ordered(items[i])
    case JObj(fields) => InOrder(fields) && forall i :: 0 <= i < |fields| ==> Ordered(fields[i].1)
    case _ => true
  }

  // The text of a float that the host prints: a number text with a fraction or
  // an exponent, which reads back as itself.
  predicate FloatText(h: Numbers, repr: string) {
    && repr != ""
    && DecodeNumber(h, repr) == Got(JFloat(repr), "")
  }

  predicate FloatsReadBack(h: Numbers, j: Json) {
    match j
    case JFloat(repr) => FloatText(h, repr)
    case JArr(items) => forall i :: 0 <= i < |items| ==> FloatsReadBack(h, items[i])
    case JObj(fields) => forall i :: 0 <= i < |fields| ==> FloatsReadBack(h, fields[i].1)
    case _ => true
  }

  // ----- the normal form -----

  function NormMembers(fields: seq<(string, Json)>): (pairs: seq<(string, Json)>)
    ensures |pairs| == |fields|
  {
    seq(|fields|, i requires 0 <= i < |fields| => (fields[i].0, Norm(fields[i].1)))
  }

  ghost predicate AllValues(fields: seq<(string, Json)>, good: Json -> bool) {
    forall i :: 0 <= i < |fields| ==> good(fields[i].1)
  }

  lemma {:induction false} PutValues(fields: seq<(string, Json)>, name: string, value: Json, good: Json -> bool)
    requires AllValues(fields, good) && good(value)
    ensures AllValues(Put(fields, name, value), good)
    decreases |fields|
  {
    if |fields| > 0 {
      PutValues(fields[1..], name, value, good);
    }
  }

  lemma {:induction false} FromPairsValues(pairs: seq<(string, Json)>, good: Json -> bool)
    requires AllValues(pairs, good)
    ensures AllValues(FromPairs(pairs), good)
  {
    if |pairs| > 0 {
      var n := |pairs| - 1;
      FromPairsValues(pairs[..n], good);
      PutValues(FromPairs(pairs[..n]), pairs[n].0, pairs[n].1, good);
    }
  }

  lemma {:induction false} NormIsOrdered(h: Numbers, j: Json)
    ensures Ordered(Norm(j))
    ensures FloatsReadBack(h, j) ==> FloatsReadBack(h, Norm(j))
  {
    match j
    case JArr(items) =>
      forall i | 0 <= i < |items|
        ensures Ordered(Norm(items[i])) && (FloatsReadBack(h, items[i]) ==> FloatsReadBack(h, Norm(items[i])))
      {
        NormIsOrdered(h, items[i]);
      }
    case JObj(fields) =>
      forall i | 0 <= i < |fields|
        ensures Ordered(Norm(fields[i].1))
        ensures FloatsReadBack(h, fields[i].1) ==> FloatsReadBack(h, Norm(fields[i].1))
      {
        NormIsOrdered(h, fields[i].1);
      }
      FromPairsInOrder(NormMembers(fields));
      FromPairsValues(NormMembers(fields), Ordered);
      if FloatsReadBack(h, j) {
        FromPairsValues(NormMembers(fields), v => FloatsReadBack(h, v));
      }
    case _ =>
  }

  lemma {:induction false} NormOfOrdered(j: Json)
    requires Ordered(j)
    ensures Norm(j) == j
  {
    match j
    case JArr(items) =>
      forall i | 0 <= i < |items|
        ensures Norm(items[i]) == items[i]
      {
        NormOfOrdered(items[i]);
      }
    case JObj(fields) =>
      forall i | 0 <= i < |fields|
        ensures Norm(fields[i].1) == fields[i].1
      {
        NormOfOrdered(fields[i].1);
      }
      assert NormMembers(fields) == fields;
      FromPairsKeepsOrdered(fields);
    case _ =>
  }

  // ----- what may follow a printed value -----

  predicate Ended(rest: string) {
    rest == "" || rest[0] == ',' || rest[0] == ']' || rest[0] == '}'
  }

  // ----- strings -----

  lemma EscapedCharDecodes(c: char, rest: string)
    ensures EscapeChar(c) != "" && EscapeChar(c)[0] != '\"'
    ensures DecodeChar(EscapeChar(c) + rest) == Got(c, rest)
  {
    var text := EscapeChar(c) + rest;
    if EscapeChar(c) == [c] {
      assert text[1..] == rest;
    } else if |EscapeChar(c)| == 2 {
      assert text[2..] == rest;
    } else {
      var (high, low) := (c as int / 16, c as int % 16);
      assert text[2..] == ['0', '0', HexDigit(high), HexDigit(low)] + rest;
      HexRoundTrip(high);
      HexRoundTrip(low);
      assert HexUnit(text[2..]) == c as int;
      assert text[2..][4..] == rest;
    }
  }

  lemma HexRoundTrip(n: nat)
    requires n < 16
    ensures HexValue(HexDigit(n)) == n && HexValue('0') == 0
  {
    assert "0123456789abcdef"[n] == if n < 10 then (n + '0' as int) as char else (n - 10 + 'a' as int) as char;
  }

  lemma {:induction false} EscapedDecodes(s: string, rest: string)
    ensures DecodeString(Escape(s) + "\"" + rest) == Got(s, rest)
    decreases |s|
  {
    var text := Escape(s) + "\"" + rest;
    if s == "" {
      assert text == ['\"'] + rest;
      assert text[1..] == rest;
    } else {
      var more := Escape(s[1..]) + "\"" + rest;
      assert text == EscapeChar(s[0]) + more;
      EscapedCharDecodes(s[0], more);
      EscapedDecodes(s[1..], rest);
      assert [s[0]] + s[1..] == s;
    }
  }

  // ----- numbers -----

  lemma {:induction false} DigitCountStops(s: string, rest: string)
    requires Ended(rest)
    ensures DigitCount(s + rest) == DigitCount(s)
    decreases |s|
  {
    if s == "" {
      assert s + rest == rest;
    } else {
      assert (s + rest)[1..] == s[1..] + rest;
      DigitCountStops(s[1..], rest);
    }
  }

  lemma WholeStops(s: string, rest: string)
    requires Ended(rest)
    ensures WholeLength(s + rest) == WholeLength(s)
  {
    var sign := if StartsWith(s, '-') then 1 else 0;
    assert (s + rest)[sign..] == s[sign..] + rest;
    DigitCountStops(s[sign..], rest);
    if s == "" {
      assert s + rest == rest;
    } else if s[sign..] == "" {
      assert s[sign..] + rest == rest;
    }
  }

  lemma FractionStops(s: string, rest: string)
    requires Ended(rest)
    ensures FractionLength(s + rest) == FractionLength(s)
  {
    if s == "" {
      assert s + rest == rest;
    } else {
      assert (s + rest)[1..] == s[1..] + rest;
      DigitCountStops(s[1..], rest);
    }
  }

  lemma ExponentStops(s: string, rest: string)
    requires Ended(rest)
    ensures ExponentLength(s + rest) == ExponentLength(s)
  {
    if s == "" {
      assert s + rest == rest;
    } else {
      var t := s[1..];
      assert (s + rest)[1..] == t + rest;
      var sign := if StartsWith(t, '+') || StartsWith(t, '-') then 1 else 0;
      if t == "" {
        assert t + rest == rest;
      }
      assert sign == if StartsWith(t + rest, '+') || StartsWith(t + rest, '-') then 1 else 0;
      assert (s + rest)[1 + sign..] == s[1 + sign..] + rest;
      DigitCountStops(s[1 + sign..], rest);
    }
  }

  // A number text decodes alike with or without what follows it.
  lemma NumberStops(h: Numbers, s: string, rest: string)
    requires Ended(rest) && DecodeNumber(h, s).Got? && DecodeNumber(h, s).rest == ""
    ensures DecodeNumber(h, s + rest) == Got(DecodeNumber(h, s).value, rest)
  {
    hide WholeLength, FractionLength, ExponentLength;
    var whole := WholeLength(s);
    var fraction := FractionLength(s[whole..]);
    WholeStops(s, rest);
    assert (s + rest)[whole..] == s[whole..] + rest;
    FractionStops(s[whole..], rest);
    assert (s + rest)[whole + fraction..] == s[whole + fraction..] + rest;
    ExponentStops(s[whole + fraction..], rest);
    var n := whole + fraction + ExponentLength(s[whole + fraction..]);
    assert |s[n..]| == 0 && s[..n] == s;
    assert (s + rest)[..n] == s && (s + rest)[n..] == rest;
  }

  lemma DigitRoundTrip(n: nat)
    requires n < 10
    ensures Digit(n) as int - '0' as int == n && IsDigit(Digit(n)) && (n > 0 ==> Digit(n) != '0')
  {
    assert "0123456789"[n] == (n + '0' as int) as char;
  }

  lemma {:induction false} DigitCountOfAppend(s: string, c: char)
    requires DigitCount(s) == |s| && IsDigit(c)
    ensures DigitCount(s + [c]) == |s| + 1
    decreases |s|
  {
    if s == "" {
      assert s + [c] == [c];
      assert DigitCount([c][1..]) == 0;
    } else {
      assert (s + [c])[1..] == s[1..] + [c];
      DigitCountOfAppend(s[1..], c);
    }
  }

  lemma {:induction false} DigitsDecode(n: nat)
    ensures Digits(n) != "" && DigitCount(Digits(n)) == |Digits(n)| && DigitsValue(Digits(n)) == n
    ensures IsDigit(Digits(n)[0])
    ensures Digits(n)[0] == '0' ==> |Digits(n)| == 1
    ensures n > 0 ==> Digits(n)[0] != '0'
  {
    var s := Digits(n);
    DigitRoundTrip(n % 10);
    if n < 10 {
      assert s[..0] == "" && DigitsValue("") == 0 && DigitCount(s[1..]) == 0;
    } else {
      DigitsDecode(n / 10);
      DigitCountOfAppend(Digits(n / 10), Digit(n % 10));
      assert s[..|s| - 1] == Digits(n / 10);
    }
  }

  lemma DecimalDecodes(h: Numbers, n: int)
    ensures DecodeNumber(h, Decimal(n)) == Got(JNum(n), "")
    ensures Decimal(n) != "" && (IsDigit(Decimal(n)[0]) || (Decimal(n)[0] == '-' && |Decimal(n)| > 1 && IsDigit(Decimal(n)[1])))
  {
    hide Digits;
    var s := Decimal(n);
    var sign := if n < 0 then 1 else 0;
    DigitsDecode(if n < 0 then -n else n);
    assert s[sign..] == Digits(if n < 0 then -n else n);
    assert s[0..] == s;
    assert WholeLength(s) == |s|;
    assert s[|s|..] == "" && FractionLength("") == 0 && ExponentLength("") == 0;
    assert s[..|s|] == s;
  }

  // ----- values -----

  lemma SpacesBeforeText(s: string)
    requires s == "" || !IsSpace(s[0])
    ensures SkipSpaces(s) == s && SkipSpaces(" " + s) == s
  {
    assert (" " + s)[1..] == s;
  }

  // How a number text begins, so that it is not taken for anything else.
  predicate NumberStart(s: string) {
    s != "" && (IsDigit(s[0]) || (s[0] == '-' && |s| > 1 && IsDigit(s[1])))
  }

  lemma NumbersStartSo(h: Numbers, s: string)
    requires DecodeNumber(h, s).Got?
    ensures NumberStart(s)
  {
  }

  lemma NumberDecodes(h: Numbers, s: string, value: Json, rest: string)
    requires DecodeNumber(h, s) == Got(value, "") && Ended(rest)
    ensures DecodeValue(h, s + rest) == Got(value, rest) && NumberStart(s)
  {
    hide DecodeNumber;
    NumbersStartSo(h, s);
    NumberStops(h, s, rest);
    var text := s + rest;
    assert text[0] == s[0] && (s[0] == '-' ==> text[1] == s[1]);
  }

  // The first character of a printed value.
  predicate ValueStart(s: string) {
    s != "" && !IsSpace(s[0]) && s[0] != ']' && s[0] != '}' && s[0] != ','
  }

  lemma PrintStart(style: Style, h: Numbers, j: Json)
    requires FloatsReadBack(h, j)
    ensures ValueStart(Print(style, j))
  {
    match j
    case JNum(n) => DecimalDecodes(h, n);
    case JFloat(repr) => NumbersStartSo(h, repr);
    case _ =>
  }

  lemma LiteralDecodes(style: Style, h: Numbers, j: Json, rest: string)
    requires j.JNull? || j.JBool?
    ensures DecodeValue(h, Print(style, j) + rest) == Got(j, rest)
  {
    hide DecodeNumber, DecodeString, DecodeItems, DecodeMembers, SkipSpaces;
    var s := Print(style, j);
    var text := s + rest;
    assert s <= text && text[|s|..] == rest && text[0] == s[0];
    FirstDiffers("null", text);
    FirstDiffers("true", text);
  }

  lemma FirstDiffers(a: string, b: string)
    requires a != "" && b != ""
    ensures a <= b ==> a[0] == b[0]
  {
  }

  lemma StringDecodes(style: Style, h: Numbers, s: string, rest: string)
    ensures DecodeValue(h, Print(style, JStr(s)) + rest) == Got(JStr(s), rest)
  {
    hide Escape, DecodeString;
    var text := "\"" + Escape(s) + "\"" + rest;
    EscapedDecodes(s, rest);
    assert Print(style, JStr(s)) + rest == text;
    assert text[0] == '\"' && text[1..] == Escape(s) + "\"" + rest;
  }

  // The prefix decoder inverts the printer on every value in normal form.
  lemma {:induction false} PrintedDecodes(style: Style, h: Numbers, j: Json, rest: string)
    requires Ordered(j) && FloatsReadBack(h, j) && Ended(rest)
    ensures DecodeValue(h, Print(style, j) + rest) == Got(j, rest)
    decreases j, 0
  {
    hide DecodeNumber, Decimal, DecodeString, Escape;
    match j
    case JNum(n) =>
      DecimalDecodes(h, n);
      NumberDecodes(h, Decimal(n), j, rest);
    case JFloat(repr) => NumberDecodes(h, repr, j, rest);
    case JStr(s) => StringDecodes(style, h, s, rest);
    case JArr(items) => ArrayDecodes(style, h, items, rest);
    case JObj(fields) => ObjectDecodes(style, h, fields, rest);
    case _ => LiteralDecodes(style, h, j, rest);
  }

  lemma {:induction false} ArrayDecodes(style: Style, h: Numbers, items: seq<Json>, rest: string)
    requires Ordered(JArr(items)) && FloatsReadBack(h, JArr(items))
    ensures DecodeValue(h, Print(style, JArr(items)) + rest) == Got(JArr(items), rest)
    decreases JArr(items), 0, |items| + 1
  {
    hide DecodeItems, PrintItems;
    var body := PrintItems(style, items) + "]" + rest;
    assert (Print(style, JArr(items)) + rest)[1..] == body;
    if |items| == 0 {
      EmptyMembers(style);
      assert body == "]" + rest && body[1..] == rest;
    } else {
      ItemsStart(style, h, items);
      StartOfSum(PrintItems(style, items), "]");
      StartOfSum(PrintItems(style, items) + "]", rest);
      SpacesBeforeText(body);
      ItemsDecode(style, h, items, rest, JArr(items));
    }
  }

  // The two steps of the item loop.
  lemma LastItem(h: Numbers, s: string, item: Json, rest: string)
    requires DecodeValue(h, s) == Got(item, "]" + rest)
    ensures DecodeItems(h, s) == Got([item], rest)
  {
    hide DecodeValue;
    SpacesBeforeText("]" + rest);
    assert ("]" + rest)[1..] == rest;
  }

  lemma NextItem(style: Style, h: Numbers, s: string, item: Json, tail: string, items: seq<Json>, rest: string)
    requires DecodeValue(h, s) == Got(item, style.Comma() + tail) && ValueStart(tail)
    requires DecodeItems(h, tail) == Got(items, rest)
    ensures DecodeItems(h, s) == Got([item] + items, rest)
  {
    hide DecodeValue;
    AfterComma(style, tail);
  }

  // What the decoder skips after a separator.
  lemma AfterComma(style: Style, tail: string)
    requires ValueStart(tail)
    ensures var text := style.Comma() + tail;
            SkipSpaces(text) == text && StartsWith(text, ',') && SkipSpaces(text[1..]) == tail
  {
    var text := style.Comma() + tail;
    SpacesBeforeText(text);
    SpacesBeforeText(tail);
    assert text[1..] == if style.Spaced? then " " + tail else tail;
  }

  lemma AfterColon(style: Style, tail: string)
    requires ValueStart(tail)
    ensures var text := style.Colon() + tail;
            SkipSpaces(text) == text && StartsWith(text, ':') && SkipSpaces(text[1..]) == tail
  {
    var text := style.Colon() + tail;
    SpacesBeforeText(text);
    SpacesBeforeText(tail);
    assert text[1..] == if style.Spaced? then " " + tail else tail;
  }

  lemma Regroup(a: string, b: string, c: string, d: string, e: string)
    ensures a + b + c + d + e == a + (b + (c + d + e))
  {
  }

  lemma StartOfSum(a: string, b: string)
    requires ValueStart(a)
    ensures ValueStart(a + b)
  {
    assert (a + b)[0] == a[0];
  }

  lemma {:induction false} ItemsDecode(style: Style, h: Numbers, items: seq<Json>, rest: string, whole: Json)
    requires |items| > 0
    requires forall i :: 0 <= i < |items| ==> items[i] < whole && Ordered(items[i]) && FloatsReadBack(h, items[i])
    ensures DecodeItems(h, PrintItems(style, items) + "]" + rest) == Got(items, rest)
    decreases whole, 0, |items|
  {
    hide DecodeValue, DecodeItems, Print, FloatsReadBack, Ordered, ValueStart;
    var first := Print(style, items[0]);
    if |items| == 1 {
      assert PrintItems(style, items) + "]" + rest == first + ("]" + rest);
      PrintedDecodes(style, h, items[0], "]" + rest);
      LastItem(h, first + ("]" + rest), items[0], rest);
      assert [items[0]] == items;
    } else {
      var tail := PrintItems(style, items[1..]) + "]" + rest;
      Regroup(first, style.Comma(), PrintItems(style, items[1..]), "]", rest);
      PrintedDecodes(style, h, items[0], style.Comma() + tail);
      ItemsStart(style, h, items[1..]);
      StartOfSum(PrintItems(style, items[1..]), "]");
      StartOfSum(PrintItems(style, items[1..]) + "]", rest);
      ItemsDecode(style, h, items[1..], rest, whole);
      NextItem(style, h, first + (style.Comma() + tail), items[0], tail, items[1..], rest);
      assert [items[0]] + items[1..] == items;
    }
  }

  lemma ItemsStart(style: Style, h: Numbers, items: seq<Json>)
    requires |items| > 0 && FloatsReadBack(h, items[0])
    ensures ValueStart(PrintItems(style, items))
  {
    hide Print, FloatsReadBack;
    PrintStart(style, h, items[0]);
    assert PrintItems(style, items)[0] == Print(style, items[0])[0];
  }

  lemma {:induction false} ObjectDecodes(style: Style, h: Numbers, fields: seq<(string, Json)>, rest: string)
    requires Ordered(JObj(fields)) && FloatsReadBack(h, JObj(fields))
    ensures DecodeValue(h, Print(style, JObj(fields)) + rest) == Got(JObj(fields), rest)
    decreases JObj(fields), 0, |fields| + 1
  {
    hide DecodeMembers, PrintMembers, FromPairs;
    var body := PrintMembers(style, fields) + "}" + rest;
    assert (Print(style, JObj(fields)) + rest)[1..] == body;
    if |fields| == 0 {
      EmptyMembers(style);
      assert body == "}" + rest && body[1..] == rest;
    } else {
      MembersStart(style, fields);
      StartOfSum(PrintMembers(style, fields), "}");
      StartOfSum(PrintMembers(style, fields) + "}", rest);
      SpacesBeforeText(body);
      MembersDecode(style, h, fields, rest, JObj(fields));
      FromPairsKeepsOrdered(fields);
    }
  }

  lemma EmptyMembers(style: Style)
    ensures PrintMembers(style, []) == "" && PrintItems(style, []) == ""
  {
  }

  lemma MemberParts(style: Style, h: Numbers, s: string, name: string, text: string, value: Json, rest: string)
    requires StartsWith(s, '\"') && DecodeString(s[1..]) == Got(name, style.Colon() + text)
    requires ValueStart(text) && DecodeValue(h, text) == Got(value, rest)
    ensures DecodeMember(h, s) == Got((name, value), rest)
  {
    hide DecodeValue, DecodeString;
    AfterColon(style, text);
  }

  lemma {:induction false} MemberDecodes(style: Style, h: Numbers, field: (string, Json), rest: string, whole: Json)
    requires field.1 < whole && Ordered(field.1) && FloatsReadBack(h, field.1) && Ended(rest)
    ensures DecodeMember(h, PrintMember(style, field) + rest) == Got(field, rest)
    decreases whole, 0, 0
  {
    hide DecodeValue, DecodeString, DecodeMember, Escape, Print, FloatsReadBack, Ordered, ValueStart;
    var value := Print(style, field.1) + rest;
    var name := Escape(field.0);
    var colon := style.Colon();
    var text := "\"" + (name + "\"" + (colon + value));
    assert PrintMember(style, field) + rest == text;
    assert text[1..] == name + "\"" + (colon + value);
    EscapedDecodes(field.0, colon + value);
    PrintStart(style, h, field.1);
    StartOfSum(Print(style, field.1), rest);
    PrintedDecodes(style, h, field.1, rest);
    MemberParts(style, h, text, field.0, value, field.1, rest);
  }

  lemma LastMember(h: Numbers, s: string, member: (string, Json), rest: string)
    requires DecodeMember(h, s) == Got(member, "}" + rest)
    ensures DecodeMembers(h, s) == Got([member], rest)
  {
    hide DecodeMember;
    SpacesBeforeText("}" + rest);
    assert ("}" + rest)[1..] == rest;
  }

  lemma NextMember(style: Style, h: Numbers, s: string, member: (string, Json), tail: string,
                   members: seq<(string, Json)>, rest: string)
    requires DecodeMember(h, s) == Got(member, style.Comma() + tail) && ValueStart(tail)
    requires DecodeMembers(h, tail) == Got(members, rest)
    ensures DecodeMembers(h, s) == Got([member] + members, rest)
  {
    hide DecodeMember;
    AfterComma(style, tail);
  }

  lemma {:induction false} MembersDecode(style: Style, h: Numbers, fields: seq<(string, Json)>, rest: string, whole: Json)
    requires |fields| > 0
    requires forall i :: 0 <= i < |fields| ==>
      fields[i].1 < whole && Ordered(fields[i].1) && FloatsReadBack(h, fields[i].1)
    ensures DecodeMembers(h, PrintMembers(style, fields) + "}" + rest) == Got(fields, rest)
    decreases whole, 0, |fields|
  {
    hide DecodeMember, DecodeMembers, PrintMember, FloatsReadBack, Ordered, ValueStart;
    var first := PrintMember(style, fields[0]);
    if |fields| == 1 {
      assert PrintMembers(style, fields) + "}" + rest == first + ("}" + rest);
      MemberDecodes(style, h, fields[0], "}" + rest, whole);
      LastMember(h, first + ("}" + rest), fields[0], rest);
      assert [fields[0]] == fields;
    } else {
      var tail := PrintMembers(style, fields[1..]) + "}" + rest;
      Regroup(first, style.Comma(), PrintMembers(style, fields[1..]), "}", rest);
      MemberDecodes(style, h, fields[0], style.Comma() + tail, whole);
      MembersStart(style, fields[1..]);
      StartOfSum(PrintMembers(style, fields[1..]), "}");
      StartOfSum(PrintMembers(style, fields[1..]) + "}", rest);
      MembersDecode(style, h, fields[1..], rest, whole);
      NextMember(style, h, first + (style.Comma() + tail), fields[0], tail, fields[1..], rest);
      assert [fields[0]] + fields[1..] == fields;
    }
  }

  lemma MembersStart(style: Style, fields: seq<(string, Json)>)
    requires |fields| > 0
    ensures ValueStart(PrintMembers(style, fields)) && StartsWith(PrintMembers(style, fields), '\"')
  {
    hide Print, Escape;
    assert PrintMember(style, fields[0])[0] == '\"';
  }

  // json.loads(json.dumps(v)): the same value, up to the order of keys.
  lemma DumpedDecodes(h: Numbers, j: Json, rest: string)
    requires FloatsReadBack(h, j) && Ended(rest)
    ensures DecodeValue(h, Dumps(j) + rest) == Got(Norm(j), rest)
  {
    NormIsOrdered(h, j);
    PrintedDecodes(Spaced, h, Norm(j), rest);
  }

  // ----- a printed value is one line -----

  predicate NoControls(s: string) {
    forall i :: 0 <= i < |s| ==> s[i] >= ' '
  }

  lemma {:induction false} DigitsCounted(s: string)
    ensures forall i :: 0 <= i < DigitCount(s) ==> IsDigit(s[i])
    decreases |s|
  {
    if s != "" && IsDigit(s[0]) {
      DigitsCounted(s[1..]);
      assert forall i :: 0 < i < |s| ==> s[i] == s[1..][i - 1];
    }
  }

  lemma WholeIsOneLine(s: string)
    ensures NoControls(s[..WholeLength(s)])
  {
    var sign := if StartsWith(s, '-') then 1 else 0;
    DigitsCounted(s[sign..]);
    forall i | 0 <= i < WholeLength(s)
      ensures s[i] >= ' '
    {
      assert i >= sign ==> s[i] == s[sign..][i - sign];
    }
  }

  lemma FractionIsOneLine(s: string)
    ensures NoControls(s[..FractionLength(s)])
  {
    if FractionLength(s) > 0 {
      DigitsCounted(s[1..]);
      forall i | 0 <= i < FractionLength(s)
        ensures s[i] >= ' '
      {
        assert i > 0 ==> s[i] == s[1..][i - 1];
      }
    }
  }

  lemma ExponentIsOneLine(s: string)
    ensures NoControls(s[..ExponentLength(s)])
  {
    if ExponentLength(s) > 0 {
      var sign := if StartsWith(s[1..], '+') || StartsWith(s[1..], '-') then 1 else 0;
      var digits := s[1 + sign..];
      DigitsCounted(digits);
      forall i | 0 <= i < ExponentLength(s)
        ensures s[i] >= ' '
      {
        assert i == 1 ==> s[i] == s[1..][0];
        assert i >= 1 + sign ==> s[i] == digits[i - 1 - sign];
      }
    }
  }

  lemma NumberIsOneLine(h: Numbers, s: string)
    requires DecodeNumber(h, s).Got? && DecodeNumber(h, s).rest == ""
    ensures NoControls(s)
  {
    hide WholeLength, FractionLength, ExponentLength;
    var whole := WholeLength(s);
    var t := s[whole..];
    var fraction := FractionLength(t);
    var u := s[whole + fraction..];
    var exponent := ExponentLength(u);
    WholeIsOneLine(s);
    FractionIsOneLine(t);
    ExponentIsOneLine(u);
    assert |s[whole + fraction + exponent..]| == 0;
    assert s == s[..whole] + t[..fraction] + u[..exponent];
  }

  lemma OneLineSum(a: string, b: string)
    requires NoControls(a) && NoControls(b)
    ensures NoControls(a + b)
  {
  }

  lemma {:induction false} EscapeIsOneLine(s: string)
    ensures NoControls(Escape(s))
    decreases |s|
  {
    hide EscapeChar;
    if s != "" {
      EscapedCharIsOneLine(s[0]);
      EscapeIsOneLine(s[1..]);
      OneLineSum(EscapeChar(s[0]), Escape(s[1..]));
    }
  }

  lemma EscapedCharIsOneLine(c: char)
    ensures NoControls(EscapeChar(c))
  {
    forall n: nat | n < 16
      ensures HexDigit(n) >= ' '
    {
      assert "0123456789abcdef"[n] == if n < 10 then (n + '0' as int) as char else (n - 10 + 'a' as int) as char;
    }
  }

  // Whatever is in a value, its text has no line feed and no other control character.
  lemma {:induction false} PrintedIsOneLine(style: Style, h: Numbers, j: Json)
    requires FloatsReadBack(h, j)
    ensures NoControls(Print(style, j))
    decreases j, 0
  {
    hide Escape, Decimal, DecodeNumber;
    match j
    case JNum(n) =>
      DecimalDecodes(h, n);
      NumberIsOneLine(h, Decimal(n));
    case JFloat(repr) => NumberIsOneLine(h, repr);
    case JStr(s) => EscapeIsOneLine(s);
    case JArr(items) => ItemsAreOneLine(style, h, items, j);
    case JObj(fields) => MembersAreOneLine(style, h, fields, j);
    case _ =>
  }

  lemma {:induction false} ItemsAreOneLine(style: Style, h: Numbers, items: seq<Json>, whole: Json)
    requires forall i :: 0 <= i < |items| ==> items[i] < whole && FloatsReadBack(h, items[i])
    ensures NoControls(PrintItems(style, items))
    decreases whole, 0, |items|
  {
    hide Print, FloatsReadBack;
    if |items| > 0 {
      PrintedIsOneLine(style, h, items[0]);
      ItemsAreOneLine(style, h, items[1..], whole);
      OneLineSum(Print(style, items[0]), style.Comma());
      OneLineSum(Print(style, items[0]) + style.Comma(), PrintItems(style, items[1..]));
    }
  }

  lemma {:induction false} MembersAreOneLine(style: Style, h: Numbers, fields: seq<(string, Json)>, whole: Json)
    requires forall i :: 0 <= i < |fields| ==> fields[i].1 < whole && FloatsReadBack(h, fields[i].1)
    ensures NoControls(PrintMembers(style, fields))
    decreases whole, 0, |fields|
  {
    hide Print, PrintMember, FloatsReadBack;
    if |fields| > 0 {
      PrintedIsOneLine(style, h, fields[0].1);
      MemberIsOneLine(style, fields[0]);
      MembersAreOneLine(style, h, fields[1..], whole);
      OneLineSum(PrintMember(style, fields[0]), style.Comma());
      OneLineSum(PrintMember(style, fields[0]) + style.Comma(), PrintMembers(style, fields[1..]));
    }
  }

  lemma MemberIsOneLine(style: Style, field: (string, Json))
    requires NoControls(Print(style, field.1))
    ensures NoControls(PrintMember(style, field))
  {
    hide Escape, Print;
    EscapeIsOneLine(field.0);
    OneLineSum("\"", Escape(field.0));
    OneLineSum("\"" + Escape(field.0), "\"");
    OneLineSum("\"" + Escape(field.0) + "\"", style.Colon());
    OneLineSum("\"" + Escape(field.0) + "\"" + style.Colon(), Print(style, field.1));
  }
}
