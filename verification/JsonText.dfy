// JSON texts: the printer the library uses, a prefix decoder, and the proof
// that decoding a printed value gives the value back (sections 3 to 7 of
// RFC 8259).
module JsonText {
  import opened Json

  // The host's float() and repr(): float(text) is the text the host prints for
  // the number that a text with a fraction or an exponent denotes.
  datatype Numbers = Numbers(float: string -> string)

  datatype Decoded<T> = Fail | Got(value: T, rest: string)

  // ----- dictionaries with string keys, kept in key order -----

  predicate Less(a: string, b: string) {
    if b == "" then false
    else if a == "" then true
    else if a[0] != b[0] then a[0] < b[0]
    else Less(a[1..], b[1..])
  }

  lemma {:induction false} LessIsTotal(a: string, b: string)
    ensures Less(a, b) || Less(b, a) || a == b
    ensures !(Less(a, b) && Less(b, a)) && !Less(a, a)
    decreases |a|
  {
    if a != "" && b != "" && a[0] == b[0] {
      LessIsTotal(a[1..], b[1..]);
      LessIsTotal(a[1..], a[1..]);
      assert a == [a[0]] + a[1..] && b == [b[0]] + b[1..];
    } else if a != "" {
      LessIsTotal(a[1..], a[1..]);
    }
  }

  lemma {:induction false} LessIsTransitive(a: string, b: string, c: string)
    requires Less(a, b) && Less(b, c)
    ensures Less(a, c)
    decreases |a|
  {
    if a != "" && a[0] == b[0] && b[0] == c[0] {
      LessIsTransitive(a[1..], b[1..], c[1..]);
    }
  }

  predicate InOrder(fields: seq<(string, Json)>) {
    forall i, j :: 0 <= i < j < |fields| ==> Less(fields[i].0, fields[j].0)
  }

  // dict assignment: a repeated key keeps one entry, with the new value.
  function Put(fields: seq<(string, Json)>, name: string, value: Json): seq<(string, Json)> {
    if |fields| == 0 then [(name, value)]
    else if fields[0].0 == name then [(name, value)] + fields[1..]
    else if Less(name, fields[0].0) then [(name, value)] + fields
    else [fields[0]] + Put(fields[1..], name, value)
  }

  // The dictionary that assigning the pairs one after the other gives.
  function FromPairs(pairs: seq<(string, Json)>): seq<(string, Json)> {
    if |pairs| == 0 then []
    else
      var n := |pairs| - 1;
      Put(FromPairs(pairs[..n]), pairs[n].0, pairs[n].1)
  }

  predicate HasKey(fields: seq<(string, Json)>, name: string) {
    exists i :: 0 <= i < |fields| && fields[i].0 == name
  }

  lemma {:induction false} PutKeepsOrder(fields: seq<(string, Json)>, name: string, value: Json)
    requires InOrder(fields)
    ensures InOrder(Put(fields, name, value))
    ensures forall key :: HasKey(Put(fields, name, value), key) <==> key == name || HasKey(fields, key)
    decreases |fields|
  {
    var r := Put(fields, name, value);
    if |fields| == 0 {
      assert r[0].0 == name;
    } else if fields[0].0 == name {
      assert forall i :: 0 < i < |r| ==> r[i] == fields[i];
      PutReplaces(fields, name, value);
    } else if Less(name, fields[0].0) {
      forall j | 0 <= j < |fields|
        ensures Less(name, fields[j].0)
      {
        if j > 0 {
          LessIsTransitive(name, fields[0].0, fields[j].0);
        }
      }
      assert forall i :: 0 < i < |r| ==> r[i] == fields[i - 1];
      PutInserts(fields, name, value);
    } else {
      var rest := Put(fields[1..], name, value);
      PutKeepsOrder(fields[1..], name, value);
      LessIsTotal(name, fields[0].0);
      forall j | 0 <= j < |rest|
        ensures Less(fields[0].0, rest[j].0)
      {
        assert HasKey(rest, rest[j].0);
        if rest[j].0 != name {
          var k :| 0 <= k < |fields[1..]| && fields[1..][k].0 == rest[j].0;
          assert fields[k + 1] == fields[1..][k];
        }
      }
      assert forall i :: 0 < i < |r| ==> r[i] == rest[i - 1];
      KeysOfTail(fields);
      KeysOfTail(r);
      assert r[1..] == rest;
    }
  }

  lemma KeysOfTail(fields: seq<(string, Json)>)
    requires |fields| > 0
    ensures forall key :: HasKey(fields, key) <==> key == fields[0].0 || HasKey(fields[1..], key)
  {
    forall key
      ensures HasKey(fields, key) <==> key == fields[0].0 || HasKey(fields[1..], key)
    {
      if HasKey(fields, key) && key != fields[0].0 {
        var i :| 0 <= i < |fields| && fields[i].0 == key;
        assert fields[1..][i - 1].0 == key;
      }
      if HasKey(fields[1..], key) {
        var i :| 0 <= i < |fields[1..]| && fields[1..][i].0 == key;
        assert fields[i + 1].0 == key;
      }
    }
  }

  lemma PutReplaces(fields: seq<(string, Json)>, name: string, value: Json)
    requires |fields| > 0 && fields[0].0 == name
    ensures forall key :: HasKey(Put(fields, name, value), key) <==> key == name || HasKey(fields, key)
  {
    var r := Put(fields, name, value);
    KeysOfTail(fields);
    KeysOfTail(r);
    assert r[1..] == fields[1..];
  }

  lemma PutInserts(fields: seq<(string, Json)>, name: string, value: Json)
    requires |fields| > 0 && fields[0].0 != name && Less(name, fields[0].0)
    ensures forall key :: HasKey(Put(fields, name, value), key) <==> key == name || HasKey(fields, key)
  {
    var r := Put(fields, name, value);
    KeysOfTail(r);
    assert r[1..] == fields;
  }

  // A dictionary is in key order and has exactly the keys that were assigned.
  lemma {:induction false} FromPairsInOrder(pairs: seq<(string, Json)>)
    ensures InOrder(FromPairs(pairs))
    ensures forall key :: HasKey(FromPairs(pairs), key) <==> HasKey(pairs, key)
  {
    if |pairs| > 0 {
      var n := |pairs| - 1;
      FromPairsInOrder(pairs[..n]);
      PutKeepsOrder(FromPairs(pairs[..n]), pairs[n].0, pairs[n].1);
      forall key
        ensures HasKey(pairs, key) <==> key == pairs[n].0 || HasKey(pairs[..n], key)
      {
        if HasKey(pairs, key) && key != pairs[n].0 {
          var i :| 0 <= i < |pairs| && pairs[i].0 == key;
          assert pairs[..n][i].0 == key;
        }
        if HasKey(pairs[..n], key) {
          var i :| 0 <= i < |pairs[..n]| && pairs[..n][i].0 == key;
          assert pairs[i].0 == key;
        }
      }
    }
  }

  lemma {:induction false} PutLast(fields: seq<(string, Json)>, name: string, value: Json)
    requires forall i :: 0 <= i < |fields| ==> Less(fields[i].0, name)
    ensures Put(fields, name, value) == fields + [(name, value)]
    decreases |fields|
  {
    if |fields| > 0 {
      LessIsTotal(fields[0].0, name);
      PutLast(fields[1..], name, value);
      assert [fields[0]] + (fields[1..] + [(name, value)]) == fields + [(name, value)];
    }
  }

  lemma {:induction false} FromPairsKeepsOrdered(pairs: seq<(string, Json)>)
    requires InOrder(pairs)
    ensures FromPairs(pairs) == pairs
  {
    if |pairs| > 0 {
      var n := |pairs| - 1;
      FromPairsKeepsOrdered(pairs[..n]);
      PutLast(pairs[..n], pairs[n].0, pairs[n].1);
      assert pairs[..n] + [(pairs[n].0, pairs[n].1)] == pairs;
    }
  }

  // An assignment replaces the entry of its key and keeps every other.
  lemma {:induction false} PutEntries(fields: seq<(string, Json)>, name: string, value: Json)
    requires InOrder(fields)
    ensures forall x :: x in Put(fields, name, value) <==> x == (name, value) || (x in fields && x.0 != name)
    decreases |fields|
  {
    if |fields| > 0 {
      var rest := fields[1..];
      forall i | 0 <= i < |rest|
        ensures rest[i].0 != fields[0].0 && (Less(name, fields[0].0) ==> rest[i].0 != name)
      {
        assert Less(fields[0].0, fields[i + 1].0);
        LessIsTotal(fields[0].0, fields[0].0);
        LessIsTotal(name, fields[0].0);
        LessIsTotal(name, rest[i].0);
        if Less(name, fields[0].0) {
          LessIsTransitive(name, fields[0].0, rest[i].0);
        }
      }
      assert fields == [fields[0]] + rest;
      LessIsTotal(name, fields[0].0);
      PutEntries(rest, name, value);
    }
  }

  // The value with every object in key order: two values are the same host
  // value exactly when they agree in this form.
  function Norm(j: Json): Json {
    match j
    case JArr(items) => JArr(seq(|items|, i requires 0 <= i < |items| => Norm(items[i])))
    case JObj(fields) =>
      JObj(FromPairs(seq(|fields|, i requires 0 <= i < |fields| => (fields[i].0, Norm(fields[i].1)))))
    case _ => j
  }

  // ----- the printer -----

  function HexDigit(n: nat): char
    requires n < 16
  {
    "0123456789abcdef"[n]
  }

  function EscapeChar(c: char): string {
    if c == '\"' then "\\\""
    else if c == '\\' then "\\\\"
    else if c == '\n' then "\\n"
    else if c == '\r' then "\\r"
    else if c == '\t' then "\\t"
    else if c == 12 as char then "\\f"
    else if c == 8 as char then "\\b"
    else if c < ' ' then "\\u00" + [HexDigit(c as int / 16), HexDigit(c as int % 16)]
    else [c]
  }

  function Escape(s: string): string {
    if s == "" then "" else EscapeChar(s[0]) + Escape(s[1..])
  }

  function Digit(n: nat): char
    requires n < 10
  {
    "0123456789"[n]
  }

  function Digits(n: nat): string {
    if n < 10 then [Digit(n)] else Digits(n / 10) + [Digit(n % 10)]
  }

  function Decimal(n: int): string {
    if n < 0 then "-" + Digits(-n) else Digits(n)
  }

  // Separators: json.dumps puts spaces after them unless told otherwise.
  datatype Style = Spaced | Compact {
    function Comma(): string {
      if Spaced? then ", " else ","
    }

    function Colon(): string {
      if Spaced? then ": " else ":"
    }
  }

  function Print(style: Style, j: Json): string {
    match j
    case JNull => "null"
    case JBool(b) => if b then "true" else "false"
    case JNum(n) => Decimal(n)
    case JFloat(repr) => repr
    case JStr(s) => "\"" + Escape(s) + "\""
    case JArr(items) => "[" + PrintItems(style, items) + "]"
    case JObj(fields) => "{" + PrintMembers(style, fields) + "}"
  }

  function PrintItems(style: Style, items: seq<Json>): string {
    if |items| == 0 then ""
    else if |items| == 1 then Print(style, items[0])
    else Print(style, items[0]) + style.Comma() + PrintItems(style, items[1..])
  }

  function PrintMember(style: Style, field: (string, Json)): string {
    "\"" + Escape(field.0) + "\"" + style.Colon() + Print(style, field.1)
  }

  function PrintMembers(style: Style, fields: seq<(string, Json)>): string {
    if |fields| == 0 then ""
    else if |fields| == 1 then PrintMember(style, fields[0])
    else PrintMember(style, fields[0]) + style.Comma() + PrintMembers(style, fields[1..])
  }

  // json.dumps with sorted keys and the default separators.
  function Dumps(j: Json): string {
    Print(Spaced, Norm(j))
  }

  // ----- the decoder -----

  predicate IsSpace(c: char) {
    c == ' ' || c == '\t' || c == '\n' || c == '\r'
  }

  function SkipSpaces(s: string): (rest: string)
    ensures |rest| <= |s|
  {
    if s != "" && IsSpace(s[0]) then SkipSpaces(s[1..]) else s
  }

  predicate StartsWith(s: string, c: char) {
    s != "" && s[0] == c
  }

  predicate IsDigit(c: char) {
    '0' <= c <= '9'
  }

  // The value of a hexadecimal digit, or 16.
  function HexValue(c: char): (n: nat)
    ensures n <= 16
  {
    if '0' <= c <= '9' then c as int - '0' as int
    else if 'a' <= c <= 'f' then c as int - 'a' as int + 10
    else if 'A' <= c <= 'F' then c as int - 'A' as int + 10
    else 16
  }

  // Four hexadecimal digits, or a number out of range.
  function HexUnit(s: string): (n: nat)
    ensures n <= 0x10000 && (n < 0x10000 ==> |s| >= 4)
  {
    if |s| < 4 then 0x10000
    else
      var (a, b, c, d) := (HexValue(s[0]), HexValue(s[1]), HexValue(s[2]), HexValue(s[3]));
      if a == 16 || b == 16 || c == 16 || d == 16 then 0x10000 else 4096 * a + 256 * b + 16 * c + d
  }

  // A backslash-u escape, with its second half when it is one of a pair. A
  // surrogate without its partner is not a character here.
  function DecodeUnicode(s: string): (r: Decoded<char>)
    ensures r.Got? ==> |r.rest| < |s|
  {
    var unit := HexUnit(s);
    if unit == 0x10000 then Fail
    else if 0xD800 <= unit < 0xDC00 && |s| >= 6 && s[4..6] == "\\u" then
      var low := HexUnit(s[6..]);
      if 0xDC00 <= low < 0xE000 then Got((0x10000 + (unit - 0xD800) * 0x400 + (low - 0xDC00)) as char, s[10..]) else Fail
    else if 0xD800 <= unit < 0xE000 then Fail
    else Got(unit as char, s[4..])
  }

  // One character of a string, which is not the closing quote.
  function DecodeChar(s: string): (r: Decoded<char>)
    ensures r.Got? ==> |r.rest| < |s|
  {
    if s == "" || s[0] < ' ' then Fail
    else if s[0] != '\\' then Got(s[0], s[1..])
    else if |s| == 1 then Fail
    else
      match s[1]
      case '\"' => Got('\"', s[2..])
      case '\\' => Got('\\', s[2..])
      case '/' => Got('/', s[2..])
      case 'n' => Got('\n', s[2..])
      case 'r' => Got('\r', s[2..])
      case 't' => Got('\t', s[2..])
      case 'f' => Got(12 as char, s[2..])
      case 'b' => Got(8 as char, s[2..])
      case 'u' => DecodeUnicode(s[2..])
      case _ => Fail
  }

  // The rest of a string, after its opening quote.
  function DecodeString(s: string): (r: Decoded<string>)
    ensures r.Got? ==> |r.rest| < |s|
    decreases |s|
  {
    if s == "" then Fail
    else if s[0] == '\"' then Got("", s[1..])
    else
      match DecodeChar(s)
      case Fail => Fail
      case Got(c, more) =>
        match DecodeString(more)
        case Fail => Fail
        case Got(text, rest) => Got([c] + text, rest)
  }

  function DigitCount(s: string): (n: nat)
    ensures n <= |s|
  {
    if s != "" && IsDigit(s[0]) then 1 + DigitCount(s[1..]) else 0
  }

  // The integer part at the front of s, without leading zeros; 0 for none.
  function WholeLength(s: string): (n: nat)
    ensures n <= |s|
  {
    var sign := if StartsWith(s, '-') then 1 else 0;
    var digits := if StartsWith(s[sign..], '0') then 1 else DigitCount(s[sign..]);
    if digits == 0 then 0 else sign + digits
  }

  function FractionLength(s: string): (n: nat)
    ensures n <= |s|
  {
    if StartsWith(s, '.') && DigitCount(s[1..]) > 0 then 1 + DigitCount(s[1..]) else 0
  }

  function ExponentLength(s: string): (n: nat)
    ensures n <= |s|
  {
    if StartsWith(s, 'e') || StartsWith(s, 'E') then
      var sign := if StartsWith(s[1..], '+') || StartsWith(s[1..], '-') then 1 else 0;
      var digits := DigitCount(s[1 + sign..]);
      if digits > 0 then 1 + sign + digits else 0
    else 0
  }

  function DigitsValue(s: string): int {
    if s == "" then 0 else 10 * DigitsValue(s[..|s| - 1]) + (s[|s| - 1] as int - '0' as int)
  }

  function WholeValue(s: string): int {
    if StartsWith(s, '-') then -DigitsValue(s[1..]) else DigitsValue(s)
  }

  function DecodeNumber(h: Numbers, s: string): (r: Decoded<Json>)
    ensures r.Got? ==> |r.rest| < |s|
  {
    var whole := WholeLength(s);
    if whole == 0 then Fail
    else
      var fraction := FractionLength(s[whole..]);
      var exponent := ExponentLength(s[whole + fraction..]);
      var n := whole + fraction + exponent;
      Got(if n == whole then JNum(WholeValue(s[..n])) else JFloat(h.float(s[..n])), s[n..])
  }

  // A value at the very front of s; nothing is skipped before it.
  function DecodeValue(h: Numbers, s: string): (r: Decoded<Json>)
    ensures r.Got? ==> |r.rest| < |s|
    decreases |s|, 1
  {
    if s == "" then Fail
    else if s[0] == '\"' then
      match DecodeString(s[1..])
      case Fail => Fail
      case Got(text, rest) => Got(JStr(text), rest)
    else if s[0] == '[' then
      var t := SkipSpaces(s[1..]);
      if StartsWith(t, ']') then Got(JArr([]), t[1..])
      else
        match DecodeItems(h, t)
        case Fail => Fail
        case Got(items, rest) => Got(JArr(items), rest)
    else if s[0] == '{' then
      var t := SkipSpaces(s[1..]);
      if StartsWith(t, '}') then Got(JObj([]), t[1..])
      else
        match DecodeMembers(h, t)
        case Fail => Fail
        case Got(pairs, rest) => Got(JObj(FromPairs(pairs)), rest)
    else if "null" <= s then Got(JNull, s[4..])
    else if "true" <= s then Got(JBool(true), s[4..])
    else if "false" <= s then Got(JBool(false), s[5..])
    else if "NaN" <= s then Got(JFloat("NaN"), s[3..])
    else if "Infinity" <= s then Got(JFloat("Infinity"), s[8..])
    else if "-Infinity" <= s then Got(JFloat("-Infinity"), s[9..])
    else DecodeNumber(h, s)
  }

  // One or more items and the closing bracket.
  function DecodeItems(h: Numbers, s: string): (r: Decoded<seq<Json>>)
    ensures r.Got? ==> |r.rest| < |s|
    decreases |s|, 2
  {
    match DecodeValue(h, s)
    case Fail => Fail
    case Got(item, more) =>
      var t := SkipSpaces(more);
      if StartsWith(t, ']') then Got([item], t[1..])
      else if StartsWith(t, ',') then
        match DecodeItems(h, SkipSpaces(t[1..]))
        case Fail => Fail
        case Got(items, rest) => Got([item] + items, rest)
      else Fail
  }

  function DecodeMember(h: Numbers, s: string): (r: Decoded<(string, Json)>)
    ensures r.Got? ==> |r.rest| < |s|
    decreases |s|, 2
  {
    if !StartsWith(s, '\"') then Fail
    else
      match DecodeString(s[1..])
      case Fail => Fail
      case Got(name, more) =>
        var t := SkipSpaces(more);
        if !StartsWith(t, ':') then Fail
        else
          match DecodeValue(h, SkipSpaces(t[1..]))
          case Fail => Fail
          case Got(value, rest) => Got((name, value), rest)
  }

  // One or more members and the closing brace.
  function DecodeMembers(h: Numbers, s: string): (r: Decoded<seq<(string, Json)>>)
    ensures r.Got? ==> |r.rest| < |s|
    decreases |s|, 3
  {
    match DecodeMember(h, s)
    case Fail => Fail
    case Got(pair, more) =>
      var t := SkipSpaces(more);
      if StartsWith(t, '}') then Got([pair], t[1..])
      else if StartsWith(t, ',') then
        match DecodeMembers(h, SkipSpaces(t[1..]))
        case Fail => Fail
        case Got(pairs, rest) => Got([pair] + pairs, rest)
      else Fail
  }
}
