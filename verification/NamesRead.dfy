// The names a summary parser reports when it gives up: as many of the names the
// text begins with as it can read.
module NamesRead {
  import opened Wrappers
  import opened Json
  import opened JsonText
  import opened JsonTextLaws
  import opened Redaction
  import opened Summary
  import Privacy

  // The text begins with the name, an equals sign and the text of a value.
  predicate Begins(h: Numbers, isIdentifier: string -> bool, s: string, name: string) {
    && |name| < |s| && s[..|name|] == name && s[|name|] == '=' && '=' !in name && isIdentifier(name)
    && DecodeValue(h, s[|name| + 1..]).Got?
  }

  // The text begins with an argument for each of the names, a comma and a space
  // between them, and no name comes twice or was seen before.
  predicate Reads(h: Numbers, isIdentifier: string -> bool, s: string, seen: seq<string>, names: seq<string>)
    decreases |names|
  {
    names == []
    || (Begins(h, isIdentifier, s, names[0]) && names[0] !in seen
        && (|names| == 1
            || var rest := DecodeValue(h, s[|names[0]| + 1..]).rest;
               ", " <= rest && Reads(h, isIdentifier, rest[2..], seen + [names[0]], names[1..])))
  }

  // The names reported are a longest list of names that the text begins with,
  // whether the parser accepts the text or gives up.
  lemma NamesAreThoseRead(h: Numbers, isIdentifier: string -> bool, summary: string)
    requires !EndsWith(summary, "...(truncated)")
    ensures var names := ParseExact(h, isIdentifier, summary).names;
            && Reads(h, isIdentifier, summary, [], names)
            && forall name :: !Reads(h, isIdentifier, summary, [], names + [name])
  {
    hide Reads, ParseFrom;
    ReadFrom(h, isIdentifier, summary, summary, []);
    var names := ParseExact(h, isIdentifier, summary).names;
    assert names[0..] == names;
  }

  // A summary that cannot be read as arguments is classified as unknown, under
  // these names; a cut one, and what is no text, under none.
  lemma UnreadSummaryIsUnknown(h: Numbers, isIdentifier: string -> bool, summary: Json)
    ensures !summary.JStr? ==> Privacy.ClassifySummary(h, isIdentifier, summary) == Privacy.Verdict(Privacy.Unknown, [])
    ensures summary.JStr? && EndsWith(summary.s, "...(truncated)") ==>
              Privacy.ClassifySummary(h, isIdentifier, summary) == Privacy.Verdict(Privacy.Unknown, [])
    ensures summary.JStr? && !EndsWith(summary.s, "...(truncated)") && summary.s != ""
            && ParseExact(h, isIdentifier, summary.s).fields.None? ==>
              var verdict := Privacy.ClassifySummary(h, isIdentifier, summary);
              && verdict.Verdict? && verdict.classification == Privacy.Unknown
              && Reads(h, isIdentifier, summary.s, [], verdict.names)
              && forall name :: !Reads(h, isIdentifier, summary.s, [], verdict.names + [name])
  {
    hide Reads, ParseFrom, Privacy.ParsedVerdict;
    if summary.JStr? && !EndsWith(summary.s, "...(truncated)") {
      NamesAreThoseRead(h, isIdentifier, summary.s);
    }
  }

  // What was read of a text is all that can be.
  ghost predicate ReadsAll(h: Numbers, isIdentifier: string -> bool, s: string, seen: seq<string>, names: seq<string>) {
    && Reads(h, isIdentifier, s, seen, names)
    && forall name :: !Reads(h, isIdentifier, s, seen, names + [name])
  }

  // A text begins with one name only: what stands before its first equals sign.
  lemma BeginsOnce(h: Numbers, isIdentifier: string -> bool, s: string, name: string)
    ensures var equals := Find(s, '=');
            Begins(h, isIdentifier, s, name) <==>
            equals < |s| && name == s[..equals] && isIdentifier(name) && DecodeValue(h, s[equals + 1..]).Got?
  {
    hide DecodeValue;
    var equals := Find(s, '=');
    assert forall i :: 0 <= i < equals ==> s[i] == s[..equals][i];
  }

  lemma NoneRead(h: Numbers, isIdentifier: string -> bool, s: string, seen: seq<string>)
    ensures var equals := Find(s, '=');
            equals == |s| || !isIdentifier(s[..equals]) || s[..equals] in seen || DecodeValue(h, s[equals + 1..]).Fail? ==>
              ReadsAll(h, isIdentifier, s, seen, [])
  {
    hide DecodeValue, Begins;
    forall name
      ensures Begins(h, isIdentifier, s, name) ==> Find(s, '=') < |s| && name == s[..Find(s, '=')] && isIdentifier(name)
                                                   && DecodeValue(h, s[Find(s, '=') + 1..]).Got?
      ensures ([] + [name])[0] == name
    {
      BeginsOnce(h, isIdentifier, s, name);
    }
  }

  lemma OneRead(h: Numbers, isIdentifier: string -> bool, s: string, seen: seq<string>, name: string)
    requires Begins(h, isIdentifier, s, name) && name !in seen
    requires !(", " <= DecodeValue(h, s[|name| + 1..]).rest)
    ensures ReadsAll(h, isIdentifier, s, seen, [name])
  {
    hide DecodeValue;
  }

  lemma OneMoreRead(h: Numbers, isIdentifier: string -> bool, s: string, seen: seq<string>, name: string, names: seq<string>)
    requires Begins(h, isIdentifier, s, name) && name !in seen
    requires var rest := DecodeValue(h, s[|name| + 1..]).rest;
             ", " <= rest && ReadsAll(h, isIdentifier, rest[2..], seen + [name], names)
    ensures ReadsAll(h, isIdentifier, s, seen, [name] + names)
  {
    hide DecodeValue;
    var rest := DecodeValue(h, s[|name| + 1..]).rest;
    assert ([name] + names)[1..] == names;
    if names == [] {
      assert [name] + names == [name];
    }
    forall next
      ensures !Reads(h, isIdentifier, s, seen, [name] + names + [next])
    {
      var longer := [name] + names + [next];
      assert longer[1..] == names + [next] && longer[0] == name;
      assert !Reads(h, isIdentifier, rest[2..], seen + [name], names + [next]);
    }
  }

  lemma {:induction false} ReadFrom(h: Numbers, isIdentifier: string -> bool, summary: string, s: string,
                                    fields: seq<(string, Json)>)
    ensures var names := ParseFrom(h, isIdentifier, summary, s, fields).names;
            && |names| >= |fields| && names[..|fields|] == Names(fields)
            && ReadsAll(h, isIdentifier, s, Names(fields), names[|fields|..])
    decreases |s|
  {
    hide DecodeValue, BoundedSummary, Reads, ReadsAll, InOrder;
    NoneRead(h, isIdentifier, s, Names(fields));
    var equals := Find(s, '=');
    BeginsOnce(h, isIdentifier, s, s[..equals]);
    KeysAreNames(fields, s[..equals]);
    var names := ParseFrom(h, isIdentifier, summary, s, fields).names;
    if equals < |s| && isIdentifier(s[..equals]) && !HasKey(fields, s[..equals]) && DecodeValue(h, s[equals + 1..]).Got? {
      var decoded := DecodeValue(h, s[equals + 1..]);
      var name := s[..equals];
      var more := fields + [(name, decoded.value)];
      assert Names(more) == Names(fields) + [name];
      if ", " <= decoded.rest {
        assert names == ParseFrom(h, isIdentifier, summary, decoded.rest[2..], more).names;
        hide ParseFrom;
        ReadFrom(h, isIdentifier, summary, decoded.rest[2..], more);
        OneMoreRead(h, isIdentifier, s, Names(fields), name, names[|more|..]);
        NamesPast(names, Names(fields), name);
      } else {
        assert names == Names(more);
        hide ParseFrom;
        OneRead(h, isIdentifier, s, Names(fields), name);
        assert names[|fields|..] == [name];
      }
    } else {
      assert names == Names(fields) && names[|fields|..] == [];
    }
  }

  lemma NamesPast(names: seq<string>, before: seq<string>, name: string)
    requires |names| > |before| && names[..|before| + 1] == before + [name]
    ensures names[..|before|] == before && names[|before|..] == [name] + names[|before| + 1..]
  {
    assert names == (before + [name]) + names[|before| + 1..];
  }

  lemma KeysAreNames(fields: seq<(string, Json)>, name: string)
    ensures HasKey(fields, name) <==> name in Names(fields)
  {
    if HasKey(fields, name) {
      var i :| 0 <= i < |fields| && fields[i].0 == name;
      assert Names(fields)[i] == name;
    }
  }
}
