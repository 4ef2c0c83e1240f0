// The canonical text of an event: compact JSON with sorted keys. Different
// events have different texts, so a digest of the text that has no collisions
// is the ideal digest the other modules assume.
module EventText {
  import opened Wrappers
  import opened Json
  import opened JsonText
  import opened JsonTextLaws
  import opened Evidence
  import Utf8
  import TailReader

  // ----- names and fields -----

  function FieldFrom(name: string, i: nat): Field
    decreases |KNOWN_FIELDS| - i
  {
    if i >= |KNOWN_FIELDS| then Other(name)
    else if FieldName(KNOWN_FIELDS[i]) == name then KNOWN_FIELDS[i]
    else FieldFrom(name, i + 1)
  }

  // The field of a name read from a text.
  function FieldOf(name: string): Field {
    FieldFrom(name, 0)
  }

  lemma KnownNamesDiffer(f: Field, g: Field)
    requires !f.Other? && !g.Other? && FieldName(f) == FieldName(g)
    ensures f == g
  {
    var name := FieldName(f);
    assert name[0] == FieldName(g)[0] && name[1] == FieldName(g)[1] && name[|name| - 2] == FieldName(g)[|name| - 2];
  }

  lemma {:induction false} FieldFromFinds(name: string, i: nat)
    ensures var f := FieldFrom(name, i);
            && FieldName(f) == name
            && (f.Other? ==> forall k :: i <= k < |KNOWN_FIELDS| ==> FieldName(KNOWN_FIELDS[k]) != name)
    decreases |KNOWN_FIELDS| - i
  {
    hide FieldName;
    if i < |KNOWN_FIELDS| && FieldName(KNOWN_FIELDS[i]) != name {
      FieldFromFinds(name, i + 1);
    } else if i >= |KNOWN_FIELDS| {
      OtherName(name);
    }
  }

  lemma OtherName(name: string)
    ensures FieldName(Other(name)) == name
  {
  }

  lemma KnownFieldsAreAll(f: Field)
    requires !f.Other?
    ensures f in KNOWN_FIELDS
  {
  }

  lemma FieldOfName(f: Field)
    requires f.Other? ==> !IsKnownName(f.name)
    ensures FieldOf(FieldName(f)) == f
  {
    var name := FieldName(f);
    var g := FieldOf(name);
    FieldFromFinds(name, 0);
    if !g.Other? {
      KnownFieldsAreAll(g);
      var i :| 0 <= i < |KNOWN_FIELDS| && KNOWN_FIELDS[i] == g;
      assert FieldName(KNOWN_FIELDS[i]) == name;
      if !f.Other? {
        KnownNamesDiffer(f, g);
      }
    } else if !f.Other? {
      KnownFieldsAreAll(f);
    }
  }

  lemma FieldsReadAreProper(name: string)
    ensures FieldName(FieldOf(name)) == name
    ensures FieldOf(name).Other? ==> !IsKnownName(FieldOf(name).name)
  {
    FieldFromFinds(name, 0);
  }

  // ----- an event as the entries of an object -----

  // The entries in key order; which field is taken next does not matter.
  ghost function Entries(e: Event): seq<(string, Json)>
    decreases |e|
  {
    if e == map[] then []
    else
      var f :| f in e;
      Put(Entries(e - {f}), FieldName(f), e[f])
  }

  predicate Lists(fields: seq<(string, Json)>, f: Field, j: Json) {
    (FieldName(f), j) in fields
  }

  ghost predicate Owns(e: Event, entry: (string, Json)) {
    FieldOf(entry.0) in e && e[FieldOf(entry.0)] == entry.1
  }

  ghost predicate Spells(fields: seq<(string, Json)>, e: Event) {
    && InOrder(fields)
    && (forall f :: f in e ==> Lists(fields, f, e[f]))
    && (forall x :: x in fields ==> Owns(e, x))
  }

  lemma NamesIn(e: Event, f: Field)
    requires f in e
    ensures FieldOf(FieldName(f)) == f && Proper(e[f])
  {
    hide FieldOf, FieldName, Proper;
    assert ProperEntry(f, e[f]);
    FieldOfName(f);
  }

  // One more entry in the list is one more field of the event.
  lemma SpellsMore(fields: seq<(string, Json)>, rest: Event, e: Event, f: Field)
    requires Spells(fields, rest) && f in e && rest == e - {f}
    ensures Spells(Put(fields, FieldName(f), e[f]), e)
  {
    hide FieldOf, FieldName, Put, Less, Lists, Owns;
    var more := Put(fields, FieldName(f), e[f]);
    PutKeepsOrder(fields, FieldName(f), e[f]);
    forall g | g in e
      ensures Lists(more, g, e[g])
    {
      StillListed(fields, rest, e, f, g);
    }
    forall x | x in more
      ensures Owns(e, x)
    {
      StillOwned(fields, rest, e, f, x);
    }
  }

  lemma StillListed(fields: seq<(string, Json)>, rest: Event, e: Event, f: Field, g: Field)
    requires InOrder(fields) && f in e && rest == e - {f} && g in e
    requires g in rest ==> Lists(fields, g, rest[g])
    ensures Lists(Put(fields, FieldName(f), e[f]), g, e[g])
  {
    hide FieldOf, FieldName, Put, Less;
    PutEntries(fields, FieldName(f), e[f]);
    NamesIn(e, f);
    NamesIn(e, g);
  }

  lemma StillOwned(fields: seq<(string, Json)>, rest: Event, e: Event, f: Field, x: (string, Json))
    requires InOrder(fields) && f in e && rest == e - {f} && x in Put(fields, FieldName(f), e[f])
    requires x in fields ==> Owns(rest, x)
    ensures Owns(e, x)
  {
    hide FieldOf, FieldName, Put, Less;
    PutEntries(fields, FieldName(f), e[f]);
    NamesIn(e, f);
  }

  lemma {:induction false} EntriesSpell(e: Event)
    ensures Spells(Entries(e), e)
    decreases |e|
  {
    hide Spells, Put, FieldName;
    if e == map[] {
      NothingSpelled();
    } else {
      var f :| f in e && Entries(e) == Put(Entries(e - {f}), FieldName(f), e[f]);
      EntriesSpell(e - {f});
      SpellsMore(Entries(e - {f}), e - {f}, e, f);
    }
  }

  lemma NothingSpelled()
    ensures Spells([], map[])
  {
  }

  // The event an object's entries make up.
  function EventOf(fields: seq<(string, Json)>): Event
    requires forall i :: 0 <= i < |fields| ==> Proper(fields[i].1)
  {
    if |fields| == 0 then map[]
    else
      var n := |fields| - 1;
      FieldsReadAreProper(fields[n].0);
      var e: map<Field, Json> := EventOf(fields[..n])[FieldOf(fields[n].0) := fields[n].1];
      assert ProperEntry(FieldOf(fields[n].0), fields[n].1);
      e
  }

  lemma {:induction false} EventOfHolds(fields: seq<(string, Json)>)
    requires InOrder(fields) && forall i :: 0 <= i < |fields| ==> Proper(fields[i].1)
    ensures Spells(fields, EventOf(fields))
  {
    hide Proper, Less, Lists, Owns, FieldOf;
    if |fields| > 0 {
      var n := |fields| - 1;
      EventOfHolds(fields[..n]);
      FieldsReadAreProper(fields[n].0);
      var e := EventOf(fields);
      forall x | x in fields
        ensures Owns(e, x)
      {
        StaysOwned(fields, EventOf(fields[..n]), e, x);
      }
      forall f | f in e
        ensures Lists(fields, f, e[f])
      {
        StaysListed(fields, EventOf(fields[..n]), e, f);
      }
    }
  }

  lemma StaysOwned(fields: seq<(string, Json)>, before: Event, e: Event, x: (string, Json))
    requires |fields| > 0 && Spells(fields[..|fields| - 1], before) && InOrder(fields) && x in fields
    requires var last := fields[|fields| - 1]; e == before[FieldOf(last.0) := last.1]
    ensures Owns(e, x)
  {
    hide FieldOf, Lists;
    var n := |fields| - 1;
    assert fields == fields[..n] + [fields[n]];
    if x in fields[..n] {
      var i :| 0 <= i < n && fields[..n][i] == x;
      assert Less(fields[i].0, fields[n].0);
      LessIsTotal(fields[n].0, fields[n].0);
      FieldsReadAreProper(x.0);
      FieldsReadAreProper(fields[n].0);
      assert Owns(before, x);
    }
  }

  lemma StaysListed(fields: seq<(string, Json)>, before: Event, e: Event, f: Field)
    requires |fields| > 0 && Spells(fields[..|fields| - 1], before) && f in e
    requires var last := fields[|fields| - 1]; e == before[FieldOf(last.0) := last.1]
    ensures Lists(fields, f, e[f])
  {
    hide FieldOf, Owns, InOrder;
    var n := |fields| - 1;
    assert fields == fields[..n] + [fields[n]];
    FieldsReadAreProper(fields[n].0);
    if f != FieldOf(fields[n].0) {
      assert Lists(fields[..n], f, before[f]);
    }
  }

  // A list spells one event only.
  lemma SpelledIsUnique(fields: seq<(string, Json)>, a: Event, b: Event)
    requires Spells(fields, a) && Spells(fields, b)
    ensures a == b
  {
    hide FieldOf, FieldName, InOrder, Lists, Owns;
    forall f | f in a
      ensures f in b && b[f] == a[f]
    {
      ListedIsOwned(fields, a, b, f);
    }
    forall f | f in b
      ensures f in a
    {
      ListedIsOwned(fields, b, a, f);
    }
  }

  lemma ListedIsOwned(fields: seq<(string, Json)>, a: Event, b: Event, f: Field)
    requires f in a && Lists(fields, f, a[f]) && forall x :: x in fields ==> Owns(b, x)
    ensures f in b && b[f] == a[f]
  {
    hide FieldOf, FieldName;
    NamesIn(a, f);
    assert Owns(b, (FieldName(f), a[f]));
  }

  // ----- the text -----

  ghost function TextOf(e: Event): string {
    Print(Compact, JObj(Entries(e)))
  }

  // The floats of the event are numbers as the host prints them.
  ghost predicate Legible(h: Numbers, e: Event) {
    forall f :: f in e ==> FloatsReadBack(h, e[f])
  }

  lemma EntryIsProper(h: Numbers, e: Event, x: (string, Json))
    requires x in Entries(e)
    ensures Proper(x.1) && (Legible(h, e) ==> FloatsReadBack(h, x.1))
  {
    hide FieldOf, FieldName, Lists, Proper, FloatsReadBack, InOrder, Entries;
    EntriesSpell(e);
    assert Owns(e, x);
    NamesIn(e, FieldOf(x.0));
  }

  lemma EntriesAreOrdered(h: Numbers, e: Event)
    ensures Ordered(JObj(Entries(e)))
    ensures Legible(h, e) ==> FloatsReadBack(h, JObj(Entries(e)))
    ensures forall i :: 0 <= i < |Entries(e)| ==> Proper(Entries(e)[i].1)
  {
    hide Lists, Owns, Entries, Legible;
    var fields := Entries(e);
    EntriesSpell(e);
    forall i | 0 <= i < |fields|
      ensures Proper(fields[i].1) && (Legible(h, e) ==> FloatsReadBack(h, fields[i].1))
    {
      EntryIsProper(h, e, fields[i]);
    }
  }

  lemma EventOfEntries(e: Event)
    requires forall i :: 0 <= i < |Entries(e)| ==> Proper(Entries(e)[i].1)
    ensures EventOf(Entries(e)) == e
  {
    EntriesSpell(e);
    EventOfHolds(Entries(e));
    SpelledIsUnique(Entries(e), EventOf(Entries(e)), e);
  }

  function Exactly(): Numbers {
    Numbers(text => text)
  }

  lemma ProperIsLegible(e: Event)
    ensures Legible(Exactly(), e)
  {
    forall f | f in e
      ensures FloatsReadBack(Exactly(), e[f])
    {
      NamesIn(e, f);
    }
  }

  // Different events have different texts.
  lemma TextDeterminesEvent(a: Event, b: Event)
    requires TextOf(a) == TextOf(b)
    ensures a == b
  {
    hide Entries, Print, Ordered, FloatsReadBack, DecodeValue, Legible;
    var h := Exactly();
    ProperIsLegible(a);
    ProperIsLegible(b);
    EntriesAreOrdered(h, a);
    EntriesAreOrdered(h, b);
    PrintedDecodes(Compact, h, JObj(Entries(a)), "");
    PrintedDecodes(Compact, h, JObj(Entries(b)), "");
    assert TextOf(a) + "" == TextOf(a) && TextOf(b) + "" == TextOf(b);
    EventOfEntries(a);
    EventOfEntries(b);
  }

  // A collision-free hash of the UTF-8 text of the payload is an ideal digest.
  lemma HashedTextIsIdeal(p: Primitives, sha: TailReader.Bytes -> string)
    requires forall x, y :: sha(x) == sha(y) ==> x == y
    requires forall e :: p.digest(e) == sha(Utf8.Encode(TextOf(e)))
    ensures IdealDigest(p)
  {
    hide TextOf, Utf8.Encode;
    forall a, b | p.digest(a) == p.digest(b)
      ensures a == b
    {
      Utf8.EncodedDecodes(TextOf(a));
      Utf8.EncodedDecodes(TextOf(b));
      TextDeterminesEvent(a, b);
    }
  }
}
