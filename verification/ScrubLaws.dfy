// The order of the scrubbing and what it leaves: the longest value first, each
// at its leftmost occurrences, so that no value is taken apart by a shorter one.
module ScrubLaws {
  import opened Canonical
  import opened Redaction
  import opened Scrub

  // No occurrence of x begins before i.
  predicate FirstAt(x: string, text: string, i: nat) {
    At(x, text, i) && forall k :: 0 <= k < i ==> !At(x, text, k)
  }

  lemma Within(x: string, text: string, i: nat)
    requires FirstAt(x, text, i)
    ensures i + |x| <= |text|
  {
  }

  lemma FirstInTail(x: string, text: string, i: nat)
    requires x != "" && i > 0 && FirstAt(x, text, i)
    ensures text != "" && !At(x, text, 0) && FirstAt(x, text[1..], i - 1)
  {
    assert text != "";
    forall k: nat | k < i
      ensures At(x, text[1..], k) == At(x, text, k + 1)
    {
      AtTail(x, text, k);
    }
    hide At;
    assert FirstAt(x, text[1..], i - 1);
  }

  // Replacing: a text without the value stays; otherwise the leftmost
  // occurrence gives way to the marker, and the rest of the text follows.
  lemma ReplacedLeftmost(text: string, raw: string, marker: string, i: nat)
    requires raw != ""
    ensures !Occurs(raw, text) ==> Replace(text, raw, marker) == text
    ensures FirstAt(raw, text, i) ==>
              i + |raw| <= |text|
              && Replace(text, raw, marker) == text[..i] + marker + Replace(text[i + |raw|..], raw, marker)
  {
    hide Replace;
    if !Occurs(raw, text) {
      ReplaceNothing(text, raw, marker);
    }
    if FirstAt(raw, text, i) {
      FirstReplaced(text, raw, marker, i);
    }
  }

  lemma {:induction false} FirstReplaced(text: string, raw: string, marker: string, i: nat)
    requires raw != "" && FirstAt(raw, text, i)
    ensures i + |raw| <= |text|
    ensures Replace(text, raw, marker) == text[..i] + marker + Replace(text[i + |raw|..], raw, marker)
    decreases i
  {
    hide At, FirstAt, Replace;
    Within(raw, text, i);
    OneReplaced(text, raw, marker);
    var rest := Replace(text[i + |raw|..], raw, marker);
    if i == 0 {
      assert text[..0] + marker == marker;
    } else {
      FirstInTail(raw, text, i);
      FirstReplaced(text[1..], raw, marker, i - 1);
      assert text[1..][i - 1 + |raw|..] == text[i + |raw|..];
      assert text[..i] == [text[0]] + text[1..][..i - 1];
      assert [text[0]] + (text[1..][..i - 1] + marker + rest) == text[..i] + marker + rest;
    }
  }

  // What a first occurrence does at the head of the text.
  lemma OneReplaced(text: string, raw: string, marker: string)
    requires raw != "" && text != ""
    ensures FirstAt(raw, text, 0) ==> |raw| <= |text| && Replace(text, raw, marker) == marker + Replace(text[|raw|..], raw, marker)
    ensures !At(raw, text, 0) ==> Replace(text, raw, marker) == [text[0]] + Replace(text[1..], raw, marker)
  {
  }

  lemma {:induction false} FirstOfAll(text: string, order: seq<string>)
    requires "" !in order && |order| > 0
    ensures ReplaceAll(text, order) == ReplaceAll(Replace(text, order[0], REDACTED), order[1..])
  {
    var n := |order| - 1;
    if n == 0 {
      assert order[..0] == [] && order[1..] == [];
    } else {
      FirstOfAll(text, order[..n]);
      assert order[..n][1..] == order[1..][..n - 1];
    }
  }

  // Whatever the text: the scrub replaces a longest value by the marker, and
  // then scrubs what that gives of the other values.
  lemma LongestIsReplacedFirst(text: string, order: seq<string>, values: set<string>, limit: int)
    requires LongestFirst(order, values) && |order| > 0
    ensures forall v :: v in values ==> |v| <= |order[0]|
    ensures LongestFirst(order[1..], values - {order[0]})
    ensures ScrubText(text, order, limit) == ScrubText(Replace(text, order[0], "<REDACTED>"), order[1..], limit)
  {
    FirstOfAll(text, order);
    forall v | v in values
      ensures |v| <= |order[0]|
    {
      if v != "" {
        assert v in order;
        var i :| 0 <= i < |order| && order[i] == v;
      }
    }
    assert forall v :: v in order[1..] <==> v in order && v != order[0];
  }

  // Nothing but the marker takes the place of a value that is longer than every
  // other one, whatever pieces of it are values too.
  lemma LongestLeavesNoPiece(front: string, a: string, back: string, order: seq<string>, values: set<string>, limit: int)
    requires LongestFirst(order, values) && a in values && a != ""
    requires forall v :: v in values && v != a ==> |v| < |a|
    requires forall i: nat :: At(a, front + a + back, i) ==> i == |front|
    ensures |order| > 0 && order[0] == a
    ensures ScrubText(front + a + back, order, limit) == ScrubText(front + "<REDACTED>" + back, order[1..], limit)
  {
    var text := front + a + back;
    assert a in order;
    LongestIsReplacedFirst(text, order, values, limit);
    assert order[0] in order && order[0] in values;
    assert |order[0]| >= |a|;
    assert At(a, text, |front|);
    ReplacedLeftmost(text, a, REDACTED, |front|);
    assert text[|front| + |a|..] == back && text[..|front|] == front;
    NoneBehind(front, a, back);
    ReplacedLeftmost(back, a, REDACTED, 0);
  }

  lemma NoneBehind(front: string, a: string, back: string)
    requires a != "" && forall i: nat :: At(a, front + a + back, i) ==> i == |front|
    ensures !Occurs(a, back)
  {
    forall i | 0 <= i <= |back|
      ensures !At(a, back, i)
    {
      AtLater(a, front + a, back, i);
    }
  }

  lemma AtLater(x: string, front: string, back: string, i: nat)
    ensures At(x, back, i) ==> At(x, front + back, |front| + i)
  {
    if i + |x| <= |back| {
      assert (front + back)[|front| + i..|front| + i + |x|] == back[i..i + |x|];
    }
  }

  // A text that is nothing but such a value gives the marker, cut to the limit.
  lemma SecretAloneGivesMarker(a: string, order: seq<string>, values: set<string>, limit: int)
    requires LongestFirst(order, values) && a in values && a != ""
    requires forall v :: v in values && v != a ==> |v| < |a|
    requires forall v :: v in values && v != "" && v != a ==> !Occurs(v, "<REDACTED>")
    ensures ScrubText(a, order, limit) == Truncate("<REDACTED>", limit)
  {
    assert "" + a + "" == a && "" + "<REDACTED>" + "" == "<REDACTED>";
    assert forall i: nat :: At(a, a, i) ==> i == |""|;
    LongestLeavesNoPiece("", a, "", order, values, limit);
    UntouchedByAll("<REDACTED>", order[1..]) by {
      assert forall v :: v in order[1..] ==> v in order;
      assert forall i :: 0 < i < |order| ==> order[i] != order[0];
    }
  }

  lemma {:induction false} UntouchedByAll(text: string, order: seq<string>)
    requires "" !in order && forall v :: v in order ==> !Occurs(v, text)
    ensures ReplaceAll(text, order) == text
  {
    hide Occurs;
    if |order| > 0 {
      UntouchedByAll(text, order[..|order| - 1]);
      ReplaceNothing(text, order[|order| - 1], REDACTED);
    }
  }

  // The case the source warns of.
  lemma PieceDoesNotFragment(order: seq<string>)
    requires LongestFirst(order, {"password1", "pass"})
    ensures ScrubText("bad password1", order, 300) == "bad <REDACTED>"
  {
    var values := {"password1", "pass"};
    assert "bad " + "password1" + "" == "bad password1" && "bad " + "<REDACTED>" + "" == "bad <REDACTED>";
    forall i: nat | At("password1", "bad " + "password1" + "", i)
      ensures i == |"bad "|
    {
      assert i <= 4;
      assert "bad password1"[i..i + 9][0] == 'p';
    }
    LongestLeavesNoPiece("bad ", "password1", "", order, values, 300);
    forall v | v in order[1..]
      ensures v == "pass"
    {
      assert v in order;
    }
    PassIsNotThere();
    UntouchedByAll("bad <REDACTED>", order[1..]);
  }

  lemma PassIsNotThere()
    ensures !Occurs("pass", "bad <REDACTED>")
  {
    forall i | 0 <= i <= |"bad <REDACTED>"|
      ensures !At("pass", "bad <REDACTED>", i)
    {
      if i + 4 <= |"bad <REDACTED>"| {
        assert "bad <REDACTED>"[i] != 'p';
        assert "bad <REDACTED>"[i..i + 4][0] == "bad <REDACTED>"[i];
      }
    }
  }

  // A text within the limit is kept; a longer one is cut to it and marked.
  lemma CutExactly(text: string, limit: nat)
    ensures Truncate(text, limit) == if |text| <= limit then text else text[..limit] + "...(truncated)"
  {
  }
}
