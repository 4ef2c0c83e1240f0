// Scrubbing known secrets out of error text.
module Scrub {
  import opened Canonical
  import opened Redaction

  predicate At(x: string, text: string, i: nat) {
    i + |x| <= |text| && text[i..i + |x|] == x
  }

  predicate Occurs(x: string, text: string) {
    exists i :: 0 <= i <= |text| && At(x, text, i)
  }

  // str.replace: leftmost occurrences, without overlaps.
  function Replace(text: string, raw: string, marker: string): string
    requires raw != ""
    decreases |text|
  {
    if text == "" then ""
    else if At(raw, text, 0) then marker + Replace(text[|raw|..], raw, marker)
    else [text[0]] + Replace(text[1..], raw, marker)
  }

  function ReplaceAll(text: string, order: seq<string>): string
    requires "" !in order
  {
    if |order| == 0 then text
    else Replace(ReplaceAll(text, order[..|order| - 1]), order[|order| - 1], REDACTED)
  }

  function ScrubText(text: string, order: seq<string>, limit: int): string
    requires "" !in order
  {
    Truncate(ReplaceAll(text, order), limit)
  }

  // The order of the replacements: every non-empty value once, longest first;
  // values of equal length come in any order.
  ghost predicate LongestFirst(order: seq<string>, values: set<string>) {
    && "" !in order
    && (forall v :: v in order <==> v in values && v != "")
    && (forall i, j :: 0 <= i < j < |order| ==> order[i] != order[j] && |order[i]| >= |order[j]|)
  }

  // The scrubbed text, and the order in which the values happened to be replaced.
  method Scrubbed(text: string, values: set<string>, limit: int) returns (r: string, order: seq<string>)
    ensures LongestFirst(order, values) && r == ScrubText(text, order, limit)
  {
    order := SortedByLength(values);
    r := text;
    for i := 0 to |order|
      invariant r == ReplaceAll(text, order[..i])
    {
      assert order[..i + 1][..i] == order[..i];
      r := Replace(r, order[i], REDACTED);
    }
    assert order[..|order|] == order;
    r := Truncate(r, limit);
  }

  method SortedByLength(values: set<string>) returns (order: seq<string>)
    ensures LongestFirst(order, values)
  {
    var left := values - {""};
    order := [];
    while left != {}
      invariant left <= values && "" !in left && "" !in order
      invariant forall v :: v in values && v != "" <==> v in left || v in order
      invariant forall i :: 0 <= i < |order| ==> order[i] !in left
      invariant forall v, i :: v in left && 0 <= i < |order| ==> |v| <= |order[i]|
      invariant forall i, j :: 0 <= i < j < |order| ==> order[i] != order[j] && |order[i]| >= |order[j]|
      decreases left
    {
      var longest := Longest(left);
      order := order + [longest];
      left := left - {longest};
    }
  }

  method Longest(values: set<string>) returns (longest: string)
    requires values != {}
    ensures longest in values && forall v :: v in values ==> |v| <= |longest|
  {
    longest :| longest in values;
    var left := values - {longest};
    while left != {}
      invariant left <= values && longest in values
      invariant forall v :: v in values && v !in left ==> |v| <= |longest|
      decreases left
    {
      var v :| v in left;
      if |v| > |longest| {
        longest := v;
      }
      left := left - {v};
    }
  }

  // ----- which secrets are certain to disappear -----

  // Some occurrence of x can run into an inserted marker.
  predicate RunsInto(x: string, marker: string) {
    exists k :: 0 <= k < |x| && (x[k..] <= marker || marker <= x[k..])
  }

  // An occurrence of x can begin k characters before the end of a marker.
  predicate OutOf(x: string, marker: string, k: nat) {
    0 < k <= |x| && k <= |marker| && marker[|marker| - k..] == x[..k]
  }

  ghost predicate Overlaps(x: string, marker: string) {
    RunsInto(x, marker) || (exists k: nat :: OutOf(x, marker, k)) || Occurs(x, marker)
  }

  // Some occurrence of x can reach into the text appended at the end.
  predicate OverlapsEnd(x: string, suffix: string) {
    (exists k :: 0 <= k < |x| && x[k..] <= suffix) || Occurs(x, suffix)
  }

  ghost predicate Safe(x: string) {
    x != "" && !Overlaps(x, REDACTED) && !OverlapsEnd(x, TRUNCATED)
  }

  // The same for a given length limit: an occurrence counts only where the
  // limit leaves room for it.
  ghost predicate NearMarker(x: string, limit: nat) {
    || (|x| <= limit && RunsInto(x, REDACTED))
    || (exists k: nat :: OutOf(x, REDACTED, k) && |REDACTED| - k + |x| <= limit)
    || (exists m :: 0 <= m <= |REDACTED| && At(x, REDACTED, m) && m + |x| <= limit)
  }

  predicate NearEnd(x: string, limit: nat) {
    (exists k :: 0 <= k < |x| && k <= limit && x[k..] <= TRUNCATED) || Occurs(x, TRUNCATED)
  }

  ghost predicate SafeAt(x: string, limit: nat) {
    x != "" && !NearMarker(x, limit) && !NearEnd(x, limit)
  }

  lemma AtTail(x: string, text: string, i: nat)
    requires i < |text|
    ensures At(x, text, i + 1) <==> At(x, text[1..], i)
  {
    if i + 1 + |x| <= |text| {
      assert text[1..][i..i + |x|] == text[i + 1..i + 1 + |x|];
    }
  }

  lemma AtFront(x: string, text: string)
    requires x != "" && text != ""
    ensures At(x, text, 0) <==> x[0] == text[0] && At(x[1..], text[1..], 0)
  {
    if |x| <= |text| {
      assert text[0..|x|] == [text[0]] + text[1..][0..|x| - 1];
      assert x == [x[0]] + x[1..];
    }
  }

  // Up to the first marker the result is the text itself.
  lemma {:induction false} FrontSurvives(x: string, text: string, raw: string, marker: string)
    requires raw != "" && At(x, Replace(text, raw, marker), 0)
    ensures At(x, text, 0) || RunsInto(x, marker)
    decreases |text|
  {
    if x == "" {
      assert text[0..0] == "";
    } else if text != "" {
      var result := Replace(text, raw, marker);
      assert x[0..] == x;
      if At(raw, text, 0) {
        assert marker <= result && x == result[..|x|];
        assert if |x| <= |marker| then x <= marker else marker <= x;
      } else {
        AtFront(x, result);
        assert result[1..] == Replace(text[1..], raw, marker);
        FrontSurvives(x[1..], text[1..], raw, marker);
        assert forall k :: 0 <= k < |x[1..]| ==> x[1..][k..] == x[k + 1..];
        AtFront(x, text);
      }
    }
  }

  // An occurrence of x at position i can overlap a marker: only then is there
  // room before it for the part of the marker that it does not share.
  ghost predicate Touches(x: string, marker: string, i: nat) {
    || RunsInto(x, marker)
    || (exists k: nat :: OutOf(x, marker, k) && |marker| - k <= i)
    || (exists m :: 0 <= m <= i && m <= |marker| && At(x, marker, m))
  }

  lemma TouchesLater(x: string, marker: string, i: nat, j: nat)
    requires Touches(x, marker, i) && (i <= j || |marker| <= j)
    ensures Touches(x, marker, j)
  {
  }

  // An occurrence in marker + rest touches the marker or is one in the rest.
  lemma OccurrenceIsAfterMarker(x: string, marker: string, rest: string, i: nat)
    requires x != "" && At(x, marker + rest, i)
    ensures Touches(x, marker, i) || (|marker| <= i && At(x, rest, i - |marker|))
  {
    var text := marker + rest;
    if i + |x| <= |marker| {
      assert marker[i..i + |x|] == text[i..i + |x|];
      assert At(x, marker, i);
    } else if i < |marker| {
      var k := |marker| - i;
      assert marker[|marker| - k..] == text[i..i + |x|][..k] == x[..k];
      assert OutOf(x, marker, k);
    } else {
      assert text[i..i + |x|] == rest[i - |marker|..i - |marker| + |x|];
    }
  }

  // x stood in the text, at the same position unless a marker was put before it.
  predicate CameFrom(x: string, text: string, marker: string, i: nat) {
    exists j :: 0 <= j <= |text| && At(x, text, j) && (j == i || |marker| <= i)
  }

  // Replacing one value brings another into the text only where it touches a marker.
  lemma {:induction false} NothingNew(x: string, text: string, raw: string, marker: string, i: nat)
    requires raw != "" && x != "" && At(x, Replace(text, raw, marker), i)
    ensures Touches(x, marker, i) || CameFrom(x, text, marker, i)
    decreases |text|
  {
    hide Touches;
    if text != "" {
      if At(raw, text, 0) {
        var rest := text[|raw|..];
        OccurrenceIsAfterMarker(x, marker, Replace(rest, raw, marker), i);
        if |marker| <= i && At(x, Replace(rest, raw, marker), i - |marker|) {
          NothingNew(x, rest, raw, marker, i - |marker|);
          FromAfterRaw(x, text, raw, marker, i);
        }
      } else if i == 0 {
        FrontSurvives(x, text, raw, marker);
        IntoTouches(x, marker, i);
      } else {
        var result := Replace(text, raw, marker);
        AtTail(x, result, i - 1);
        assert result[1..] == Replace(text[1..], raw, marker);
        NothingNew(x, text[1..], raw, marker, i - 1);
        FromTail(x, text, marker, i);
      }
    }
  }

  lemma IntoTouches(x: string, marker: string, i: nat)
    ensures RunsInto(x, marker) ==> Touches(x, marker, i)
  {
  }

  lemma FromAfterRaw(x: string, text: string, raw: string, marker: string, i: nat)
    requires |raw| <= |text| && |marker| <= i
    requires Touches(x, marker, i - |marker|) || CameFrom(x, text[|raw|..], marker, i - |marker|)
    ensures Touches(x, marker, i) || CameFrom(x, text, marker, i)
  {
    hide Touches;
    var rest := text[|raw|..];
    if Touches(x, marker, i - |marker|) {
      TouchesLater(x, marker, i - |marker|, i);
    } else {
      var j :| 0 <= j <= |rest| && At(x, rest, j) && (j == i - |marker| || |marker| <= i - |marker|);
      AtInSuffix(x, text, |raw|, j);
    }
  }

  lemma AtInSuffix(x: string, text: string, n: nat, j: nat)
    requires n <= |text| && At(x, text[n..], j)
    ensures At(x, text, n + j)
  {
    assert text[n..][j..j + |x|] == text[n + j..n + j + |x|];
  }

  lemma FromTail(x: string, text: string, marker: string, i: nat)
    requires text != "" && i > 0
    requires Touches(x, marker, i - 1) || CameFrom(x, text[1..], marker, i - 1)
    ensures Touches(x, marker, i) || CameFrom(x, text, marker, i)
  {
    hide Touches;
    if Touches(x, marker, i - 1) {
      TouchesLater(x, marker, i - 1, i);
    } else {
      var j :| 0 <= j <= |text[1..]| && At(x, text[1..], j) && (j == i - 1 || |marker| <= i - 1);
      AtTail(x, text, j);
      assert At(x, text, j + 1);
    }
  }

  // After a value is replaced it stands only where it touches a marker.
  lemma {:induction false} ReplacedIsGone(raw: string, text: string, marker: string, i: nat)
    requires raw != "" && At(raw, Replace(text, raw, marker), i)
    ensures Touches(raw, marker, i)
    decreases |text|
  {
    hide Touches;
    if text != "" {
      if At(raw, text, 0) {
        var rest := Replace(text[|raw|..], raw, marker);
        OccurrenceIsAfterMarker(raw, marker, rest, i);
        if |marker| <= i && At(raw, rest, i - |marker|) {
          ReplacedIsGone(raw, text[|raw|..], marker, i - |marker|);
          TouchesLater(raw, marker, i - |marker|, i);
        }
      } else if i == 0 {
        FrontSurvives(raw, text, raw, marker);
        IntoTouches(raw, marker, i);
      } else {
        AtTail(raw, Replace(text, raw, marker), i - 1);
        assert Replace(text, raw, marker)[1..] == Replace(text[1..], raw, marker);
        ReplacedIsGone(raw, text[1..], marker, i - 1);
        TouchesLater(raw, marker, i - 1, i);
      }
    }
  }

  lemma {:induction false} OnlyTouching(x: string, text: string, order: seq<string>, i: nat)
    requires "" !in order && x in order && At(x, ReplaceAll(text, order), i)
    ensures Touches(x, REDACTED, i)
    decreases |order|
  {
    hide Touches, Replace;
    var n := |order| - 1;
    var before := ReplaceAll(text, order[..n]);
    if order[n] == x {
      ReplacedIsGone(x, before, REDACTED, i);
    } else {
      assert x in order[..n];
      NothingNew(x, before, order[n], REDACTED, i);
      if CameFrom(x, before, REDACTED, i) {
        var j :| 0 <= j <= |before| && At(x, before, j) && (j == i || |REDACTED| <= i);
        OnlyTouching(x, text, order[..n], j);
        TouchesLater(x, REDACTED, j, i);
      }
    }
  }

  // An occurrence in front + suffix lies in the front, or reaches the suffix
  // with the given number of characters before it.
  lemma OccurrenceAcross(x: string, front: string, suffix: string, i: nat)
    requires x != "" && At(x, front + suffix, i)
    ensures At(x, front, i) || Occurs(x, suffix)
            || (exists k :: 0 <= k < |x| && k <= |front| && x[k..] <= suffix)
  {
    var result := front + suffix;
    if i + |x| <= |front| {
      assert front[i..i + |x|] == result[i..i + |x|];
    } else if i >= |front| {
      assert suffix[i - |front|..i - |front| + |x|] == result[i..i + |x|];
      assert At(x, suffix, i - |front|);
    } else {
      var k := |front| - i;
      assert x[k..] == result[i..i + |x|][k..] == suffix[..|x| - k];
      assert x[k..] <= suffix;
    }
  }

  // An occurrence in the cut text is one in what was kept, or reaches the end.
  lemma TruncationAddsNothing(x: string, text: string, limit: int, i: nat)
    requires x != "" && At(x, Truncate(text, limit), i)
    ensures || (At(x, text, i) && (limit >= 0 ==> i + |x| <= limit))
            || OverlapsEnd(x, TRUNCATED)
    ensures limit >= 0 ==> (At(x, text, i) && i + |x| <= limit) || NearEnd(x, limit)
  {
    if |text| > limit {
      var front := Clip(text, limit);
      OccurrenceAcross(x, front, TRUNCATED, i);
      if At(x, front, i) {
        assert text[i..i + |x|] == front[i..i + |x|];
      }
    }
  }

  // A safe value never survives, whatever the text, the other values, their
  // order and the length limit.
  lemma SafeValueIsScrubbed(x: string, text: string, order: seq<string>, values: set<string>, limit: int)
    requires Safe(x) && LongestFirst(order, values) && x in values
    ensures !Occurs(x, ScrubText(text, order, limit))
  {
    hide ReplaceAll, Truncate;
    if Occurs(x, ScrubText(text, order, limit)) {
      var i :| 0 <= i <= |ScrubText(text, order, limit)| && At(x, ScrubText(text, order, limit), i);
      TruncationAddsNothing(x, ReplaceAll(text, order), limit, i);
      OnlyTouching(x, text, order, i);
    }
  }

  // The same at one length limit.
  lemma SafeAtLimitIsScrubbed(x: string, text: string, order: seq<string>, values: set<string>, limit: nat)
    requires SafeAt(x, limit) && LongestFirst(order, values) && x in values
    ensures !Occurs(x, ScrubText(text, order, limit))
  {
    hide ReplaceAll, Truncate;
    if Occurs(x, ScrubText(text, order, limit)) {
      var i :| 0 <= i <= |ScrubText(text, order, limit)| && At(x, ScrubText(text, order, limit), i);
      TruncationAddsNothing(x, ReplaceAll(text, order), limit, i);
      OnlyTouching(x, text, order, i);
      TouchIsNear(x, i, limit);
    }
  }

  lemma TouchIsNear(x: string, i: nat, limit: nat)
    requires Touches(x, REDACTED, i) && i + |x| <= limit
    ensures NearMarker(x, limit)
  {
  }

  // The condition the documentation suggests is enough: no marker character in
  // the value, and the value is not itself a piece of one of the markers.
  lemma PlainValueIsSafe(x: string)
    requires x != "" && '<' !in x && '>' !in x && '.' !in x
    requires !Occurs(x, REDACTED) && !Occurs(x, TRUNCATED)
    ensures Safe(x)
  {
    forall k | 0 <= k < |x|
      ensures !(x[k..] <= REDACTED || REDACTED <= x[k..]) && !(x[k..] <= TRUNCATED)
    {
      assert x[k..][0] == x[k] && REDACTED[0] == '<' && TRUNCATED[0] == '.';
    }
    forall k: nat
      ensures !OutOf(x, REDACTED, k)
    {
      if 0 < k <= |x| && k <= |REDACTED| {
        assert REDACTED[|REDACTED| - k..][k - 1] == '>' && x[..k][k - 1] == x[k - 1];
      }
    }
  }

  // ----- and which are not -----

  // The values of a call that keep to the guard's lower bound on their length.
  predicate LongEnough(values: set<string>, least: nat) {
    forall v :: v in values ==> |v| >= least
  }

  ghost predicate AlwaysScrubbedAt(x: string, limit: nat, least: nat) {
    forall text, order, values :: LongestFirst(order, values) && LongEnough(values, least) && x in values ==>
      !Occurs(x, ScrubText(text, order, limit))
  }

  ghost predicate AlwaysScrubbed(x: string) {
    forall text, order, values, limit :: LongestFirst(order, values) && x in values ==>
      !Occurs(x, ScrubText(text, order, limit))
  }

  lemma {:induction false} ReplaceNothing(text: string, raw: string, marker: string)
    requires raw != "" && !Occurs(raw, text)
    ensures Replace(text, raw, marker) == text
    decreases |text|
  {
    if text != "" {
      assert !At(raw, text, 0);
      forall i: nat | i <= |text[1..]|
        ensures !At(raw, text[1..], i)
      {
        AtTail(raw, text, i);
      }
      ReplaceNothing(text[1..], raw, marker);
    }
  }

  // A run of one character, the second secret that plants a marker.
  function Run(c: char, n: nat): (run: string)
    ensures |run| == n && forall i :: 0 <= i < n ==> run[i] == c
  {
    seq(n, i => c)
  }

  // x has no c, so it stands in no text where a run of c keeps it from fitting.
  lemma NotAcrossRun(x: string, c: char, front: string, n: nat, back: string)
    requires c !in x && n > 0 && |front| < |x| && |back| < |x|
    ensures !Occurs(x, front + Run(c, n) + back)
  {
    var text := front + Run(c, n) + back;
    forall i: nat | i <= |text|
      ensures !At(x, text, i)
    {
      if i + |x| <= |text| {
        var at := if i <= |front| then |front| else i;
        assert at < |front| + n ==> text[at] == c;
        assert i <= at < i + |x| ==> text[i..i + |x|][at - i] == text[at];
      }
    }
  }

  // No run of c stands in a text without c.
  lemma NoRunWithout(c: char, n: nat, text: string)
    requires c !in text && n > 0
    ensures !Occurs(Run(c, n), text)
  {
    forall i: nat | i <= |text|
      ensures !At(Run(c, n), text, i)
    {
      if i + n <= |text| {
        assert text[i..i + n][0] == text[i];
      }
    }
  }

  // One replacement of a run that stands in one place only.
  lemma {:induction false} ReplaceOnce(front: string, c: char, n: nat, back: string, marker: string)
    requires c !in front && c !in back && n > 0
    ensures Replace(front + Run(c, n) + back, Run(c, n), marker) == front + marker + back
    decreases |front|
  {
    var run := Run(c, n);
    var text := front + run + back;
    if front == "" {
      assert text == run + back && text[0..n] == run && text[n..] == back;
      NoRunWithout(c, n, back);
      ReplaceNothing(back, run, marker);
      assert "" + marker + back == marker + back;
    } else {
      var (a, rest) := (front[0], front[1..]);
      assert text[0] == a && text[1..] == rest + run + back;
      assert n <= |text| ==> text[0..n][0] == a;
      ReplaceOnce(rest, c, n, back, marker);
      assert front + marker + back == [a] + (rest + marker + back);
    }
  }

  // A second secret plants a marker wherever it stands.
  lemma PlantedMarker(x: string, c: char, front: string, back: string, i: nat, limit: nat, least: nat)
    requires c !in x && c !in front && c !in back && |front| < |x| && |back| < |x| && 0 < least <= |x|
    requires At(x, front + REDACTED + back, i) && i + |x| <= limit
    ensures !AlwaysScrubbedAt(x, limit, least)
  {
    hide Replace, Occurs;
    var run := Run(c, least);
    var text := front + run + back;
    var order := [x, run];
    var result := front + REDACTED + back;
    assert run[0] == c;
    PlantedText(x, c, front, back, least);
    assert ScrubText(text, order, limit) == Truncate(result, limit);
    CutKeeps(x, result, i, limit);
    assert LongestFirst(order, {x, run}) && LongEnough({x, run}, least);
  }

  lemma PlantedText(x: string, c: char, front: string, back: string, n: nat)
    requires c !in x && c !in front && c !in back && |front| < |x| && |back| < |x| && 0 < n
    requires "" !in [x, Run(c, n)]
    ensures ReplaceAll(front + Run(c, n) + back, [x, Run(c, n)]) == front + REDACTED + back
  {
    hide Replace;
    var text := front + Run(c, n) + back;
    var order := [x, Run(c, n)];
    NotAcrossRun(x, c, front, n, back);
    ReplaceNothing(text, x, REDACTED);
    ReplaceOnce(front, c, n, back, REDACTED);
    assert order[..1] == [x] && [x][..0] == [];
    assert ReplaceAll(text, [x]) == text;
  }

  lemma CutKeeps(x: string, text: string, i: nat, limit: nat)
    requires At(x, text, i) && i + |x| <= limit
    ensures Occurs(x, Truncate(text, limit))
  {
    var cut := Truncate(text, limit);
    assert cut[i..i + |x|] == text[i..i + |x|];
    assert At(x, cut, i);
  }

  // A text that is cut plants the suffix behind any beginning of the secret.
  lemma PlantedSuffix(x: string, c: char, front: string, i: nat, limit: nat, least: nat)
    requires c !in x && |front| < |x| && |front| <= limit && least <= |x|
    requires At(x, front + TRUNCATED, i)
    ensures !AlwaysScrubbedAt(x, limit, least)
  {
    var pad := limit - |front|;
    var text := Run(c, pad) + front + [c];
    var order := [x];
    SuffixText(x, c, pad, front);
    var result := Run(c, pad) + (front + TRUNCATED);
    assert ScrubText(text, order, limit) == result by {
      assert text[..limit] == Run(c, pad) + front;
    }
    AtBehind(x, Run(c, pad), front + TRUNCATED, i);
    assert LongestFirst(order, {x}) && LongEnough({x}, least);
  }

  lemma AtBehind(x: string, pad: string, text: string, i: nat)
    requires At(x, text, i)
    ensures Occurs(x, pad + text)
  {
    assert (pad + text)[|pad| + i..|pad| + i + |x|] == text[i..i + |x|];
    assert At(x, pad + text, |pad| + i);
  }

  lemma SuffixText(x: string, c: char, pad: nat, front: string)
    requires x != "" && c !in x && |front| < |x|
    ensures ReplaceAll(Run(c, pad) + front + [c], [x]) == Run(c, pad) + front + [c]
  {
    var text := Run(c, pad) + front + [c];
    forall i: nat | i <= |text|
      ensures !At(x, text, i)
    {
      if i + |x| <= |text| {
        assert i < pad ==> text[i..i + |x|][0] == c;
        assert i >= pad ==> i + |x| == |text| && text[i..i + |x|][|x| - 1] == c;
      }
    }
    ReplaceNothing(text, x, REDACTED);
    assert [x][..0] == [];
  }

  lemma NearMarkerSurvives(x: string, c: char, limit: nat, least: nat)
    requires c !in x && 0 < least <= |x| && NearMarker(x, limit)
    ensures !AlwaysScrubbedAt(x, limit, least)
  {
    hide AlwaysScrubbedAt;
    if |x| <= limit && RunsInto(x, REDACTED) {
      var k :| 0 <= k < |x| && (x[k..] <= REDACTED || REDACTED <= x[k..]);
      SurvivesInto(x, c, k, limit, least);
    } else if k: nat :| OutOf(x, REDACTED, k) && |REDACTED| - k + |x| <= limit {
      SurvivesOutOf(x, c, k, limit, least);
    } else {
      var m :| 0 <= m <= |REDACTED| && At(x, REDACTED, m) && m + |x| <= limit;
      SurvivesWithin(x, c, m, limit, least);
    }
  }

  lemma SurvivesInto(x: string, c: char, k: nat, limit: nat, least: nat)
    requires c !in x && 0 < least <= |x| <= limit && k < |x| && (x[k..] <= REDACTED || REDACTED <= x[k..])
    ensures !AlwaysScrubbedAt(x, limit, least)
  {
    hide AlwaysScrubbedAt;
    var front, rest := x[..k], x[k..];
    var back := if REDACTED <= rest then rest[|REDACTED|..] else "";
    assert x == front + rest && rest <= REDACTED + back;
    assert (front + REDACTED + back)[0..|x|] == x;
    PlantedMarker(x, c, front, back, 0, limit, least);
  }

  lemma SurvivesOutOf(x: string, c: char, k: nat, limit: nat, least: nat)
    requires c !in x && 0 < least <= |x| && OutOf(x, REDACTED, k) && |REDACTED| - k + |x| <= limit
    ensures !AlwaysScrubbedAt(x, limit, least)
  {
    hide AlwaysScrubbedAt;
    var back := x[k..];
    assert x == x[..k] + back;
    assert ("" + REDACTED + back)[|REDACTED| - k..|REDACTED| - k + |x|] == x;
    PlantedMarker(x, c, "", back, |REDACTED| - k, limit, least);
  }

  lemma SurvivesWithin(x: string, c: char, m: nat, limit: nat, least: nat)
    requires c !in x && 0 < least <= |x| && At(x, REDACTED, m) && m + |x| <= limit
    ensures !AlwaysScrubbedAt(x, limit, least)
  {
    hide AlwaysScrubbedAt;
    assert "" + REDACTED + "" == REDACTED;
    PlantedMarker(x, c, "", "", m, limit, least);
  }

  lemma NearEndSurvives(x: string, c: char, limit: nat, least: nat)
    requires c !in x && 0 < least <= |x| && NearEnd(x, limit)
    ensures !AlwaysScrubbedAt(x, limit, least)
  {
    hide AlwaysScrubbedAt;
    if Occurs(x, TRUNCATED) {
      var i :| 0 <= i <= |TRUNCATED| && At(x, TRUNCATED, i);
      assert "" + TRUNCATED == TRUNCATED;
      PlantedSuffix(x, c, "", i, limit, least);
    } else {
      var k :| 0 <= k < |x| && k <= limit && x[k..] <= TRUNCATED;
      assert x == x[..k] + x[k..];
      assert (x[..k] + TRUNCATED)[0..|x|] == x;
      PlantedSuffix(x, c, x[..k], 0, limit, least);
    }
  }

  // Exactly which secrets scrubbing removes from every text at a length limit,
  // in the company of any other secrets that are long enough: those no
  // occurrence of which has room to overlap a marker or the suffix. c is a
  // character that the secret does not contain.
  lemma ScrubbedExactlyAt(x: string, c: char, limit: nat, least: nat)
    requires c !in x && 0 < least <= |x|
    ensures AlwaysScrubbedAt(x, limit, least) <==> SafeAt(x, limit)
  {
    if SafeAt(x, limit) {
      forall text, order, values | LongestFirst(order, values) && LongEnough(values, least) && x in values
        ensures !Occurs(x, ScrubText(text, order, limit))
      {
        SafeAtLimitIsScrubbed(x, text, order, values, limit);
      }
    } else if NearMarker(x, limit) {
      NearMarkerSurvives(x, c, limit, least);
    } else {
      NearEndSurvives(x, c, limit, least);
    }
  }

  const MAX_ERROR_CHARS: nat := 300

  // The guard's own parameters.
  lemma GuardScrubsExactly(x: string, c: char)
    requires c !in x && |x| >= MIN_SCRUBBABLE_LENGTH
    ensures AlwaysScrubbedAt(x, MAX_ERROR_CHARS, MIN_SCRUBBABLE_LENGTH) <==> SafeAt(x, MAX_ERROR_CHARS)
    ensures |x| > MAX_ERROR_CHARS + |TRUNCATED| ==> AlwaysScrubbedAt(x, MAX_ERROR_CHARS, MIN_SCRUBBABLE_LENGTH)
  {
    hide AlwaysScrubbedAt, SafeAt;
    ScrubbedExactlyAt(x, c, MAX_ERROR_CHARS, MIN_SCRUBBABLE_LENGTH);
    if |x| > MAX_ERROR_CHARS + |TRUNCATED| {
      LongSecretsAreScrubbed(x, MAX_ERROR_CHARS);
    }
  }

  // A secret longer than the limit and the suffix together is always removed.
  lemma LongSecretsAreScrubbed(x: string, limit: nat)
    requires |x| > limit + |TRUNCATED| && limit >= |REDACTED|
    ensures SafeAt(x, limit)
  {
    forall k | 0 <= k < |x| && k <= limit
      ensures !(x[k..] <= TRUNCATED)
    {
      assert |x[k..]| > |TRUNCATED|;
    }
  }

  // Exactly which secrets it removes whatever the length limit.
  lemma ScrubbedExactlyWhenSafe(x: string, c: char)
    requires c !in x
    ensures AlwaysScrubbed(x) <==> Safe(x)
  {
    if Safe(x) {
      forall text, order, values, limit | LongestFirst(order, values) && x in values
        ensures !Occurs(x, ScrubText(text, order, limit))
      {
        SafeValueIsScrubbed(x, text, order, values, limit);
      }
    } else if x == "" {
      assert LongestFirst([], {x}) && At(x, ScrubText("", [], 0), 0);
      assert Occurs(x, ScrubText("", [], 0));
    } else {
      var limit := 2 * |x| + |REDACTED|;
      UnsafeAtLargeLimit(x, limit);
      ScrubbedExactlyAt(x, c, limit, 1);
      assert !AlwaysScrubbedAt(x, limit, 1);
    }
  }

  lemma UnsafeAtLargeLimit(x: string, limit: nat)
    requires x != "" && !Safe(x) && limit >= 2 * |x| + |REDACTED|
    ensures !SafeAt(x, limit)
  {
  }
}
