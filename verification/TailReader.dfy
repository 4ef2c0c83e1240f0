// Reading the end of the journal file: the backward reader with its doubling
// window, the forward scan it replaces, and the count of the lines.
module TailReader {
  import opened Wrappers

  type byte = b: int | 0 <= b < 256

  type Bytes = seq<byte>

  const LF: byte := 10
  const CR: byte := 13

  predicate IsLineEnd(b: byte) {
    b == LF || b == CR
  }

  // What bytes.strip() removes: space, tab, LF, VT, FF and CR.
  predicate IsSpace(b: byte) {
    b == 32 || 9 <= b <= 13
  }

  // rstrip(b"\r\n")
  function DropLineEnds(s: Bytes): (r: Bytes)
    ensures r <= s
    ensures r == [] || !IsLineEnd(r[|r| - 1])
    ensures forall i :: |r| <= i < |s| ==> IsLineEnd(s[i])
  {
    if |s| > 0 && IsLineEnd(s[|s| - 1]) then DropLineEnds(s[..|s| - 1]) else s
  }

  function DropTrailingSpace(s: Bytes): (r: Bytes)
    ensures r <= s
    ensures r == [] || !IsSpace(r[|r| - 1])
    ensures forall i :: |r| <= i < |s| ==> IsSpace(s[i])
  {
    if |s| > 0 && IsSpace(s[|s| - 1]) then DropTrailingSpace(s[..|s| - 1]) else s
  }

  function DropLeadingSpace(s: Bytes): (r: Bytes)
    ensures |r| <= |s| && r == s[|s| - |r|..]
    ensures r == [] || !IsSpace(r[0])
    ensures forall i :: 0 <= i < |s| - |r| ==> IsSpace(s[i])
  {
    if |s| > 0 && IsSpace(s[0]) then DropLeadingSpace(s[1..]) else s
  }

  // strip()
  function Strip(s: Bytes): Bytes {
    DropLeadingSpace(DropTrailingSpace(s))
  }

  predicate IsWhite(b: byte) {
    b == 9 || b == 10 || b == 11 || b == 12 || b == 13 || b == 32
  }

  // What is left of a line has no white space at either end, and nothing but
  // white space is taken from it.
  lemma StripExactly(s: Bytes) returns (i: nat, k: nat)
    ensures i <= k <= |s| && Strip(s) == s[i..k]
    ensures forall x :: 0 <= x < |s| && !(i <= x < k) ==> IsWhite(s[x])
    ensures i < k ==> !IsWhite(s[i]) && !IsWhite(s[k - 1])
  {
    hide DropTrailingSpace, DropLeadingSpace;
    var t := DropTrailingSpace(s);
    var r := DropLeadingSpace(t);
    i, k := |t| - |r|, |t|;
    assert t == s[..k];
    assert forall x :: 0 <= x < |t| ==> t[x] == s[x];
    assert forall x :: 0 <= x < |r| ==> r[x] == t[i + x];
  }

  // A line that strip() leaves alone.
  predicate Trimmed(s: Bytes) {
    s != [] && !IsSpace(s[0]) && !IsSpace(s[|s| - 1])
  }

  // rfind(b"\n")
  function LastLineFeed(s: Bytes): (at: Option<nat>)
    ensures at.Some? ==> at.value < |s| && s[at.value] == LF && forall i :: at.value < i < |s| ==> s[i] != LF
    ensures at.None? ==> forall i :: 0 <= i < |s| ==> s[i] != LF
  {
    if |s| == 0 then None
    else if s[|s| - 1] == LF then Some(|s| - 1)
    else LastLineFeed(s[..|s| - 1])
  }

  // The text after the last line feed.
  function LastPiece(s: Bytes): Bytes {
    var at := LastLineFeed(s);
    if at.Some? then s[at.value + 1..] else s
  }

  // The line the backward reader hands to the parser.
  function TailLine(data: Bytes): Option<Bytes> {
    var text := DropLineEnds(data);
    if text == [] then None else Some(LastPiece(text))
  }

  // The line starts at the given place, after a line feed or at the front of the
  // file, holds no line feed, and is followed by nothing but line ends.
  predicate LastLineAt(data: Bytes, line: Bytes, start: nat) {
    && line != [] && start + |line| <= |data| && data[start..start + |line|] == line
    && (start == 0 || data[start - 1] == LF)
    && (forall i :: 0 <= i < |line| ==> line[i] != LF) && line[|line| - 1] != CR
    && (forall i :: start + |line| <= i < |data| ==> data[i] == LF || data[i] == CR)
  }

  // What the backward reader finds in any file is its last line, in this sense.
  lemma TailLineExactly(data: Bytes, line: Bytes)
    ensures TailLine(data) == Some(line) <==> exists start :: LastLineAt(data, line, start)
  {
    if TailLine(data) == Some(line) {
      var start := TailIsLast(data);
    }
    if start: nat :| LastLineAt(data, line, start) {
      LastIsTail(data, line, start);
    }
  }

  lemma TailIsLast(data: Bytes) returns (start: nat)
    requires TailLine(data).Some?
    ensures LastLineAt(data, TailLine(data).value, start)
  {
    var text, line := DropLineEnds(data), TailLine(data).value;
    start := |text| - |line|;
    assert data[start..start + |line|] == text[start..];
  }

  lemma LastIsTail(data: Bytes, line: Bytes, start: nat)
    requires LastLineAt(data, line, start)
    ensures TailLine(data) == Some(line)
  {
    var text, end := DropLineEnds(data), start + |line|;
    assert data[end - 1] == line[|line| - 1] && !IsLineEnd(data[end - 1]);
    assert |text| == end;
    assert text == data[..end];
    forall i | start <= i < |text|
      ensures text[i] != LF
    {
      assert data[i] == line[i - start];
    }
    assert LastLineFeed(text) == if start == 0 then None else Some(start - 1);
    assert text[start..] == line;
  }

  // ----- the backward reader -----

  lemma WindowSeesSameEnd(data: Bytes, start: nat)
    requires start <= |data|
    ensures var text, seen := DropLineEnds(data), DropLineEnds(data[start..]);
            seen == if start <= |text| then text[start..] else []
  {
    var text, seen := DropLineEnds(data), DropLineEnds(data[start..]);
    var chunk := data[start..];
    if |seen| > 0 {
      assert seen[|seen| - 1] == chunk[|seen| - 1] == data[start + |seen| - 1];
      assert !IsLineEnd(data[start + |seen| - 1]);
      assert start + |seen| <= |text|;
    }
    if |text| > start {
      assert !IsLineEnd(data[|text| - 1]);
      assert chunk[|text| - 1 - start] == data[|text| - 1];
      assert |text| - start <= |seen|;
    }
  }

  lemma SuffixKeepsLastPiece(text: Bytes, start: nat)
    requires start <= |text| && LastLineFeed(text[start..]).Some?
    ensures LastPiece(text[start..]) == LastPiece(text)
  {
    var at := LastLineFeed(text[start..]).value;
    assert text[start + at] == LF;
    assert forall i :: start + at < i < |text| ==> text[i] == text[start..][i - start];
    assert LastLineFeed(text) == Some(start + at);
  }

  // Reads ever larger chunks from the end until one holds the whole last line.
  method ReadTailLine(data: Bytes, firstWindow: nat) returns (line: Option<Bytes>)
    requires firstWindow > 0
    ensures line == TailLine(data)
  {
    var size := |data|;
    if size == 0 {
      return None;
    }
    var window := firstWindow;
    while true
      invariant window > 0
      decreases size - window
    {
      var start := if size > window then size - window else 0;
      var chunk := data[start..];
      var stripped := DropLineEnds(chunk);
      WindowSeesSameEnd(data, start);
      if stripped == [] {
        if start == 0 {
          return None;
        }
        window := window * 2;
        continue;
      }
      var newline := LastLineFeed(stripped);
      if newline.Some? {
        SuffixKeepsLastPiece(DropLineEnds(data), start);
        return Some(stripped[newline.value + 1..]);
      }
      if start == 0 {
        return Some(stripped);
      }
      window := window * 2;
    }
  }

  // ----- the lines of a file -----

  function FirstLineFeed(s: Bytes): (at: nat)
    ensures at <= |s| && (forall i :: 0 <= i < at ==> s[i] != LF)
    ensures at < |s| ==> s[at] == LF
  {
    if |s| == 0 || s[0] == LF then 0 else 1 + FirstLineFeed(s[1..])
  }

  // Iterating over a binary file: pieces that end with a line feed, and
  // perhaps a last piece that does not.
  function Lines(data: Bytes): (lines: seq<Bytes>)
    decreases |data|
  {
    if |data| == 0 then []
    else
      var at := FirstLineFeed(data);
      if at == |data| then [data]
      else [data[..at + 1]] + Lines(data[at + 1..])
  }

  predicate IsBlank(line: Bytes) {
    Strip(line) == []
  }

  // The last non-blank line, stripped: what the forward scan ends up with.
  function LastStripped(lines: seq<Bytes>): Option<Bytes> {
    if |lines| == 0 then None
    else if IsBlank(lines[|lines| - 1]) then LastStripped(lines[..|lines| - 1])
    else Some(Strip(lines[|lines| - 1]))
  }

  function LastScanned(data: Bytes): Option<Bytes> {
    LastStripped(Lines(data))
  }

  method ScanTailLine(data: Bytes) returns (line: Option<Bytes>)
    ensures line == LastScanned(data)
  {
    hide Strip, Lines;
    line := None;
    var lines := Lines(data);
    for i := 0 to |lines|
      invariant line == LastStripped(lines[..i])
    {
      assert lines[..i + 1][..i] == lines[..i];
      var stripped := Strip(lines[i]);
      if stripped != [] {
        line := Some(stripped);
      }
    }
    assert lines[..|lines|] == lines;
  }

  function CountNonBlank(lines: seq<Bytes>): nat {
    if |lines| == 0 then 0
    else CountNonBlank(lines[..|lines| - 1]) + if IsBlank(lines[|lines| - 1]) then 0 else 1
  }

  method CountEventLines(data: Bytes) returns (count: nat)
    ensures count == CountNonBlank(Lines(data))
  {
    hide Strip, Lines;
    count := 0;
    var lines := Lines(data);
    for i := 0 to |lines|
      invariant count == CountNonBlank(lines[..i])
    {
      assert lines[..i + 1][..i] == lines[..i];
      if Strip(lines[i]) != [] {
        count := count + 1;
      }
    }
    assert lines[..|lines|] == lines;
  }

  // ----- when the two readers agree -----

  lemma {:induction false} LinesStep(data: Bytes)
    requires FirstLineFeed(data) < |data|
    ensures var at := FirstLineFeed(data);
            Lines(data) == [data[..at + 1]] + Lines(data[at + 1..])
  {
  }

  lemma {:induction false} LinesAppend(a: Bytes, b: Bytes)
    requires a == [] || a[|a| - 1] == LF
    ensures Lines(a + b) == Lines(a) + Lines(b)
    decreases |a|
  {
    hide Lines, FirstLineFeed;
    if a == [] {
      NoLines();
      assert a + b == b;
    } else {
      var at := FirstLineFeed(a);
      assert at < |a|;
      FirstLineFeedUnique(a + b, at);
      LinesStep(a);
      LinesStep(a + b);
      assert (a + b)[..at + 1] == a[..at + 1];
      assert (a + b)[at + 1..] == a[at + 1..] + b;
      LinesAppend(a[at + 1..], b);
    }
  }

  lemma {:induction false} FirstLineFeedUnique(s: Bytes, at: nat)
    requires at < |s| && s[at] == LF && forall i :: 0 <= i < at ==> s[i] != LF
    ensures FirstLineFeed(s) == at
  {
  }

  // A line feed cuts the line it ends off the rest.
  lemma OneLine(line: Bytes, rest: Bytes)
    requires forall i :: 0 <= i < |line| ==> line[i] != LF
    ensures Lines(line + [LF] + rest) == [line + [LF]] + Lines(rest)
  {
    var data := line + [LF] + rest;
    FirstLineFeedUnique(data, |line|);
    assert data[..|line| + 1] == line + [LF];
    assert data[|line| + 1..] == rest;
  }

  lemma {:induction false} TrailingSpaceDropped(line: Bytes, tail: Bytes)
    requires line != [] && !IsSpace(line[|line| - 1]) && forall i :: 0 <= i < |tail| ==> IsSpace(tail[i])
    ensures DropTrailingSpace(line + tail) == line
  {
    hide IsSpace;
    if tail == [] {
      assert line + tail == line;
    } else {
      var n := |tail| - 1;
      assert (line + tail)[..|line| + n] == line + tail[..n];
      TrailingSpaceDropped(line, tail[..n]);
    }
  }

  lemma StripTrimmed(line: Bytes, tail: Bytes)
    requires Trimmed(line) && forall i :: 0 <= i < |tail| ==> IsSpace(tail[i])
    ensures Strip(line + tail) == line
  {
    hide DropTrailingSpace, IsSpace;
    TrailingSpaceDropped(line, tail);
  }

  lemma StrippedIsTrimmed(s: Bytes)
    ensures Strip(s) == [] || Trimmed(Strip(s))
  {
    hide DropTrailingSpace, DropLeadingSpace, IsSpace;
    var left := DropTrailingSpace(s);
    assert Strip(s) == [] || Strip(s)[|Strip(s)| - 1] == left[|left| - 1];
  }

  lemma SpaceIsBlank(s: Bytes)
    requires forall i :: 0 <= i < |s| ==> IsSpace(s[i])
    ensures IsBlank(s)
  {
  }

  lemma {:induction false} LastStrippedIsTrimmed(lines: seq<Bytes>)
    ensures LastStripped(lines).Some? ==> Trimmed(LastStripped(lines).value)
  {
    if |lines| > 0 {
      StrippedIsTrimmed(lines[|lines| - 1]);
      LastStrippedIsTrimmed(lines[..|lines| - 1]);
    }
  }

  lemma LineEndIsSpace(s: Bytes)
    requires OnlyLineEnds(s)
    ensures IsBlank(s)
  {
    hide IsBlank;
    SpaceIsBlank(s);
  }

  predicate OnlyLineEnds(s: Bytes) {
    forall i :: 0 <= i < |s| ==> IsLineEnd(s[i])
  }

  lemma LastStrippedSnoc(lines: seq<Bytes>, line: Bytes)
    ensures LastStripped(lines + [line]) == if IsBlank(line) then LastStripped(lines) else Some(Strip(line))
  {
    hide Strip, IsBlank;
    assert (lines + [line])[..|lines|] == lines;
  }

  // Lines of nothing but line ends leave the result of the scan alone.
  lemma {:induction false} LineEndsAreBlank(tail: Bytes, before: seq<Bytes>)
    requires OnlyLineEnds(tail)
    ensures LastStripped(before + Lines(tail)) == LastStripped(before)
    decreases |tail|
  {
    hide LastStripped, IsBlank;
    if tail == [] {
      assert before + Lines(tail) == before;
    } else {
      var at := FirstLineFeed(tail);
      var first := if at == |tail| then tail else tail[..at + 1];
      var rest := tail[|first|..];
      LineEndIsSpace(first);
      LastStrippedSnoc(before, first);
      LineEndsAreBlank(rest, before + [first]);
      assert Lines(tail) == [first] + Lines(rest);
      assert before + Lines(tail) == before + [first] + Lines(rest);
    }
  }

  lemma NoLineFeed(s: Bytes)
    requires s != [] && forall i :: 0 <= i < |s| ==> s[i] != LF
    ensures Lines(s) == [s]
  {
  }

  lemma LastPieceCut(text: Bytes)
    requires text != [] && !IsLineEnd(text[|text| - 1])
    ensures var line := LastPiece(text);
            && line != [] && !IsLineEnd(line[|line| - 1]) && (forall i :: 0 <= i < |line| ==> line[i] != LF)
            && |line| <= |text| && text == text[..|text| - |line|] + line
            && (|line| < |text| ==> text[|text| - |line| - 1] == LF)
  {
  }

  // The pieces of the file around its last line.
  lemma LastLineCut(data: Bytes) returns (head: Bytes, tail: Bytes)
    requires TailLine(data).Some?
    ensures var line := TailLine(data).value;
            && data == head + (line + tail) && (head == [] || head[|head| - 1] == LF) && OnlyLineEnds(tail)
            && line != [] && !IsLineEnd(line[|line| - 1]) && forall i :: 0 <= i < |line| ==> line[i] != LF
  {
    hide LastPiece, LastLineFeed, DropLineEnds;
    var text, line := DropLineEnds(data), TailLine(data).value;
    LastPieceCut(text);
    head := text[..|text| - |line|];
    tail := data[|text|..];
    assert data == text + tail;
    assert head + (line + tail) == (head + line) + tail;
  }

  lemma CutLines(head: Bytes, line: Bytes, tail: Bytes) returns (ends: Bytes, after: Bytes)
    requires (head == [] || head[|head| - 1] == LF) && OnlyLineEnds(tail)
    requires line != [] && forall i :: 0 <= i < |line| ==> line[i] != LF
    ensures Lines(head + (line + tail)) == Lines(head) + [line + ends] + Lines(after)
    ensures OnlyLineEnds(ends) && OnlyLineEnds(after)
  {
    hide Lines;
    LinesAppend(head, line + tail);
    var at := FirstLineFeed(tail);
    if at == |tail| {
      NoLineFeed(line + tail);
      ends, after := tail, [];
      NoLines();
      assert Lines(head) + [line + tail] == Lines(head) + [line + tail] + [];
    } else {
      ends, after := tail[..at + 1], tail[at + 1..];
      var body := line + tail[..at];
      assert body + [LF] == line + ends;
      assert line + tail == body + [LF] + after;
      OneLine(body, after);
      assert Lines(head) + ([line + ends] + Lines(after)) == Lines(head) + [line + ends] + Lines(after);
    }
  }

  // The last line with its line end, then lines of line ends only.
  lemma LastLineInLines(data: Bytes) returns (before: seq<Bytes>, ends: Bytes, after: Bytes)
    requires TailLine(data).Some?
    ensures Lines(data) == before + [TailLine(data).value + ends] + Lines(after)
    ensures OnlyLineEnds(ends) && OnlyLineEnds(after)
  {
    var head, tail := LastLineCut(data);
    hide TailLine, Lines;
    before := Lines(head);
    ends, after := CutLines(head, TailLine(data).value, tail);
  }

  lemma NoLines()
    ensures Lines([]) == []
  {
  }

  // The doubling-window reader and the forward scan end on the same line if
  // and only if the file holds only line ends or its last line, without them,
  // begins and ends with a byte that is not white space.
  lemma ReadersAgreeExactly(data: Bytes)
    ensures TailLine(data) == LastScanned(data) <==> TailLine(data).None? || Trimmed(TailLine(data).value)
  {
    hide Lines, Strip, LastStripped, IsBlank, LastPiece;
    if TailLine(data).None? {
      LineEndsAreBlank(data, []);
      assert [] + Lines(data) == Lines(data);
      NothingStripped();
    } else {
      hide TailLine;
      var line := TailLine(data).value;
      var before, ends, after := LastLineInLines(data);
      LineEndsAreBlank(after, before + [line + ends]);
      LastStrippedSnoc(before, line + ends);
      LastStrippedIsTrimmed(Lines(data));
      if Trimmed(line) {
        StripTrimmed(line, ends);
        TrimmedIsNotBlank(line, ends);
      }
    }
  }

  lemma NothingStripped()
    ensures LastStripped([]) == None
  {
  }

  lemma TrimmedIsNotBlank(line: Bytes, ends: Bytes)
    requires Trimmed(line) && Strip(line + ends) == line
    ensures !IsBlank(line + ends)
  {
  }

  // Every line, without its line end, is empty or begins and ends with a
  // byte that is not white space.
  predicate WellFormedLines(data: Bytes) {
    forall i :: 0 <= i < |Lines(data)| ==>
                  DropLineEnds(Lines(data)[i]) == [] || Trimmed(DropLineEnds(Lines(data)[i]))
  }

  lemma WellFormedReadersAgree(data: Bytes)
    requires WellFormedLines(data)
    ensures TailLine(data) == LastScanned(data)
  {
    if TailLine(data).Some? {
      var line := TailLine(data).value;
      var before, ends, after := LastLineInLines(data);
      var head, tail := LastLineCut(data);
      assert Lines(data)[|before|] == line + ends;
      DropOnlyEnds(line, ends);
    }
    ReadersAgreeExactly(data);
  }

  lemma {:induction false} DropOnlyEnds(line: Bytes, ends: Bytes)
    requires line != [] && !IsLineEnd(line[|line| - 1]) && OnlyLineEnds(ends)
    ensures DropLineEnds(line + ends) == line
  {
    if ends == [] {
      assert line + ends == line;
    } else {
      var n := |ends| - 1;
      assert (line + ends)[..|line| + n] == line + ends[..n];
      DropOnlyEnds(line, ends[..n]);
    }
  }

  // Outside that domain they differ: when a line of one space follows a good
  // line, the backward reader returns the space and the scan the good line.
  lemma SpaceLineTellsThemApart(line: Bytes)
    requires Trimmed(line) && forall i :: 0 <= i < |line| ==> line[i] != LF
    ensures TailLine(line + [LF] + [32]) == Some([32]) && LastScanned(line + [LF] + [32]) == Some(line)
  {
    hide Lines, Strip, LastStripped, IsBlank;
    var data := line + [LF] + [32];
    OneLine(line, [32]);
    NoLineFeed([32]);
    LastStrippedSnoc([line + [LF]], [32]);
    SpaceIsBlank([32]);
    LastStrippedSnoc([], line + [LF]);
    assert [] + [line + [LF]] == [line + [LF]];
    StripTrimmed(line, [LF]);
    TrimmedIsNotBlank(line, [LF]);
    LastFeedBeforeSpace(line);
  }

  lemma LastFeedBeforeSpace(line: Bytes)
    ensures TailLine(line + [LF] + [32]) == Some([32])
  {
    var data := line + [LF] + [32];
    assert data[|data| - 1] == 32;
    assert DropLineEnds(data) == data;
    assert LastLineFeed(data) == Some(|line|);
  }
}
