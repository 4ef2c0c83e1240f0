// The journal file: events as lines, and the appends that extend it in place.
module FileJournal {
  import opened Wrappers
  import opened Json
  import opened JsonText
  import opened JsonTextLaws
  import opened Evidence
  import opened EventText
  import Utf8
  import opened Verification
  import opened Chain
  import opened TailReader

  // The line format: encode writes an event as the bytes of a line, decode
  // reads a stripped line, numbers is how the host reads and writes floats.
  datatype Codec = Codec(numbers: Numbers, encode: Event -> Bytes, decode: Bytes -> Line)

  // What the journal needs of the format: the event of a legible line can be
  // read back, and the line begins and ends with a byte that is not a space.
  ghost predicate LineSafe(codec: Codec) {
    forall e :: Legible(codec.numbers, e) ==>
      && Trimmed(codec.encode(e))
      && (forall i :: 0 <= i < |codec.encode(e)| ==> codec.encode(e)[i] != LF)
      && codec.decode(codec.encode(e)) == Object(e)
  }

  // json.loads: one value, with white space around it.
  function ParseText(h: Numbers, s: string): Option<Json> {
    match DecodeValue(h, SkipSpaces(s))
    case Fail => None
    case Got(j, rest) => if SkipSpaces(rest) == "" then Some(j) else None
  }

  // What a line reads as; an object with a number that is not finite is not an
  // event here, and nothing is said about it.
  ghost predicate ReadsAs(h: Numbers, line: Bytes, r: Line) {
    match Utf8.Decode(line)
    case None => r == NotJson
    case Some(s) =>
      match ParseText(h, s)
      case None => r == NotJson
      case Some(j) =>
        if !j.JObj? then r == NotObject
        else (forall i :: 0 <= i < |j.fields| ==> Proper(j.fields[i].1)) ==> r == Object(EventOf(j.fields))
  }

  // The format of the library: canonical JSON text in UTF-8.
  ghost predicate CanonicalCodec(codec: Codec) {
    && (forall e :: codec.encode(e) == Utf8.Encode(TextOf(e)))
    && (forall line :: ReadsAs(codec.numbers, line, codec.decode(line)))
  }

  lemma ObjectText(fields: seq<(string, Json)>)
    ensures var text := Print(Compact, JObj(fields));
            && text == "{" + PrintMembers(Compact, fields) + "}"
            && SkipSpaces(text) == text && text + "" == text
  {
    hide PrintMembers;
  }

  lemma BracedBytes(middle: string)
    ensures Trimmed(Utf8.Encode("{" + middle + "}"))
  {
    hide Utf8.EncodeChar;
    Utf8.CharBytes('{');
    Utf8.CharBytes('}');
    Utf8.EncodeAppends("{" + middle, "}");
    Utf8.EncodeAppends("{", middle);
    assert "{"[1..] == "" && "}"[1..] == "";
    assert Utf8.Encode("{") == [123] + [] && Utf8.Encode("}") == [125] + [];
  }

  // The format of the library is as the journal needs it: the JSON printer
  // and parser, the UTF-8 encoder and decoder, and the order of keys fit together.
  lemma CanonicalCodecIsLineSafe(codec: Codec)
    requires CanonicalCodec(codec)
    ensures LineSafe(codec)
  {
    hide Legible, TextOf, ReadsAs, Utf8.Encode, Trimmed;
    forall e | Legible(codec.numbers, e)
      ensures Trimmed(codec.encode(e))
      ensures forall i :: 0 <= i < |codec.encode(e)| ==> codec.encode(e)[i] != LF
      ensures codec.decode(codec.encode(e)) == Object(e)
    {
      LineOfEvent(codec.numbers, e);
      EventOfLine(codec.numbers, e, codec.decode(Utf8.Encode(TextOf(e))));
    }
  }

  lemma LineOfEvent(h: Numbers, e: Event)
    requires Legible(h, e)
    ensures Trimmed(Utf8.Encode(TextOf(e))) && LF !in Utf8.Encode(TextOf(e))
  {
    hide Utf8.Encode, Print, PrintMembers, Ordered, FloatsReadBack, Entries, Legible, Trimmed;
    EntriesAreOrdered(h, e);
    ObjectText(Entries(e));
    BracedBytes(PrintMembers(Compact, Entries(e)));
    PrintedIsOneLine(Compact, h, JObj(Entries(e)));
    Utf8.NoLineFeedBytes(TextOf(e));
  }

  lemma EventOfLine(h: Numbers, e: Event, r: Line)
    requires Legible(h, e) && ReadsAs(h, Utf8.Encode(TextOf(e)), r)
    ensures r == Object(e)
  {
    hide Utf8.Encode, Utf8.Decode, Print, PrintMembers, Ordered, FloatsReadBack, Entries, Legible, DecodeValue, EventOf;
    EntriesAreOrdered(h, e);
    ObjectText(Entries(e));
    Utf8.EncodedDecodes(TextOf(e));
    PrintedDecodes(Compact, h, JObj(Entries(e)), "");
    EventOfEntries(e);
  }

  function FileBytes(codec: Codec, events: seq<Event>): Bytes {
    if |events| == 0 then []
    else FileBytes(codec, events[..|events| - 1]) + (codec.encode(events[|events| - 1]) + [LF])
  }

  // What the verifier sees of a raw line.
  function ParseLine(codec: Codec, raw: Bytes): Line {
    if IsBlank(raw) then Blank else codec.decode(Strip(raw))
  }

  function ParseLines(codec: Codec, lines: seq<Bytes>): seq<Line> {
    if |lines| == 0 then []
    else ParseLines(codec, lines[..|lines| - 1]) + [ParseLine(codec, lines[|lines| - 1])]
  }

  lemma EncodedLine(codec: Codec, e: Event)
    requires LineSafe(codec) && Legible(codec.numbers, e)
    ensures var line := codec.encode(e);
            && Trimmed(line) && (forall i :: 0 <= i < |line| ==> line[i] != LF)
            && Strip(line + [LF]) == line && !IsBlank(line + [LF])
            && ParseLine(codec, line + [LF]) == Object(e)
  {
    hide Strip;
    var line := codec.encode(e);
    assert Trimmed(line);
    StripTrimmed(line, [LF]);
    TrimmedIsNotBlank(line, [LF]);
  }

  lemma EndsWithLineFeed(codec: Codec, events: seq<Event>)
    ensures var data := FileBytes(codec, events); data == [] || data[|data| - 1] == LF
  {
  }

  ghost predicate AllLegible(codec: Codec, events: seq<Event>) {
    forall i :: 0 <= i < |events| ==> Legible(codec.numbers, events[i])
  }

  // A file written line by line reads back as the same events: the lines, the
  // count and the tail all agree with the list of events.
  lemma {:induction false} FileHoldsEvents(codec: Codec, events: seq<Event>)
    requires LineSafe(codec) && AllLegible(codec, events)
    ensures ParseLines(codec, Lines(FileBytes(codec, events))) == Objects(events)
    ensures CountNonBlank(Lines(FileBytes(codec, events))) == |events|
    ensures |Lines(FileBytes(codec, events))| == |events|
  {
    hide Lines, IsBlank, Strip, ParseLine, LineSafe;
    if |events| == 0 {
      NoLines();
    } else {
      var n := |events| - 1;
      var before := FileBytes(codec, events[..n]);
      var line := codec.encode(events[n]);
      FileHoldsEvents(codec, events[..n]);
      EndsWithLineFeed(codec, events[..n]);
      EncodedLine(codec, events[n]);
      LinesAppend(before, line + [LF]);
      OneLine(line, []);
      NoLines();
      assert line + [LF] + [] == line + [LF];
      assert Lines(line + [LF]) == [line + [LF]];
      var lines := Lines(before + (line + [LF]));
      assert lines[..|lines| - 1] == Lines(before);
      assert Objects(events) == Objects(events[..n]) + [Object(events[n])];
    }
  }

  lemma LastPieceOf(head: Bytes, line: Bytes)
    requires (head == [] || head[|head| - 1] == LF) && forall i :: 0 <= i < |line| ==> line[i] != LF
    ensures LastPiece(head + line) == line
  {
    var text := head + line;
    var at := LastLineFeed(text);
    if head != [] {
      assert text[|head| - 1] == LF;
      assert forall i :: |head| <= i < |text| ==> text[i] == line[i - |head|];
    }
  }

  lemma TailOfLine(before: Bytes, line: Bytes)
    requires (before == [] || before[|before| - 1] == LF) && Trimmed(line)
    requires forall i :: 0 <= i < |line| ==> line[i] != LF
    ensures TailLine(before + (line + [LF])) == Some(line)
  {
    hide LastPiece, DropLineEnds;
    assert before + (line + [LF]) == (before + line) + [LF];
    assert (before + line)[|before + line| - 1] == line[|line| - 1];
    DropOnlyEnds(before + line, [LF]);
    LastPieceOf(before, line);
  }

  lemma TailIsLastEvent(codec: Codec, events: seq<Event>)
    requires LineSafe(codec) && AllLegible(codec, events)
    ensures TailLine(FileBytes(codec, events))
            == if |events| == 0 then None else Some(codec.encode(events[|events| - 1]))
  {
    if |events| > 0 {
      hide TailLine, LineSafe, Strip, IsBlank, ParseLine;
      var n := |events| - 1;
      EndsWithLineFeed(codec, events[..n]);
      EncodedLine(codec, events[n]);
      TailOfLine(FileBytes(codec, events[..n]), codec.encode(events[n]));
    }
  }

  lemma FileBytesSnoc(codec: Codec, events: seq<Event>, e: Event)
    ensures FileBytes(codec, events + [e]) == FileBytes(codec, events) + (codec.encode(e) + [LF])
  {
    assert (events + [e])[..|events|] == events;
  }

  // ----- the hash of the tail -----

  // A parsed line that is not an object raises a type error in the host.
  datatype JournalError = CorruptTail | NonStringHash | HostTypeError | IoFailed | SigningFailed

  function EventHashFromLine(codec: Codec, line: Bytes): Result<string, JournalError> {
    match codec.decode(line)
    case Object(e) =>
      if EventHash !in e then Err(CorruptTail)
      else if e[EventHash].JStr? then Ok(e[EventHash].s)
      else Err(NonStringHash)
    case NotObject => Err(HostTypeError)
    case _ => Err(CorruptTail)
  }

  function HashOfTail(codec: Codec, line: Option<Bytes>): Result<Option<string>, JournalError> {
    match line
    case None => Ok(None)
    case Some(l) =>
      match EventHashFromLine(codec, l)
      case Ok(h) => Ok(Some(h))
      case Err(e) => Err(e)
  }

  const TAIL_READ_BYTES: nat := 64 * 1024

  method ReadLastEventHash(codec: Codec, data: Bytes) returns (r: Result<Option<string>, JournalError>)
    ensures r == HashOfTail(codec, TailLine(data))
  {
    var line := ReadTailLine(data, TAIL_READ_BYTES);
    r := HashOfTail(codec, line);
  }

  method ReadLastEventHashScan(codec: Codec, data: Bytes) returns (r: Result<Option<string>, JournalError>)
    ensures r == HashOfTail(codec, LastScanned(data))
  {
    var line := ScanTailLine(data);
    r := HashOfTail(codec, line);
  }

  // On every file of well-formed lines the fast reader and the reference scan
  // return the same hash or the same error.
  lemma FastReaderRefinesScan(codec: Codec, data: Bytes)
    requires WellFormedLines(data)
    ensures HashOfTail(codec, TailLine(data)) == HashOfTail(codec, LastScanned(data))
  {
    WellFormedReadersAgree(data);
  }

  lemma HashOfLastEvent(codec: Codec, events: seq<Event>)
    requires LineSafe(codec) && AllLegible(codec, events)
    requires |events| > 0 ==> StoredHash(events[|events| - 1]).Some?
    ensures HashOfTail(codec, TailLine(FileBytes(codec, events))) == Ok(PreviousOf(events, |events|))
  {
    hide TailLine;
    TailIsLastEvent(codec, events);
    if |events| > 0 {
      assert codec.decode(codec.encode(events[|events| - 1])) == Object(events[|events| - 1]);
    }
  }

  // Exactly when a file can be extended, and with which hash: it holds nothing
  // but line ends, or its last line is an object with a string hash. Every other
  // tail is refused, each with its own error.
  lemma TailDecides(codec: Codec, data: Bytes)
    ensures var r, line := HashOfTail(codec, TailLine(data)), TailLine(data);
            && (r == Ok(None) <==> forall i :: 0 <= i < |data| ==> data[i] == LF || data[i] == CR)
            && (forall h :: r == Ok(Some(h)) <==> line.Some? && HasHash(codec.decode(line.value), JStr(h)))
            && (r == Err(NonStringHash) <==>
                  line.Some? && exists j: Json :: !j.JStr? && HasHash(codec.decode(line.value), j))
            && (r == Err(HostTypeError) <==> line.Some? && codec.decode(line.value).NotObject?)
            && (r == Err(CorruptTail) <==>
                  line.Some? && !codec.decode(line.value).NotObject? && forall j :: !HasHash(codec.decode(line.value), j))
  {
    hide LastPiece;
    NothingButLineEnds(data);
    if TailLine(data).Some? && codec.decode(TailLine(data).value).Object? {
      var e := codec.decode(TailLine(data).value).event;
      assert EventHash in e ==> HasHash(Object(e), e[EventHash]);
    }
  }

  predicate HasHash(line: Line, j: Json) {
    line.Object? && EventHash in line.event && line.event[EventHash] == j
  }

  lemma NothingButLineEnds(data: Bytes)
    ensures TailLine(data).None? <==> forall i :: 0 <= i < |data| ==> data[i] == LF || data[i] == CR
  {
    hide LastPiece;
    var text := DropLineEnds(data);
    assert forall i :: 0 <= i < |text| ==> text[i] == data[i];
  }

  // ----- the journal object -----

  // What the operating system does to one append: fail before the write, store
  // nothing and fail, store the line and fail (a sync error), or work. When the
  // flush fails, the line is still in the buffer of the file when the lock is
  // released: others may store their lines before the file is closed, and the
  // close then stores the line behind theirs, or fails and loses it.
  datatype Io = OpenFails | WriteFails | FlushFails(others: seq<Event>, closes: bool) | SyncFails | Works

  // The lines that are stored from the locking to the closing of the file.
  function StoredBy(event: Event, io: Io): seq<Event> {
    match io
    case FlushFails(others, closes) => if closes then others + [event] else others
    case SyncFails => [event]
    case Works => [event]
    case _ => []
  }

  // What one append makes of a file, and what it reports.
  datatype Extension = Extension(data: Bytes, r: Result<Event, JournalError>)

  // A tail that cannot be read, and an event that cannot be built, leave the
  // file as it is.
  function Extended(codec: Codec, data: Bytes, build: Option<string> -> Result<Event, JournalError>, io: Io): Extension {
    if io == OpenFails then Extension(data, Err(IoFailed))
    else
      match HashOfTail(codec, TailLine(data))
      case Err(error) => Extension(data, Err(error))
      case Ok(previous) =>
        match build(previous)
        case Err(error) => Extension(data, Err(error))
        case Ok(event) =>
          Extension(data + FileBytes(codec, StoredBy(event, io)), if io == Works then Ok(event) else Err(IoFailed))
  }

  lemma {:induction false} FileBytesAppend(codec: Codec, a: seq<Event>, b: seq<Event>)
    ensures FileBytes(codec, a + b) == FileBytes(codec, a) + FileBytes(codec, b)
  {
    if |b| == 0 {
      assert a + b == a;
    } else {
      var n := |b| - 1;
      FileBytesAppend(codec, a, b[..n]);
      assert (a + b)[..|a + b| - 1] == a + b[..n];
    }
  }

  // An event the journal can hold: it carries a string hash and is legible.
  ghost predicate Holdable(codec: Codec, e: Event) {
    StoredHash(e).Some? && Legible(codec.numbers, e)
  }

  ghost predicate Sealed(codec: Codec, events: seq<Event>) {
    forall i :: 0 <= i < |events| ==> Holdable(codec, events[i])
  }

  lemma SealedIsLegible(codec: Codec, events: seq<Event>)
    requires Sealed(codec, events)
    ensures AllLegible(codec, events) && (|events| > 0 ==> StoredHash(events[|events| - 1]).Some?)
  {
    assert |events| > 0 ==> Holdable(codec, events[|events| - 1]);
    forall i | 0 <= i < |events|
      ensures Legible(codec.numbers, events[i])
    {
      assert Holdable(codec, events[i]);
    }
  }

  lemma JournalGrows(codec: Codec, data: Bytes, events: seq<Event>, e: Event)
    requires data == FileBytes(codec, events) && Sealed(codec, events) && Holdable(codec, e)
    ensures data + (codec.encode(e) + [LF]) == FileBytes(codec, events + [e]) && Sealed(codec, events + [e])
  {
    FileBytesSnoc(codec, events, e);
  }

  class Journal {
    const codec: Codec
    var data: Bytes
    ghost var events: seq<Event>

    // The file holds the events, each of them sealed with a string hash.
    ghost predicate Valid()
      reads this
    {
      && LineSafe(codec)
      && data == FileBytes(codec, events)
      && Sealed(codec, events)
    }

    constructor (codec: Codec)
      requires LineSafe(codec)
      ensures Valid() && events == [] && this.codec == codec
    {
      this.codec := codec;
      data := [];
      events := [];
    }

    // The locked append to whatever the file holds: read the hash of its last
    // line, build the event, write the line.
    method ExtendFile(build: Option<string> -> Result<Event, JournalError>, io: Io) returns (r: Result<Event, JournalError>)
      modifies this`data
      ensures Extension(data, r) == Extended(codec, old(data), build, io)
    {
      hide TailLine, FileBytes;
      if io == OpenFails {
        return Err(IoFailed);
      }
      var previous := ReadLastEventHash(codec, data);
      if previous.Err? {
        return Err(previous.error);
      }
      var built := build(previous.value);
      if built.Err? {
        return Err(built.error);
      }
      WriteLine(built.value, io);
      r := if io == Works then Ok(built.value) else Err(IoFailed);
    }

    // The locked append of a checkpoint: the lines are counted and the hash is
    // read under the same lock.
    method ExtendFileWithCheckpoint(build: (nat, Option<string>) -> Result<Event, JournalError>, io: Io)
      returns (r: Result<Event, JournalError>)
      modifies this`data
      ensures Extension(data, r) == Extended(codec, old(data), h => build(CountNonBlank(Lines(old(data))), h), io)
    {
      hide TailLine, FileBytes, Lines;
      if io == OpenFails {
        return Err(IoFailed);
      }
      var count := CountEventLines(data);
      var previous := ReadLastEventHash(codec, data);
      if previous.Err? {
        return Err(previous.error);
      }
      var built := build(count, previous.value);
      if built.Err? {
        return Err(built.error);
      }
      WriteLine(built.value, io);
      r := if io == Works then Ok(built.value) else Err(IoFailed);
    }

    // Seek to the end, write the line, flush and sync; release the lock, and
    // close the file. A line whose flush failed comes behind those that others
    // have stored by then, or is lost.
    method WriteLine(event: Event, io: Io)
      requires io != OpenFails
      modifies this`data
      ensures data == old(data) + FileBytes(codec, StoredBy(event, io))
    {
      var line := codec.encode(event) + [LF];
      OneLineOfBytes(codec, event);
      match io
      case FlushFails(others, closes) =>
        data := data + FileBytes(codec, others);
        FileBytesAppend(codec, others, [event]);
        if closes {
          data := data + line;
        }
      case SyncFails => data := data + line;
      case Works => data := data + line;
      case WriteFails => assert data + [] == data;
      case OpenFails =>
    }

    lemma OneLineOfBytes(codec: Codec, event: Event)
      ensures FileBytes(codec, [event]) == codec.encode(event) + [LF] && FileBytes(codec, []) == []
    {
      assert [event][..0] == [];
      assert [] + (codec.encode(event) + [LF]) == codec.encode(event) + [LF];
    }

    // The append to a journal whose events are known: build gets the stored hash
    // of the last event; a failing build (signing) stores nothing.
    method AppendEvent(build: Option<string> -> Result<Event, JournalError>, io: Io)
      returns (r: Result<Event, JournalError>)
      requires Valid()
      requires forall h :: build(h).Ok? ==> Holdable(codec, build(h).value)
      requires io.FlushFails? ==> Sealed(codec, io.others)
      modifies this
      ensures Valid()
      ensures var built := build(PreviousOf(old(events), |old(events)|));
              && r == (if io == OpenFails then Err(IoFailed)
                       else if built.Err? then Err(built.error)
                       else if io == Works then Ok(built.value) else Err(IoFailed))
              && events == old(events) + (if built.Ok? then StoredBy(built.value, io) else [])
    {
      hide TailLine, FileBytes, LineSafe, Holdable, Sealed, HashOfTail;
      SealedIsLegible(codec, events);
      HashOfLastEvent(codec, events);
      r := ExtendFile(build, io);
      Extends(build(PreviousOf(events, |events|)), io);
    }

    // The same for a checkpoint.
    method AppendCheckpoint(build: (nat, Option<string>) -> Result<Event, JournalError>, io: Io)
      returns (r: Result<Event, JournalError>)
      requires Valid()
      requires forall n, h :: build(n, h).Ok? ==> Holdable(codec, build(n, h).value)
      requires io.FlushFails? ==> Sealed(codec, io.others)
      modifies this
      ensures Valid()
      ensures var built := build(|old(events)|, PreviousOf(old(events), |old(events)|));
              && r == (if io == OpenFails then Err(IoFailed)
                       else if built.Err? then Err(built.error)
                       else if io == Works then Ok(built.value) else Err(IoFailed))
              && events == old(events) + (if built.Ok? then StoredBy(built.value, io) else [])
    {
      hide TailLine, Lines, FileBytes, LineSafe, Holdable, Sealed, HashOfTail;
      SealedIsLegible(codec, events);
      FileHoldsEvents(codec, events);
      HashOfLastEvent(codec, events);
      r := ExtendFileWithCheckpoint(build, io);
      Extends(build(|events|, PreviousOf(events, |events|)), io);
    }

    // The events follow what was written.
    ghost method Extends(built: Result<Event, JournalError>, io: Io)
      requires LineSafe(codec) && Sealed(codec, events)
      requires built.Ok? ==> Holdable(codec, built.value)
      requires io.FlushFails? ==> Sealed(codec, io.others)
      requires data == if built.Ok? && io != OpenFails then FileBytes(codec, events) + FileBytes(codec, StoredBy(built.value, io))
                       else FileBytes(codec, events)
      modifies this`events
      ensures Valid() && events == old(events) + if built.Ok? then StoredBy(built.value, io) else []
    {
      hide LineSafe, FileBytes, Holdable;
      assert events + [] == events;
      if built.Ok? && io != OpenFails {
        FileBytesAppend(codec, events, StoredBy(built.value, io));
        events := events + StoredBy(built.value, io);
      }
    }

    // Verifying the file is verifying its events.
    lemma FileVerifiesAsEvents(p: Primitives, trusted: Keyring, witnessFile: Option<WitnessFile>)
      requires Valid()
      ensures Verify(p, trusted, Readable(ParseLines(codec, Lines(data))), witnessFile)
              == Verify(p, trusted, Readable(Objects(events)), witnessFile)
    {
      hide Verify, ParseLines, Lines;
      SealedIsLegible(codec, events);
      FileHoldsEvents(codec, events);
    }
  }
}
