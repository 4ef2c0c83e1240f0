// The assumptions of the project hold together: here are primitives and a line
// format that meet them.
module Consistency {
  import opened Wrappers
  import opened Json
  import opened JsonText
  import opened JsonTextLaws
  import opened Evidence
  import opened EventText
  import opened EndToEnd
  import Utf8
  import V = Verification
  import F = FileJournal
  import TailReader

  function KeyName(key: Key): string {
    Digits(key.n)
  }

  // A toy digest, which is the text itself, and toy signatures, which name the key.
  ghost function Toy(): Primitives {
    Primitives(
      (e: Event) => TextOf(e),
      key => KeyName(key),
      (key, digest) => KeyName(key) + ":" + digest,
      (key, digest, signature) => signature == KeyName(key) + ":" + digest,
      (j: Json) => if j.JStr? then j.s else "",
      j => None,
      (n, j) => false)
  }

  ghost function ToyLine(h: Numbers, line: TailReader.Bytes): V.Line {
    match Utf8.Decode(line)
    case None => V.NotJson
    case Some(s) =>
      match F.ParseText(h, s)
      case None => V.NotJson
      case Some(j) =>
        if !j.JObj? then V.NotObject
        else if forall i :: 0 <= i < |j.fields| ==> Proper(j.fields[i].1) then V.Object(EventOf(j.fields))
        else V.NotJson
  }

  lemma AssumptionsHoldTogether(h: Numbers) returns (p: Primitives, codec: F.Codec)
    ensures Documented(p) && IdealDigest(p)
    ensures codec.numbers == h && F.CanonicalCodec(codec) && F.LineSafe(codec)
  {
    hide TextOf, Digits, Utf8.Encode, Utf8.Decode, F.ParseText, F.LineSafe;
    p := Toy();
    forall a, b | p.digest(a) == p.digest(b)
      ensures a == b
    {
      TextDeterminesEvent(a, b);
    }
    forall a, b | p.keyId(a) == p.keyId(b)
      ensures a == b
    {
      DigitsDecode(a.n);
      DigitsDecode(b.n);
    }
    codec := F.Codec(h, (e: Event) => Utf8.Encode(TextOf(e)), line => ToyLine(h, line));
    F.CanonicalCodecIsLineSafe(codec);
  }
}
