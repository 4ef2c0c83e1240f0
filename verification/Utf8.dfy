// UTF-8 (sections 3 and 4 of RFC 3629): the encoder, a strict decoder, and
// the round trip.
module Utf8 {
  import opened Wrappers
  import opened TailReader

  function EncodeChar(c: char): (b: Bytes)
    ensures b != []
  {
    var n := c as int;
    if n < 0x80 then [n]
    else if n < 0x800 then [0xC0 + n / 0x40, 0x80 + n % 0x40]
    else if n < 0x10000 then [0xE0 + n / 0x1000, 0x80 + n / 0x40 % 0x40, 0x80 + n % 0x40]
    else [0xF0 + n / 0x40000, 0x80 + n / 0x1000 % 0x40, 0x80 + n / 0x40 % 0x40, 0x80 + n % 0x40]
  }

  function Encode(s: string): Bytes {
    if s == "" then [] else EncodeChar(s[0]) + Encode(s[1..])
  }

  predicate IsTail(b: byte) {
    0x80 <= b < 0xC0
  }

  // A character and the number of bytes it takes.
  datatype First = Bad | First(c: char, size: nat)

  // Overlong forms, surrogates and numbers beyond the last character are bad.
  function FirstOf(n: int, least: int, size: nat): First {
    if n >= least && (0 <= n < 0xD800 || 0xE000 <= n < 0x110000) then First(n as char, size) else Bad
  }

  // The six bits of a byte that continues a character.
  function Low(b: byte): int {
    b as int - 0x80
  }

  function DecodeFirst(b: Bytes): (r: First)
    requires b != []
    ensures r.First? ==> 0 < r.size <= |b|
  {
    var lead := b[0] as int;
    if lead < 0x80 then First(lead as char, 1)
    else if 0xC0 <= lead < 0xE0 && |b| >= 2 && IsTail(b[1]) then
      FirstOf((lead - 0xC0) * 0x40 + Low(b[1]), 0x80, 2)
    else if 0xE0 <= lead < 0xF0 && |b| >= 3 && IsTail(b[1]) && IsTail(b[2]) then
      FirstOf((lead - 0xE0) * 0x1000 + Low(b[1]) * 0x40 + Low(b[2]), 0x800, 3)
    else if 0xF0 <= lead < 0xF8 && |b| >= 4 && IsTail(b[1]) && IsTail(b[2]) && IsTail(b[3]) then
      FirstOf((lead - 0xF0) * 0x40000 + Low(b[1]) * 0x1000 + Low(b[2]) * 0x40 + Low(b[3]), 0x10000, 4)
    else Bad
  }

  function Decode(b: Bytes): Option<string>
    decreases |b|
  {
    if b == [] then Some("")
    else
      match DecodeFirst(b)
      case Bad => None
      case First(c, size) =>
        match Decode(b[size..])
        case None => None
        case Some(s) => Some([c] + s)
  }

  // ----- the round trip -----

  lemma SixBits(n: nat)
    ensures n == n / 0x40 * 0x40 + n % 0x40
    ensures n / 0x40 == n / 0x1000 * 0x40 + n / 0x40 % 0x40
    ensures n / 0x1000 == n / 0x40000 * 0x40 + n / 0x1000 % 0x40
  {
  }

  lemma CharDecodes(c: char, rest: Bytes)
    ensures DecodeFirst(EncodeChar(c) + rest) == First(c, |EncodeChar(c)|)
  {
    var n := c as int;
    var e := EncodeChar(c);
    var b := e + rest;
    assert forall i :: 0 <= i < |e| ==> b[i] == e[i];
    SixBits(n);
    assert FirstOf(n, 0, |e|) == First(c, |e|);
    if n < 0x80 {
    } else if n < 0x800 {
      assert DecodeFirst(b) == FirstOf(n, 0x80, 2);
    } else if n < 0x10000 {
      assert (n / 0x1000) * 0x1000 + (n / 0x40 % 0x40) * 0x40 + n % 0x40 == n;
      assert DecodeFirst(b) == FirstOf(n, 0x800, 3);
    } else {
      assert (n / 0x40000) * 0x40000 + (n / 0x1000 % 0x40) * 0x1000 + (n / 0x40 % 0x40) * 0x40 + n % 0x40 == n;
      assert DecodeFirst(b) == FirstOf(n, 0x10000, 4);
    }
  }

  // Decoding encoded text gives the text back.
  lemma {:induction false} EncodedDecodes(s: string)
    ensures Decode(Encode(s)) == Some(s)
    decreases |s|
  {
    hide EncodeChar, DecodeFirst;
    if s != "" {
      var first := EncodeChar(s[0]);
      CharDecodes(s[0], Encode(s[1..]));
      EncodedDecodes(s[1..]);
      assert Encode(s)[|first|..] == Encode(s[1..]);
      assert [s[0]] + s[1..] == s;
    }
  }

  // A byte below 0x80 is the character of that number, so a line feed byte
  // comes from a line feed character only.
  lemma CharBytes(c: char)
    ensures forall b :: b in EncodeChar(c) ==> b >= 0x80 || b == c as int
    ensures c as int < 0x80 ==> EncodeChar(c) == [c as int]
  {
  }

  lemma {:induction false} NoLineFeedBytes(s: string)
    requires '\n' !in s
    ensures LF !in Encode(s)
    decreases |s|
  {
    hide EncodeChar;
    if s != "" {
      CharBytes(s[0]);
      NoLineFeedBytes(s[1..]);
    }
  }

  lemma {:induction false} EncodeAppends(a: string, b: string)
    ensures Encode(a + b) == Encode(a) + Encode(b)
    decreases |a|
  {
    hide EncodeChar;
    if a == "" {
      assert a + b == b;
    } else {
      assert (a + b)[0] == a[0] && (a + b)[1..] == a[1..] + b;
      EncodeAppends(a[1..], b);
    }
  }
}
