/** White space in UTF-8 text kept as bytes, one character each. */
module Utf8 {
  import opened Texts
  import opened Models

  /** The UTF-8 encoding of a character (section 3 of RFC 3629). */
  function EncodeChar(c: char): string {
    var n := c as int;
    if n < 0x80 then [c]
    else if n < 0x800 then [(0xC0 + n / 0x40) as char, (0x80 + n % 0x40) as char]
    else if n < 0x1_0000 then
      [(0xE0 + n / 0x1000) as char, (0x80 + n / 0x40 % 0x40) as char, (0x80 + n % 0x40) as char]
    else
      [(0xF0 + n / 0x4_0000) as char, (0x80 + n / 0x1000 % 0x40) as char, (0x80 + n / 0x40 % 0x40) as char,
       (0x80 + n % 0x40) as char]
  }

  function Encoded(s: string): string { if |s| == 0 then "" else EncodeChar(s[0]) + Encoded(s[1..]) }

  /** The bytes begin with the encoding of a white-space character. */
  ghost predicate StartsWithSpace(b: string, c: char) { IsSpace(c) && EncodeChar(c) <= b }

  lemma {:induction false} SpaceRead(b: string, c: char)
    requires StartsWithSpace(b, c)
    ensures LeadingSpaceBytes(b) == |EncodeChar(c)|
  {
    assert forall i :: 0 <= i < |EncodeChar(c)| ==> b[i] == EncodeChar(c)[i];
  }

  lemma {:induction false} ReadIsSpace(b: string) returns (c: char)
    requires LeadingSpaceBytes(b) > 0
    ensures StartsWithSpace(b, c) && LeadingSpaceBytes(b) == |EncodeChar(c)|
  {
    var b0 := b[0] as int;
    if LeadingSpaceBytes(b) == 1 {
      c := b[0];
    } else if LeadingSpaceBytes(b) == 2 {
      c := b[1];
    } else {
      c := ((b0 - 0xE0) * 0x1000 + (b[1] as int - 0x80) * 0x40 + (b[2] as int - 0x80)) as char;
    }
  }

  /** The bytes are blank exactly when they encode white space only. */
  lemma {:induction false} BlankBytesIff(b: string)
    ensures BlankBytes(b) <==> exists s :: AllSpaces(s) && Encoded(s) == b
  {
    if BlankBytes(b) {
      var s := SpacesOf(b);
    }
    if s :| AllSpaces(s) && Encoded(s) == b { SpacesAreBlank(s); }
  }

  lemma {:induction false} SpacesOf(b: string) returns (s: string)
    requires BlankBytes(b)
    ensures AllSpaces(s) && Encoded(s) == b
    decreases |b|
  {
    if |b| == 0 {
      s := "";
    } else {
      var c := ReadIsSpace(b);
      var rest := SpacesOf(b[LeadingSpaceBytes(b)..]);
      s := [c] + rest;
      assert b == b[..|EncodeChar(c)|] + b[|EncodeChar(c)|..];
    }
  }

  lemma {:induction false} SpacesAreBlank(s: string)
    requires AllSpaces(s)
    ensures BlankBytes(Encoded(s))
  {
    if |s| > 0 {
      var b := Encoded(s);
      SpaceRead(b, s[0]);
      assert b[|EncodeChar(s[0])|..] == Encoded(s[1..]);
      SpacesAreBlank(s[1..]);
    }
  }
}
