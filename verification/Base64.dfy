/** Standard base64 (section 4 of RFC 4648) as Go's base64.StdEncoding encodes and decodes it. */
module Base64 {
  import opened Numbers

  /** One byte of a Go string or slice. */
  type Octet = c: char | (c as int) < 256

  type Octets = seq<Octet>

  function Letter(v: int): (c: char)
    requires 0 <= v < 64
    ensures Value(c) == Some(v)
  {
    if v < 26 then (v + 65) as char
    else if v < 52 then (v - 26 + 97) as char
    else if v < 62 then (v - 52 + 48) as char
    else if v == 62 then '+' else '/'
  }

  function Value(c: char): (v: Option<int>)
    ensures v.Some? ==> 0 <= v.value < 64
  {
    if 'A' <= c <= 'Z' then Some(c as int - 65)
    else if 'a' <= c <= 'z' then Some(c as int - 97 + 26)
    else if '0' <= c <= '9' then Some(c as int - 48 + 52)
    else if c == '+' then Some(62) else if c == '/' then Some(63) else None
  }

  predicate InAlphabet(c: char) { Value(c).Some? || c == '=' }

  predicate AllInAlphabet(s: string) { forall i :: 0 <= i < |s| ==> InAlphabet(s[i]) }

  function Sextets3(a: int, b: int, c: int): (q: string)
    requires 0 <= a < 256 && 0 <= b < 256 && 0 <= c < 256
    ensures |q| == 4 && AllInAlphabet(q)
  {
    [Letter(a / 4), Letter(a % 4 * 16 + b / 16), Letter(b % 16 * 4 + c / 64), Letter(c % 64)]
  }

  function Encode(b: Octets): (s: string)
    ensures AllInAlphabet(s)
  {
    if |b| == 0 then ""
    else if |b| == 1 then [Letter(b[0] as int / 4), Letter(b[0] as int % 4 * 16), '=', '=']
    else if |b| == 2 then
      [Letter(b[0] as int / 4), Letter(b[0] as int % 4 * 16 + b[1] as int / 16), Letter(b[1] as int % 16 * 4), '=']
    else Sextets3(b[0] as int, b[1] as int, b[2] as int) + Encode(b[3..])
  }

  /** The bytes packed into sextets: 6 + 2 bits, 4 + 4 bits and 2 + 6 bits. */
  function High(v0: int, v1: int): Octet
    requires 0 <= v0 < 64 && 0 <= v1 < 64
  {
    (v0 * 4 + v1 / 16) as char
  }

  function Middle(v1: int, v2: int): Octet
    requires 0 <= v1 < 64 && 0 <= v2 < 64
  {
    (v1 % 16 * 16 + v2 / 4) as char
  }

  function Low(v2: int, v3: int): Octet
    requires 0 <= v2 < 64 && 0 <= v3 < 64
  {
    (v2 % 4 * 64 + v3) as char
  }

  /** Decodes four-character quanta; padding may only end the text, and surplus bits before it are ignored. */
  function DecodeQuanta(s: string): Option<Octets> {
    if |s| == 0 then Some([])
    else if |s| < 4 then None
    else
      match (Value(s[0]), Value(s[1]), Value(s[2]), Value(s[3]))
      case (Some(v0), Some(v1), Some(v2), Some(v3)) =>
        (match DecodeQuanta(s[4..])
         case None => None
         case Some(rest) => Some([High(v0, v1), Middle(v1, v2), Low(v2, v3)] + rest))
      case (Some(v0), Some(v1), Some(v2), None) =>
        if s[3..] == "=" then Some([High(v0, v1), Middle(v1, v2)]) else None
      case (Some(v0), Some(v1), None, None) =>
        if s[2..] == "==" then Some([High(v0, v1)]) else None
      case _ => None
  }

  /** The text without line breaks. */
  function Unbroken(s: string): string {
    if |s| == 0 then "" else (if s[0] == '\r' || s[0] == '\n' then "" else [s[0]]) + Unbroken(s[1..])
  }

  /** base64.StdEncoding.DecodeString, which skips CR and LF anywhere. */
  function DecodeString(s: string): Option<Octets> { DecodeQuanta(Unbroken(s)) }

  // ---------------------------------------------------------------- round trip

  lemma {:induction false} Unpack(a: Octet, b: Octet, c: Octet)
    ensures High(a as int / 4, a as int % 4 * 16 + b as int / 16) == a
    ensures Middle(a as int % 4 * 16 + b as int / 16, b as int % 16 * 4 + c as int / 64) == b
    ensures Low(b as int % 16 * 4 + c as int / 64, c as int % 64) == c
    ensures High(a as int / 4, a as int % 4 * 16) == a
    ensures Middle(a as int % 4 * 16 + b as int / 16, b as int % 16 * 4) == b
  {
  }

  lemma {:induction false} DecodePadded(v0: int, v1: int, v2: int)
    requires 0 <= v0 < 64 && 0 <= v1 < 64 && 0 <= v2 < 64
    ensures DecodeQuanta([Letter(v0), Letter(v1), Letter(v2), '=']) == Some([High(v0, v1), Middle(v1, v2)])
    ensures DecodeQuanta([Letter(v0), Letter(v1), '=', '=']) == Some([High(v0, v1)])
  {
    assert Value('=') == None;
    assert [Letter(v0), Letter(v1), Letter(v2), '='][3..] == "=";
    assert [Letter(v0), Letter(v1), '=', '='][2..] == "==";
  }

  lemma {:induction false} DecodeFull(a: Octet, b: Octet, c: Octet, rest: string)
    ensures var q := Sextets3(a as int, b as int, c as int);
            DecodeQuanta(q + rest)
            == match DecodeQuanta(rest) case None => None case Some(tail) => Some([a, b, c] + tail)
  {
    var s := Sextets3(a as int, b as int, c as int) + rest;
    assert s[4..] == rest;
    Unpack(a, b, c);
  }

  lemma {:induction false} OneByteRoundTrip(a: Octet)
    ensures DecodeQuanta(Encode([a])) == Some([a])
  {
    var v0, v1 := a as int / 4, a as int % 4 * 16;
    assert Encode([a]) == [Letter(v0), Letter(v1), '=', '='];
    DecodePadded(v0, v1, 0);
    Unpack(a, a, a);
  }

  lemma {:induction false} TwoByteRoundTrip(a: Octet, b: Octet)
    ensures DecodeQuanta(Encode([a, b])) == Some([a, b])
  {
    var v0, v1, v2 := a as int / 4, a as int % 4 * 16 + b as int / 16, b as int % 16 * 4;
    assert Encode([a, b]) == [Letter(v0), Letter(v1), Letter(v2), '='];
    DecodePadded(v0, v1, v2);
    Unpack(a, b, a);
  }

  lemma {:induction false} ShortRoundTrip(b: Octets)
    requires |b| < 3
    ensures DecodeQuanta(Encode(b)) == Some(b)
  {
    if |b| == 1 {
      OneByteRoundTrip(b[0]);
      assert b == [b[0]];
    } else if |b| == 2 {
      TwoByteRoundTrip(b[0], b[1]);
      assert b == [b[0], b[1]];
    }
  }

  lemma {:induction false} FirstQuantum(b: Octets)
    requires |b| >= 3
    ensures Encode(b) == Sextets3(b[0] as int, b[1] as int, b[2] as int) + Encode(b[3..])
  {
  }

  lemma {:induction false} QuantaRoundTrip(b: Octets)
    ensures DecodeQuanta(Encode(b)) == Some(b)
  {
    if |b| < 3 {
      ShortRoundTrip(b);
    } else {
      FirstQuantum(b);
      QuantaRoundTrip(b[3..]);
      DecodeFull(b[0], b[1], b[2], Encode(b[3..]));
      assert b == [b[0], b[1], b[2]] + b[3..];
    }
  }

  lemma {:induction false} UnbrokenConcat(s: string, t: string)
    ensures Unbroken(s + t) == Unbroken(s) + Unbroken(t)
  {
    if |s| == 0 {
      assert s + t == t;
    } else {
      assert (s + t)[1..] == s[1..] + t;
      UnbrokenConcat(s[1..], t);
    }
  }

  /** Carriage returns and line feeds are skipped, and nothing else. */
  lemma {:induction false} UnbrokenEach(s: string, c: char, t: string)
    ensures Unbroken(s + [c] + t) == Unbroken(s) + (if c in "\r\n" then "" else [c]) + Unbroken(t)
  {
    UnbrokenConcat(s + [c], t);
    UnbrokenConcat(s, [c]);
    assert Unbroken([c]) == (if c in "\r\n" then "" else [c]) + Unbroken([c][1..]);
  }

  lemma {:induction false} UnbrokenAlphabet(s: string)
    requires AllInAlphabet(s)
    ensures Unbroken(s) == s
  {
    if |s| > 0 {
      assert InAlphabet(s[0]);
      forall i | 0 <= i < |s[1..]| ensures InAlphabet(s[1..][i]) { assert InAlphabet(s[i + 1]); }
      UnbrokenAlphabet(s[1..]);
    }
  }

  /** Decoding an encoding gives the bytes back, with or without line breaks in it. */
  lemma {:induction false} EncodeRoundTrip(b: Octets)
    ensures DecodeString(Encode(b)) == Some(b)
    ensures forall s: string :: Unbroken(s) == Encode(b) ==> DecodeString(s) == Some(b)
  {
    UnbrokenAlphabet(Encode(b));
    QuantaRoundTrip(b);
  }

  // ---------------------------------------------------------------- RFC 4648

  /** Table 1 of RFC 4648: A to Z, a to z, 0 to 9, + and /, numbered in this order. */
  lemma {:induction false} AlphabetIsStandard()
    ensures Value('A') == Some(0) && Value('Z') == Some(25) && Value('a') == Some(26) && Value('z') == Some(51)
    ensures Value('0') == Some(52) && Value('9') == Some(61) && Value('+') == Some(62) && Value('/') == Some(63)
    ensures forall c, d :: ('A' <= c < d <= 'Z' || 'a' <= c < d <= 'z' || '0' <= c < d <= '9') ==>
              Value(c).Some? && Value(d).Some? && Value(d).value - Value(c).value == d as int - c as int
  {
  }

  /** The number that four characters of the alphabet stand for. */
  function Quantum(q: string): Option<int>
    requires |q| == 4
  {
    match (Value(q[0]), Value(q[1]), Value(q[2]), Value(q[3]))
    case (Some(v0), Some(v1), Some(v2), Some(v3)) => Some(v0 * 0x4_0000 + v1 * 0x1000 + v2 * 0x40 + v3)
    case _ => None
  }

  /** The number that three bytes stand for. */
  function Triple(b0: Octet, b1: Octet, b2: Octet): int {
    b0 as int * 0x1_0000 + b1 as int * 0x100 + b2 as int
  }

  /** Groups of three bytes are encoded one after the other. */
  lemma {:induction false} EncodeConcat(a: Octets, b: Octets)
    requires |a| % 3 == 0
    ensures Encode(a + b) == Encode(a) + Encode(b)
  {
    if |a| == 0 {
      assert a + b == b;
    } else {
      EncodeConcat(a[3..], b);
      FirstOfBoth(a, b);
    }
  }

  lemma {:induction false} FirstOfBoth(a: Octets, b: Octets)
    requires |a| >= 3 && Encode(a[3..] + b) == Encode(a[3..]) + Encode(b)
    ensures Encode(a + b) == Encode(a) + Encode(b)
  {
    FirstQuantum(a);
    FirstQuantumOf(a, b);
    Associate(Sextets3(a[0] as int, a[1] as int, a[2] as int), Encode(a[3..]), Encode(b));
  }

  lemma {:induction false} FirstQuantumOf(a: Octets, b: Octets)
    requires |a| >= 3
    ensures Encode(a + b) == Sextets3(a[0] as int, a[1] as int, a[2] as int) + Encode(a[3..] + b)
  {
    FirstQuantum(a + b);
    assert (a + b)[3..] == a[3..] + b;
  }

  lemma {:induction false} Associate(s: string, t: string, u: string)
    ensures s + (t + u) == (s + t) + u
  {
  }

  /** Three bytes are encoded as the four characters that stand for the same number. */
  lemma {:induction false} EncodesGroup(a: Octet, b: Octet, c: Octet)
    ensures |Encode([a, b, c])| == 4 && Quantum(Encode([a, b, c])) == Some(Triple(a, b, c))
  {
    ThreeBytes(a, b, c);
  }

  /** One or two bytes, left over at the end, are encoded as if zeros followed, but with padding in place of the
      characters that hold only such zeros. */
  lemma {:induction false} EncodesLeftOver(a: Octet, b: Octet)
    ensures Encode([a, b]) == Encode([a, b, '\0'])[..3] + "="
    ensures Encode([a]) == Encode([a, '\0', '\0'])[..2] + "=="
  {
    ThreeBytes(a, b, '\0');
    ThreeBytes(a, '\0', '\0');
  }

  lemma {:induction false} ThreeBytes(a: Octet, b: Octet, c: Octet)
    ensures Encode([a, b, c]) == Sextets3(a as int, b as int, c as int)
  {
    assert [a, b, c][3..] == [];
  }

  /** Characters of the alphabet, then one or two of padding or none, a multiple of four in all. */
  ghost predicate WellPadded(s: string, padding: nat) {
    && padding <= 2 && padding <= |s| && |s| % 4 == 0
    && (forall i :: 0 <= i < |s| - padding ==> Value(s[i]).Some?)
    && (forall i :: |s| - padding <= i < |s| ==> s[i] == '=')
  }

  ghost predicate IsPadded(s: string) { exists padding: nat :: padding <= 2 && WellPadded(s, padding) }

  lemma {:induction false} DecodedIsPadded(s: string) returns (padding: nat)
    requires DecodeQuanta(s).Some?
    ensures WellPadded(s, padding)
  {
    padding := 0;
    if |s| > 0 {
      if Value(s[3]).Some? {
        padding := DecodedIsPadded(s[4..]);
        QuantumBefore(s, padding);
      } else if Value(s[2]).Some? {
        padding := 1;
        assert s[3..] == "=" && s[3..][0] == s[3];
      } else {
        padding := 2;
        assert s[2..] == "==" && s[2..][0] == s[2] && s[2..][1] == s[3];
      }
    }
  }

  lemma {:induction false} QuantumBefore(s: string, padding: nat)
    requires |s| >= 4 && (forall i :: 0 <= i < 4 ==> Value(s[i]).Some?) && WellPadded(s[4..], padding)
    ensures WellPadded(s, padding)
  {
    assert forall i :: 4 <= i < |s| ==> s[i] == s[4..][i - 4];
  }

  lemma {:induction false} PaddedDecodes(s: string, padding: nat)
    requires WellPadded(s, padding)
    ensures DecodeQuanta(s).Some?
  {
    if |s| > 4 || (|s| == 4 && padding == 0) {
      PaddedDecodes(s[4..], padding);
    } else if |s| == 4 {
      assert Value('=') == None;
      assert s[3..] == [s[3]] && s[2..] == [s[2], s[3]];
    }
  }

  /** A text decodes exactly when, but for its line breaks, it is well padded. */
  lemma {:induction false} DecodesIff(s: string)
    ensures DecodeString(s).Some? <==> IsPadded(Unbroken(s))
  {
    var text := Unbroken(s);
    if DecodeQuanta(text).Some? {
      var padding := DecodedIsPadded(text);
    } else if IsPadded(text) {
      var padding :| 0 <= padding <= 2 && WellPadded(text, padding);
      PaddedDecodes(text, padding);
    }
  }
}
