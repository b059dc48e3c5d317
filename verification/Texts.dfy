/** The pieces of Go's strings package used by the service. A string is a sequence of Unicode characters. */
module Texts {

  /** unicode.IsSpace. */
  predicate IsSpace(c: char) {
    var n := c as int;
    || 9 <= n <= 13 || n == 0x20 || n == 0x85 || n == 0xA0 || n == 0x1680 || 0x2000 <= n <= 0x200A
    || n == 0x2028 || n == 0x2029 || n == 0x202F || n == 0x205F || n == 0x3000
  }

  function TrimLeft(s: string): string { if |s| > 0 && IsSpace(s[0]) then TrimLeft(s[1..]) else s }

  function TrimRight(s: string): string {
    if |s| > 0 && IsSpace(s[|s| - 1]) then TrimRight(s[..|s| - 1]) else s
  }

  /** strings.TrimSpace. */
  function TrimSpace(s: string): string { TrimRight(TrimLeft(s)) }

  predicate Trimmed(s: string) { |s| > 0 ==> !IsSpace(s[0]) && !IsSpace(s[|s| - 1]) }

  /** strings.Join. */
  function Join(items: seq<string>, sep: string): string {
    if |items| == 0 then "" else if |items| == 1 then items[0] else items[0] + sep + Join(items[1..], sep)
  }

  /** strings.Split and strings.SplitSeq at commas. */
  function SplitCommas(s: string): (r: seq<string>)
    ensures |r| >= 1
  {
    if |s| == 0 then [""]
    else
      var rest := SplitCommas(s[1..]);
      if s[0] == ',' then [""] + rest else [[s[0]] + rest[0]] + rest[1..]
  }

  lemma {:induction false} TrimLeftResult(s: string)
    ensures |TrimLeft(s)| > 0 ==> !IsSpace(TrimLeft(s)[0])
    ensures forall c :: c in TrimLeft(s) ==> c in s
  {
    if |s| > 0 && IsSpace(s[0]) { TrimLeftResult(s[1..]); }
  }

  lemma {:induction false} TrimRightResult(s: string)
    ensures |TrimRight(s)| > 0 ==> !IsSpace(TrimRight(s)[|TrimRight(s)| - 1]) && TrimRight(s)[0] == s[0]
    ensures forall c :: c in TrimRight(s) ==> c in s
  {
    if |s| > 0 && IsSpace(s[|s| - 1]) { TrimRightResult(s[..|s| - 1]); }
  }

  /** What trimming leaves has no space at either end and no new characters; trimming again changes nothing. */
  lemma {:induction false} TrimSpaceResult(s: string)
    ensures Trimmed(TrimSpace(s)) && TrimSpace(TrimSpace(s)) == TrimSpace(s)
    ensures forall c :: c in TrimSpace(s) ==> c in s
  {
    TrimLeftResult(s);
    TrimRightResult(TrimLeft(s));
  }

  lemma {:induction false} TrimmedAwayIff(s: string)
    ensures TrimSpace(s) == "" <==> forall c :: c in s ==> IsSpace(c)
  {
    TrimLeftAwayIff(s);
    if TrimLeft(s) != "" {
      TrimLeftResult(s);
      TrimRightKeeps(TrimLeft(s));
    }
  }

  lemma {:induction false} TrimLeftAwayIff(s: string)
    ensures TrimLeft(s) == "" <==> forall c :: c in s ==> IsSpace(c)
  {
    if |s| > 0 {
      assert s == [s[0]] + s[1..];
      TrimLeftAwayIff(s[1..]);
    }
  }

  lemma {:induction false} TrimRightKeeps(s: string)
    requires |s| > 0 && !IsSpace(s[0])
    ensures TrimRight(s) != ""
  {
    if |s| > 1 && IsSpace(s[|s| - 1]) { TrimRightKeeps(s[..|s| - 1]); }
  }

  predicate AllSpaces(s: string) { forall c :: c in s ==> IsSpace(c) }

  /** Some character is not white space. */
  predicate NotBlank(s: string) { exists c :: c in s && !IsSpace(c) }

  lemma {:induction false} TrimLeftParts(s: string) returns (before: string)
    ensures s == before + TrimLeft(s) && AllSpaces(before)
  {
    if |s| > 0 && IsSpace(s[0]) {
      var rest := TrimLeftParts(s[1..]);
      before := [s[0]] + rest;
    } else {
      before := "";
    }
  }

  lemma {:induction false} TrimRightParts(s: string) returns (after: string)
    ensures s == TrimRight(s) + after && AllSpaces(after)
  {
    if |s| > 0 && IsSpace(s[|s| - 1]) {
      var rest := TrimRightParts(s[..|s| - 1]);
      after := rest + [s[|s| - 1]];
      assert s == s[..|s| - 1] + [s[|s| - 1]];
    } else {
      after := "";
    }
  }

  /** Trimming takes white space away at the ends and nothing else. */
  lemma {:induction false} TrimSpaceParts(s: string) returns (before: string, after: string)
    ensures s == before + TrimSpace(s) + after && AllSpaces(before) && AllSpaces(after)
  {
    before := TrimLeftParts(s);
    after := TrimRightParts(TrimLeft(s));
  }

  lemma {:induction false} SplitCommasAt(a: string, b: string)
    requires ',' !in a
    ensures SplitCommas(a + "," + b) == [a] + SplitCommas(b)
    ensures SplitCommas(a) == [a]
  {
    if |a| == 0 {
      assert a + "," + b == "," + b && ("," + b)[1..] == b;
    } else {
      assert (a + "," + b)[1..] == a[1..] + "," + b;
      SplitCommasAt(a[1..], b);
      assert [a[0]] + a[1..] == a;
    }
  }

  lemma {:induction false} SplitCommasConcat(a: string, b: string)
    ensures SplitCommas(a + "," + b) == SplitCommas(a) + SplitCommas(b)
  {
    if |a| == 0 {
      assert a + "," + b == "," + b && ("," + b)[1..] == b;
    } else {
      assert (a + "," + b)[1..] == a[1..] + "," + b;
      SplitCommasConcat(a[1..], b);
    }
  }

  lemma {:induction false} SplitCommasCommaFree(s: string)
    ensures forall item :: item in SplitCommas(s) ==> ',' !in item
  {
    if |s| > 0 { SplitCommasCommaFree(s[1..]); }
  }
}
