/** The MIME reader gets back what the SMTP message writer put in. */
module MimeRoundTrip {
  import opened Numbers
  import opened Texts
  import opened Models
  import opened Base64
  import opened Recipients
  import opened MimeNames
  import opened MimeReader
  import opened Multipart

  // ---------------------------------------------------------------- lines

  lemma {:induction false} LinesHaveNoBreak(s: string)
    ensures forall i :: 0 <= i < |SplitLines(s)| ==> NoBreak(SplitLines(s)[i])
  {
    assert |s| > 1 && s[0] == '\r' && s[1] == '\n' ==> CRLF <= s;
    if |s| > 0 && CRLF <= s {
      LinesHaveNoBreak(s[2..]);
    } else if |s| > 0 {
      var rest := SplitLines(s[1..]);
      LinesHaveNoBreak(s[1..]);
      assert NoBreak(rest[0]) && SplitLines(s)[0] == [s[0]] + rest[0];
      assert |rest[0]| > 0 ==> |s| > 1 && rest[0][0] == s[1];
    }
  }

  lemma {:induction false} SplitLine(line: string, rest: string)
    requires NoBreak(line)
    ensures SplitLines(line + CRLF + rest) == [line] + SplitLines(rest)
  {
    var s := line + CRLF + rest;
    if |line| == 0 {
      assert CRLF <= s && s[2..] == rest;
    } else {
      assert s[0] == line[0] && (|line| > 1 ==> s[1] == line[1]) && (|line| == 1 ==> s[1] == '\r');
      assert s[1..] == line[1..] + CRLF + rest;
      SplitLine(line[1..], rest);
      assert [line[0]] + line[1..] == line;
    }
  }

  /** The first line of a text ends at the first CRLF, or before. */
  lemma {:induction false} FirstLinePrefix(line: string, rest: string)
    ensures SplitLines(line + CRLF + rest)[0] <= line
  {
    var s := line + CRLF + rest;
    if |line| == 0 {
      assert CRLF <= s;
    } else if !(CRLF <= s) {
      assert s[1..] == line[1..] + CRLF + rest;
      FirstLinePrefix(line[1..], rest);
    }
  }

  lemma {:induction false} SplitPrefixed(prefix: string, s: string)
    requires '\r' !in prefix
    ensures SplitLines(prefix + s) == [prefix + SplitLines(s)[0]] + SplitLines(s)[1..]
  {
    var lines := SplitLines(s);
    if |prefix| == 0 {
      assert prefix + s == s && prefix + lines[0] == lines[0];
      assert lines == [lines[0]] + lines[1..];
    } else {
      assert (prefix + s)[0] == prefix[0] != '\r' && !(CRLF <= prefix + s);
      assert (prefix + s)[1..] == prefix[1..] + s;
      SplitPrefixed(prefix[1..], s);
      assert [prefix[0]] + (prefix[1..] + lines[0]) == prefix + lines[0];
    }
  }

  lemma {:induction false} SplitCrlf(lines: seq<string>, rest: string)
    requires forall i :: 0 <= i < |lines| ==> NoBreak(lines[i])
    ensures SplitLines(Crlf(lines) + rest) == lines + SplitLines(rest)
  {
    if |lines| == 0 {
      assert Crlf(lines) + rest == rest;
    } else {
      var tail := Crlf(lines[1..]) + rest;
      SplitFirst(lines, rest);
      SplitLine(lines[0], tail);
      SplitCrlf(lines[1..], rest);
      Regroup([lines[0]], lines[1..], SplitLines(rest));
      HeadAndTail(lines);
    }
  }

  lemma {:induction false} SplitFirst(lines: seq<string>, rest: string)
    requires |lines| > 0
    ensures Crlf(lines) + rest == lines[0] + CRLF + (Crlf(lines[1..]) + rest)
  {
    Regroup(lines[0] + CRLF, Crlf(lines[1..]), rest);
  }

  lemma {:induction false} HeadAndTail<T>(s: seq<T>)
    requires |s| > 0
    ensures [s[0]] + s[1..] == s
  {
  }

  lemma {:induction false} Regroup<T>(a: seq<T>, b: seq<T>, c: seq<T>)
    ensures (a + b) + c == a + (b + c)
  {
  }

  lemma {:induction false} JoinSplit(s: string)
    ensures Join(SplitLines(s), CRLF) == s
  {
    if |s| > 0 && CRLF <= s {
      JoinSplit(s[2..]);
      assert SplitLines(s)[1..] == SplitLines(s[2..]);
      assert s == CRLF + s[2..];
    } else if |s| > 0 {
      var rest := SplitLines(s[1..]);
      JoinSplit(s[1..]);
      assert SplitLines(s)[1..] == rest[1..];
      assert s == [s[0]] + s[1..];
    }
  }

  // ---------------------------------------------------------------- base64 lines

  function Flatten(lines: seq<string>): string { if |lines| == 0 then "" else lines[0] + Flatten(lines[1..]) }

  /** Encoded lines hold the whole encoding, are never blank, and are at most 76 characters of the alphabet long; all
      but the last are exactly 76. */
  lemma {:induction false} Base64LinesFit(encoded: string)
    requires AllInAlphabet(encoded)
    ensures var lines := Base64Lines(encoded);
            && Flatten(lines) == encoded
            && (forall i :: 0 <= i < |lines| ==> 0 < |lines[i]| <= 76 && AllInAlphabet(lines[i]))
            && (forall i :: 0 <= i < |lines| - 1 ==> |lines[i]| == 76)
  {
    if |encoded| > LINE_LENGTH {
      var first, rest := encoded[..LINE_LENGTH], encoded[LINE_LENGTH..];
      assert AllInAlphabet(first);
      forall i | 0 <= i < |rest| ensures InAlphabet(rest[i]) { assert InAlphabet(encoded[LINE_LENGTH + i]); }
      Base64LinesFit(rest);
      assert encoded == first + rest;
    } else if |encoded| > 0 {
      assert Base64Lines(encoded)[1..] == [];
    }
  }

  lemma {:induction false} AlphabetHasNoHyphen(line: string)
    requires AllInAlphabet(line)
    ensures NoBreak(line) && forall boundary :: !IsDelimiter(line, boundary)
  {
    forall boundary ensures !IsDelimiter(line, boundary) {
      assert ("--" + boundary)[0] == '-';
      assert |line| > 0 ==> InAlphabet(line[0]);
    }
    forall i | 0 <= i < |line| ensures line[i] != '\r' { assert InAlphabet(line[i]); }
  }

  /** The encoded content ends with a blank line, and none of its lines can be taken for a delimiter, whatever the
      boundary. */
  lemma {:induction false} ContentLinesFit(bytes: Octets)
    ensures var lines := ContentLines(bytes);
            && lines[|lines| - 1] == "" && Flatten(lines[..|lines| - 1]) == Encode(bytes)
            && forall i :: 0 <= i < |lines| ==> NoBreak(lines[i]) && forall boundary :: !IsDelimiter(lines[i], boundary)
  {
    var lines := ContentLines(bytes);
    assert lines[..|lines| - 1] == Base64Lines(Encode(bytes));
    Base64LinesFit(Encode(bytes));
    forall i | 0 <= i < |lines| ensures NoBreak(lines[i]) && forall boundary :: !IsDelimiter(lines[i], boundary) {
      AlphabetHasNoHyphen(lines[i]);
    }
  }

  lemma {:induction false} UnbrokenJoin(lines: seq<string>)
    requires forall i :: 0 <= i < |lines| ==> AllInAlphabet(lines[i])
    ensures Unbroken(Join(lines, CRLF)) == Flatten(lines)
  {
    if |lines| == 1 {
      UnbrokenAlphabet(lines[0]);
      assert Flatten(lines[1..]) == "";
    } else if |lines| > 1 {
      var rest := Join(lines[1..], CRLF);
      UnbrokenJoin(lines[1..]);
      UnbrokenAlphabet(lines[0]);
      UnbrokenConcat(lines[0], CRLF + rest);
      UnbrokenConcat(CRLF, rest);
      assert lines[0] + CRLF + rest == lines[0] + (CRLF + rest);
      assert Unbroken(CRLF) == "";
    }
  }

  lemma {:induction false} FlattenBlankEnd(lines: seq<string>)
    ensures Flatten(lines + [""]) == Flatten(lines)
  {
    if |lines| == 0 {
      assert [""][1..] == [];
    } else {
      assert (lines + [""])[1..] == lines[1..] + [""];
      FlattenBlankEnd(lines[1..]);
    }
  }

  /** The content of a part decodes to the bytes it was written from. */
  lemma {:induction false} ContentRoundTrip(bytes: Octets)
    ensures DecodeString(Join(ContentLines(bytes), CRLF)) == Some(bytes)
  {
    var lines := Base64Lines(Encode(bytes));
    Base64LinesFit(Encode(bytes));
    UnbrokenJoin(lines + [""]);
    FlattenBlankEnd(lines);
    EncodeRoundTrip(bytes);
    UnbrokenAlphabet(Encode(bytes));
  }

  // ---------------------------------------------------------------- file names

  predicate Plain(name: string) { '\"' !in name && '\\' !in name }

  lemma {:induction false} UnquotePlain(name: string)
    requires Plain(name)
    ensures Unquote(name + "\"") == Some(name)
  {
    var s := name + "\"";
    if |name| > 0 {
      assert s[0] == name[0] && s[1..] == name[1..] + "\"";
      UnquotePlain(name[1..]);
      assert [name[0]] + name[1..] == name;
    }
  }

  /** Reading a quoted string loses its closing quote and every backslash. */
  lemma {:induction false} UnquoteLength(s: string)
    ensures match Unquote(s) case None => true
            case Some(r) => |r| < |s| && (|r| + 1 == |s| ==> s == r + "\"" && Plain(r))
    decreases |s|
  {
    if |s| > 0 && s[0] != '\"' {
      if s[0] == '\\' {
        if |s| > 1 { UnquoteLength(s[2..]); }
      } else {
        UnquoteLength(s[1..]);
        if Unquote(s).Some? {
          var r := Unquote(s[1..]).value;
          if |r| + 1 == |s[1..]| { assert s == [s[0]] + s[1..] == ([s[0]] + r) + "\""; }
        }
      }
    }
  }

  // ---------------------------------------------------------------- one part

  predicate Clean(c: Content) { NoBreak(c.contentType) && NoBreak(c.name) && Plain(c.name) }

  function HtmlPart(body: Octets): Part { Part(Some(HTML), None, Some(body)) }

  function PartOf(c: Content): Part { Part(Some(c.contentType), Some(c.name), Some(c.bytes)) }

  function PartsOf(contents: seq<Content>): seq<Part> {
    if |contents| == 0 then [] else [PartOf(contents[0])] + PartsOf(contents[1..])
  }

  predicate AllClean(contents: seq<Content>) { forall i :: 0 <= i < |contents| ==> Clean(contents[i]) }

  lemma {:induction false} NoBreakPrefixed(prefix: string, s: string)
    requires '\r' !in prefix && NoBreak(s)
    ensures NoBreak(prefix + s)
  {
  }

  lemma {:induction false} HeadersReadBack(c: Content)
    requires Clean(c)
    ensures var headers := AttachmentHeaders(c);
            && Field(headers, CONTENT_TYPE) == Some(c.contentType) && Field(headers, ENCODING) == Some("base64")
            && Filename(headers) == Some(c.name)
  {
    var headers := AttachmentHeaders(c);
    assert headers[0][|CONTENT_TYPE|..] == c.contentType && headers[0][8] == 'T' && ENCODING[8] == 'T'
      && ENCODING[9] == 'r' && headers[0][9] == 'y';
    assert DISPOSITION[8] == 'D';
    assert headers[1][|ENCODING|..] == "base64" && headers[1][8] == 'T';
    assert Field(headers, ENCODING) == Field(headers[1..], ENCODING);
    assert Field(headers, DISPOSITION) == Field(headers[1..], DISPOSITION) == Field(headers[1..][1..], DISPOSITION);
    var field := FILENAME + (c.name + "\"");
    assert headers[1..][1..][0] == DISPOSITION + field && (DISPOSITION + field)[|DISPOSITION|..] == field;
    assert field[|FILENAME|..] == c.name + "\"";
    UnquotePlain(c.name);
  }

  lemma {:induction false} HtmlHeadersReadBack()
    ensures var headers := HtmlHeaders();
            && Field(headers, CONTENT_TYPE) == Some(HTML) && Field(headers, ENCODING) == Some("base64")
            && Filename(headers) == None
  {
    var headers := HtmlHeaders();
    assert headers[0][|CONTENT_TYPE|..] == HTML && headers[0][9] == 'y' && ENCODING[9] == 'r';
    assert headers[1][|ENCODING|..] == "base64" && headers[1][8] == 'T' && headers[0][8] == 'T'
      && DISPOSITION[8] == 'D';
    assert Field(headers, ENCODING) == Field(headers[1..], ENCODING);
    assert Field(headers, DISPOSITION) == Field(headers[1..], DISPOSITION) == Field(headers[1..][1..], DISPOSITION);
  }

  lemma {:induction false} FirstBlankAt(headers: seq<string>, rest: seq<string>)
    requires forall i :: 0 <= i < |headers| ==> headers[i] != ""
    ensures FirstBlank(headers + ([""] + rest)) == |headers|
  {
    if |headers| > 0 {
      assert (headers + ([""] + rest))[1..] == headers[1..] + ([""] + rest);
      FirstBlankAt(headers[1..], rest);
    }
  }

  lemma {:induction false} ReadWritten(headers: seq<string>, bytes: Octets)
    requires forall i :: 0 <= i < |headers| ==> headers[i] != ""
    requires Field(headers, ENCODING) == Some("base64")
    ensures ReadPart(headers + ([""] + ContentLines(bytes)))
              == Part(Field(headers, CONTENT_TYPE), Filename(headers), Some(bytes))
  {
    var lines := headers + ([""] + ContentLines(bytes));
    FirstBlankAt(headers, ContentLines(bytes));
    assert lines[..|headers|] == headers && lines[|headers| + 1..] == ContentLines(bytes);
    ContentRoundTrip(bytes);
  }

  // ---------------------------------------------------------------- the parts in turn

  lemma {:induction false} FirstDelimiterAt(lines: seq<string>, more: seq<string>, boundary: string)
    requires forall i :: 0 <= i < |lines| ==> !IsDelimiter(lines[i], boundary)
    requires |more| > 0 && IsDelimiter(more[0], boundary)
    ensures FirstDelimiter(lines + more, boundary) == |lines|
  {
    if |lines| == 0 {
      assert lines + more == more;
    } else {
      assert (lines + more)[1..] == lines[1..] + more;
      FirstDelimiterAt(lines[1..], more, boundary);
    }
  }

  /** A delimiter line, a part without delimiters in it, and what follows from the next delimiter line on. */
  lemma {:induction false} ReadOnePart(lines: seq<string>, more: seq<string>, boundary: string)
    requires forall i :: 0 <= i < |lines| ==> !IsDelimiter(lines[i], boundary)
    requires |more| > 0 && IsDelimiter(more[0], boundary)
    ensures ReadParts(["--" + boundary] + lines + more, boundary)
            == match ReadParts(more, boundary) case None => None case Some(parts) => Some([ReadPart(lines)] + parts)
  {
    var all := ["--" + boundary] + lines + more;
    FirstDelimiterAt(lines, more, boundary);
    assert all[0] == "--" + boundary && FirstDelimiter(all, boundary) == 0;
    assert all[1..] == lines + more;
    assert (lines + more)[..|lines|] == lines && (lines + more)[|lines|..] == more;
  }

  predicate GoodBoundary(boundary: string) { NoBreak("--" + boundary) && NoBreak("--" + boundary + "--") }

  lemma {:induction false} AttachedStarts(boundary: string, contents: seq<Content>)
    requires GoodBoundary(boundary)
    ensures IsDelimiter(SplitLines(Crlf(Attached(boundary, contents)))[0], boundary)
  {
    var lines := Attached(boundary, contents);
    var rest := Crlf(lines[1..]);
    assert Crlf(lines) == lines[0] + CRLF + rest;
    assert lines[0] == "--" + boundary || lines[0] == "--" + boundary + "--";
    SplitLine(lines[0], rest);
  }

  /** Reading a clean part leaves the rest. */
  lemma {:induction false} ReadCleanPart(boundary: string, headers: seq<string>, bytes: Octets, rest: string)
    requires GoodBoundary(boundary) && IsDelimiter(SplitLines(rest)[0], boundary)
    requires forall i :: 0 <= i < |headers| ==>
               headers[i] != "" && NoBreak(headers[i]) && !IsDelimiter(headers[i], boundary)
    requires Field(headers, ENCODING) == Some("base64")
    ensures ReadParts(SplitLines(Crlf(PartLines(boundary, headers, bytes)) + rest), boundary)
            == match ReadParts(SplitLines(rest), boundary)
               case None => None
               case Some(parts) => Some([Part(Field(headers, CONTENT_TYPE), Filename(headers), Some(bytes))] + parts)
  {
    var inner := headers + ([""] + ContentLines(bytes));
    ContentLinesFit(bytes);
    SplitCrlf(PartLines(boundary, headers, bytes), rest);
    assert PartLines(boundary, headers, bytes) == ["--" + boundary] + inner;
    ReadOnePart(inner, SplitLines(rest), boundary);
    ReadWritten(headers, bytes);
  }

  lemma {:induction false} HeaderLinesFit(c: Content, boundary: string)
    requires Clean(c)
    ensures forall i :: 0 <= i < 3 ==>
              var line := AttachmentHeaders(c)[i]; line != "" && NoBreak(line) && !IsDelimiter(line, boundary)
  {
    var headers := AttachmentHeaders(c);
    assert ("--" + boundary)[0] == '-' && headers[0][0] == 'C' && headers[1][0] == 'C' && headers[2][0] == 'C';
    NoBreakPrefixed(CONTENT_TYPE, c.contentType);
    assert NoBreak(c.name + "\"");
    NoBreakPrefixed(FILENAME, c.name + "\"");
    NoBreakPrefixed(DISPOSITION, FILENAME + (c.name + "\""));
  }

  // ---------------------------------------------------------------- attachments that cannot be read back

  /** What the reader sees of a header line is free of CRLF, and the file name was quoted whole or not at all. */
  lemma {:induction false} QuotedNameIsClean(name: string, rest: string)
    requires Unquote(SplitLines(name + "\"" + CRLF + rest)[0]) == Some(name)
    ensures NoBreak(name) && Plain(name)
  {
    var line := name + "\"";
    var w := SplitLines(line + CRLF + rest)[0];
    FirstLinePrefix(line, rest);
    UnquoteLength(w);
    assert w == line;
    LinesHaveNoBreak(line + CRLF + rest);
    forall i | 0 <= i < |name| - 1 && name[i] == '\r' ensures name[i + 1] != '\n' {
      assert w[i] == name[i] && w[i + 1] == name[i + 1];
    }
  }

  /** The type as the reader cuts it: up to its first CRLF. */
  lemma {:induction false} TypeLineRead(contentType: string, rest: string)
    ensures var lines := SplitLines((CONTENT_TYPE + contentType) + CRLF + rest);
            && CONTENT_TYPE <= lines[0] && NoBreak(lines[0][|CONTENT_TYPE|..])
            && (NoBreak(contentType) ==> lines == [CONTENT_TYPE + contentType] + SplitLines(rest))
  {
    var s := contentType + CRLF + rest;
    assert (CONTENT_TYPE + contentType) + CRLF + rest == CONTENT_TYPE + s;
    SplitPrefixed(CONTENT_TYPE, s);
    LinesHaveNoBreak(s);
    var first := CONTENT_TYPE + SplitLines(s)[0];
    assert first[|CONTENT_TYPE|..] == SplitLines(s)[0];
    if NoBreak(contentType) { SplitLine(contentType, rest); }
  }

  lemma {:induction false} NameLineRead(name: string, rest: string)
    ensures SplitLines(DISPOSITION + (FILENAME + (name + "\"")) + CRLF + rest)[0]
            == DISPOSITION + (FILENAME + SplitLines(name + "\"" + CRLF + rest)[0])
  {
    var s := name + "\"" + CRLF + rest;
    assert DISPOSITION + (FILENAME + (name + "\"")) + CRLF + rest == DISPOSITION + (FILENAME + s);
    SplitPrefixed(FILENAME, s);
    SplitPrefixed(DISPOSITION, FILENAME + s);
  }

  /** The header lines of an attachment's part as the reader cuts them: the type up to its first CRLF; and, when
      it has none, the file name up to its own. */
  ghost predicate HeaderLinesCut(lines: seq<string>, boundary: string, contentType: string, name: string,
      tail: string) {
    && |lines| >= 2 && lines[0] == "--" + boundary
    && CONTENT_TYPE <= lines[1] && NoBreak(lines[1][|CONTENT_TYPE|..])
    && (NoBreak(contentType) ==>
         && |lines| >= 4 && lines[1] == CONTENT_TYPE + contentType && lines[2] == ENCODING + "base64"
         && lines[3] == DISPOSITION + (FILENAME + SplitLines(name + "\"" + CRLF + tail)[0]))
  }

  lemma {:induction false} HeaderLinesRead(boundary: string, contentType: string, name: string, tail: string)
    requires GoodBoundary(boundary)
    ensures var fourth := (DISPOSITION + (FILENAME + (name + "\""))) + CRLF + tail;
            var third := (ENCODING + "base64") + CRLF + fourth;
            HeaderLinesCut(SplitLines(("--" + boundary) + CRLF + ((CONTENT_TYPE + contentType) + CRLF + third)),
              boundary, contentType, name, tail)
  {
    var fourth := (DISPOSITION + (FILENAME + (name + "\""))) + CRLF + tail;
    var third := (ENCODING + "base64") + CRLF + fourth;
    SplitLine("--" + boundary, (CONTENT_TYPE + contentType) + CRLF + third);
    TypeLineRead(contentType, third);
    if NoBreak(contentType) {
      EncodingHasNoBreak();
      SplitLine(ENCODING + "base64", fourth);
      NameLineRead(name, tail);
    }
  }

  lemma {:induction false} EncodingHasNoBreak()
    ensures NoBreak(ENCODING + "base64")
  {
  }

  lemma {:induction false} PartText(boundary: string, headers: seq<string>, bytes: Octets, rest: string)
    requires |headers| == 3
    ensures var tail := Crlf([""] + ContentLines(bytes)) + rest;
            Crlf(PartLines(boundary, headers, bytes)) + rest
            == ("--" + boundary) + CRLF + (headers[0] + CRLF + (headers[1] + CRLF + (headers[2] + CRLF + tail)))
  {
    var content := [""] + ContentLines(bytes);
    CrlfConcat(headers, content);
    CrlfConcat(["--" + boundary], headers + content);
    CrlfOne("--" + boundary);
    HeadersText(headers, Crlf(content) + rest);
  }

  lemma {:induction false} HeadersText(headers: seq<string>, after: string)
    requires |headers| == 3
    ensures Crlf(headers) + after == headers[0] + CRLF + (headers[1] + CRLF + (headers[2] + CRLF + after))
  {
    assert headers[1..][1..][1..] == [];
    assert Crlf(headers[1..][1..]) == headers[2] + CRLF;
    assert Crlf(headers[1..]) == headers[1] + CRLF + Crlf(headers[1..][1..]);
  }

  /** What the first part read from such lines says about its type and its file name. */
  lemma {:induction false} FirstPartRead(boundary: string, lines: seq<string>)
    requires |lines| >= 2 && lines[0] == "--" + boundary && CONTENT_TYPE <= lines[1]
    ensures match ReadParts(lines, boundary)
            case None => true
            case Some(parts) =>
              && |parts| > 0 && parts[0].contentType == Some(lines[1][|CONTENT_TYPE|..])
              && (|lines| >= 4 && lines[2] == ENCODING + "base64" && DISPOSITION + FILENAME <= lines[3] ==>
                    parts[0].filename == Unquote(lines[3][|DISPOSITION + FILENAME|..]))
  {
    assert ("--" + boundary)[0] == '-' && lines[1][0] == 'C';
    assert FirstDelimiter(lines, boundary) == 0 && !IsClose(lines[0], boundary);
    var rest := lines[1..];
    var next := FirstDelimiter(rest, boundary);
    assert next > 0;
    FirstPartHeaders(rest[..next]);
    if |lines| >= 4 && lines[2] == ENCODING + "base64" && DISPOSITION + FILENAME <= lines[3] && next < |rest| {
      assert rest[1][0] == 'C' && rest[2][0] == 'C';
      NextAfter(rest, boundary);
      FirstPartName(rest[..next]);
    }
  }

  lemma {:induction false} NextAfter(lines: seq<string>, boundary: string)
    requires |lines| >= 3 && forall i :: 0 <= i < 3 ==> |lines[i]| > 0 && lines[i][0] == 'C'
    ensures FirstDelimiter(lines, boundary) >= 3
  {
  }

  lemma {:induction false} FirstPartHeaders(lines: seq<string>)
    requires |lines| >= 1 && CONTENT_TYPE <= lines[0]
    ensures ReadPart(lines).contentType == Some(lines[0][|CONTENT_TYPE|..])
  {
  }

  lemma {:induction false} FirstPartName(lines: seq<string>)
    requires |lines| >= 3 && CONTENT_TYPE <= lines[0] && lines[1] == ENCODING + "base64"
    requires DISPOSITION + FILENAME <= lines[2]
    ensures ReadPart(lines).filename == Unquote(lines[2][|DISPOSITION + FILENAME|..])
  {
    var blank := FirstBlank(lines);
    assert lines[1..][0] == lines[1] && lines[1..][1..][0] == lines[2];
    assert lines[0] != "" && lines[1] != "" && lines[2] != "";
    assert blank == 1 + FirstBlank(lines[1..]) && FirstBlank(lines[1..]) == 1 + FirstBlank(lines[1..][1..]);
    var headers := lines[..blank];
    assert blank >= 3 && headers[0] == lines[0] && headers[1] == lines[1] && headers[2] == lines[2];
    NameField(headers);
  }

  lemma {:induction false} NameField(headers: seq<string>)
    requires |headers| >= 3 && CONTENT_TYPE <= headers[0] && headers[1] == ENCODING + "base64"
    requires DISPOSITION + FILENAME <= headers[2]
    ensures Filename(headers) == Unquote(headers[2][|DISPOSITION + FILENAME|..])
  {
    assert DISPOSITION[8] == 'D' && headers[0][8] == CONTENT_TYPE[8] == 'T' && headers[1][8] == ENCODING[8] == 'T';
    assert Field(headers, DISPOSITION) == Field(headers[1..], DISPOSITION) == Field(headers[1..][1..], DISPOSITION);
    var line := headers[2];
    assert headers[1..][1..][0] == line && DISPOSITION <= line;
    var field := line[|DISPOSITION|..];
    assert FILENAME <= field;
    assert field[|FILENAME|..] == line[|DISPOSITION + FILENAME|..];
  }

  lemma {:induction false} DirtyLinesDiffer(boundary: string, c: Content, lines: seq<string>, tail: string)
    requires HeaderLinesCut(lines, boundary, c.contentType, c.name, tail) && !Clean(c)
    ensures match ReadParts(lines, boundary)
            case None => true
            case Some(parts) => |parts| > 0 && parts[0] != PartOf(c)
  {
    FirstPartRead(boundary, lines);
    if NoBreak(c.contentType) {
      var w := SplitLines(c.name + "\"" + CRLF + tail)[0];
      Regroup(DISPOSITION, FILENAME, w);
      assert lines[3][|DISPOSITION + FILENAME|..] == w;
      if Unquote(w) == Some(c.name) { QuotedNameIsClean(c.name, tail); }
    }
  }

  /** A part whose type or name the writer does not protect is not read back. */
  lemma {:induction false} DirtyPartDiffers(boundary: string, c: Content, rest: string)
    requires GoodBoundary(boundary) && !Clean(c)
    ensures match ReadParts(SplitLines(Crlf(PartLines(boundary, AttachmentHeaders(c), c.bytes)) + rest), boundary)
            case None => true
            case Some(parts) => |parts| > 0 && parts[0] != PartOf(c)
  {
    var headers := AttachmentHeaders(c);
    var tail := Crlf([""] + ContentLines(c.bytes)) + rest;
    PartText(boundary, headers, c.bytes, rest);
    HeaderLinesRead(boundary, c.contentType, c.name, tail);
    DirtyLinesDiffer(boundary, c, SplitLines(Crlf(PartLines(boundary, headers, c.bytes)) + rest), tail);
  }

  // ---------------------------------------------------------------- the round trip

  /** The attachments come back, in order and with identical bytes, exactly when no type contains CRLF and no name
      CRLF, a quote or a backslash. */
  lemma {:induction false} AttachedRoundTrip(boundary: string, contents: seq<Content>)
    requires GoodBoundary(boundary)
    ensures ReadParts(SplitLines(Crlf(Attached(boundary, contents))), boundary) == Some(PartsOf(contents))
            <==> AllClean(contents)
  {
    var text := Crlf(Attached(boundary, contents));
    if |contents| == 0 {
      CrlfOne("--" + boundary + "--");
      assert text == ("--" + boundary + "--") + CRLF + "";
      SplitLine("--" + boundary + "--", "");
      assert IsClose(SplitLines(text)[0], boundary) && IsDelimiter(SplitLines(text)[0], boundary);
    } else {
      var c, more := contents[0], contents[1..];
      var part := PartLines(boundary, AttachmentHeaders(c), c.bytes);
      CrlfConcat(part, Attached(boundary, more));
      assert AllClean(contents) <==> Clean(c) && AllClean(more) by {
        assert forall i :: 1 <= i < |contents| ==> contents[i] == more[i - 1];
      }
      if Clean(c) {
        AttachedStarts(boundary, more);
        HeaderLinesFit(c, boundary);
        HeadersReadBack(c);
        ReadCleanPart(boundary, AttachmentHeaders(c), c.bytes, Crlf(Attached(boundary, more)));
        AttachedRoundTrip(boundary, more);
        SameAfterFirst(PartOf(c), ReadParts(SplitLines(Crlf(Attached(boundary, more))), boundary), PartsOf(more));
      } else {
        DirtyPartDiffers(boundary, c, Crlf(Attached(boundary, more)));
      }
    }
  }

  lemma {:induction false} SameAfterFirst(first: Part, read: Option<seq<Part>>, parts: seq<Part>)
    ensures (match read case None => None case Some(more) => Some([first] + more)) == Some([first] + parts)
            <==> read == Some(parts)
  {
    if read.Some? {
      assert ([first] + read.value)[1..] == read.value && ([first] + parts)[1..] == parts;
    }
  }

  /** The multipart body gives back exactly the HTML and the attachments exactly when every attachment is clean. */
  lemma {:induction false} MixedRoundTrip(boundary: string, body: Octets, contents: seq<Content>)
    requires GoodBoundary(boundary)
    ensures ReadParts(SplitLines(Crlf(MixedLines(boundary, body, contents))), boundary)
              == Some([HtmlPart(body)] + PartsOf(contents))
            <==> AllClean(contents)
  {
    var rest := Crlf(Attached(boundary, contents));
    CrlfConcat(PartLines(boundary, HtmlHeaders(), body), Attached(boundary, contents));
    AttachedStarts(boundary, contents);
    HtmlHeadersReadBack();
    HtmlHeadersFit(boundary);
    ReadCleanPart(boundary, HtmlHeaders(), body, rest);
    AttachedRoundTrip(boundary, contents);
    SameAfterFirst(HtmlPart(body), ReadParts(SplitLines(rest), boundary), PartsOf(contents));
  }

  lemma {:induction false} HtmlHeadersFit(boundary: string)
    ensures forall i :: 0 <= i < 2 ==>
              var line := HtmlHeaders()[i]; line != "" && NoBreak(line) && !IsDelimiter(line, boundary)
  {
    assert ("--" + boundary)[0] == '-' && HtmlHeaders()[0][0] == 'C' && HtmlHeaders()[1][0] == 'C';
  }

  // ---------------------------------------------------------------- the whole message

  lemma {:induction false} BoundaryIsGood(body: Octets, contents: seq<Content>)
    ensures GoodBoundary(Boundary(body, contents)) && Plain(Boundary(body, contents))
    ensures NoBreak(TypeLine(Boundary(body, contents)))
  {
    var digits := Itoa(|body| + |contents|);
    var boundary := Boundary(body, contents);
    assert forall i :: 0 <= i < |digits| ==> IsDigit(digits[i]);
    assert forall i :: 0 <= i < |boundary| ==> boundary[i] !in {'\r', '\n', '\"', '\\'};
    NoBreakPrefixed("--", boundary);
    NoBreakPrefixed("--", boundary + "--");
    assert "--" + (boundary + "--") == "--" + boundary + "--";
    NoBreakPrefixed(MIXED, boundary + "\"");
    NoBreakPrefixed(CONTENT_TYPE, MIXED + (boundary + "\""));
  }

  /** A header line that is neither blank nor broken nor a Content-Type field. */
  predicate OtherField(line: string) { line != "" && NoBreak(line) && !(CONTENT_TYPE <= line) }

  lemma {:induction false} TopHeadersFit(from: string, to: seq<string>, cc: seq<string>, subject: string)
    requires NoBreak(from) && NoBreak(Show(to)) && NoBreak(Show(cc)) && NoBreak(subject)
    ensures forall i :: 0 <= i < |TopHeaders(from, to, cc, subject)| ==>
              OtherField(TopHeaders(from, to, cc, subject)[i])
  {
    NoBreakPrefixed("From: ", from);
    NoBreakPrefixed("To: ", Show(to));
    NoBreakPrefixed("Cc: ", Show(cc));
    NoBreakPrefixed("Subject: ", subject);
    assert ("From: " + from)[0] == 'F' && ("To: " + Show(to))[0] == 'T' && ("Cc: " + Show(cc))[1] == 'c';
    assert ("Subject: " + subject)[0] == 'S' && "MIME-Version: 1.0"[0] == 'M' && CONTENT_TYPE[1] == 'o';
  }

  lemma {:induction false} FieldAfter(top: seq<string>, value: string)
    requires forall i :: 0 <= i < |top| ==> OtherField(top[i])
    ensures Field(top + [CONTENT_TYPE + value], CONTENT_TYPE) == Some(value)
  {
    if |top| == 0 {
      assert (top + [CONTENT_TYPE + value])[0][|CONTENT_TYPE|..] == value;
    } else {
      assert (top + [CONTENT_TYPE + value])[1..] == top[1..] + [CONTENT_TYPE + value];
      FieldAfter(top[1..], value);
    }
  }

  /** How the reader cuts a message: header, blank line, the rest. */
  lemma {:induction false} HeaderRead(top: seq<string>, value: string, rest: string)
    requires (forall i :: 0 <= i < |top| ==> OtherField(top[i])) && NoBreak(CONTENT_TYPE + value)
    ensures var lines := SplitLines(Crlf(top + [CONTENT_TYPE + value, ""]) + rest); var blank := FirstBlank(lines);
            && blank < |lines| && lines[..blank] == top + [CONTENT_TYPE + value]
            && Field(lines[..blank], CONTENT_TYPE) == Some(value)
            && lines[blank + 1..] == SplitLines(rest)
  {
    var headers := top + [CONTENT_TYPE + value];
    SplitCrlf(top + [CONTENT_TYPE + value, ""], rest);
    var lines := SplitLines(Crlf(top + [CONTENT_TYPE + value, ""]) + rest);
    assert lines == headers + ([""] + SplitLines(rest));
    FirstBlankAt(headers, SplitLines(rest));
    assert lines[..|headers|] == headers;
    FieldAfter(top, value);
  }

  lemma {:induction false} PlainRead(top: seq<string>, html: string)
    requires forall i :: 0 <= i < |top| ==> OtherField(top[i])
    ensures ReadMessage(Crlf(top + [CONTENT_TYPE + HTML, ""]) + html) == PlainHtml(html)
  {
    assert NoBreak(CONTENT_TYPE + HTML);
    HeaderRead(top, HTML, html);
    JoinSplit(html);
  }

  /** Without attachments the reader gets the HTML back unchanged, whatever it contains. */
  lemma {:induction false} PlainRoundTrip(top: seq<string>, body: Octets)
    requires forall i :: 0 <= i < |top| ==> OtherField(top[i])
    ensures ReadMessage(Written(top, body, [])) == PlainHtml(body)
  {
    PlainRead(top, body);
  }

  lemma {:induction false} MixedMessageRead(top: seq<string>, body: Octets, contents: seq<Content>)
    requires |contents| > 0 && forall i :: 0 <= i < |top| ==> OtherField(top[i])
    ensures ReadMessage(Written(top, body, contents)) ==
            match ReadParts(SplitLines(Crlf(MixedLines(Boundary(body, contents), body, contents))),
              Boundary(body, contents))
            case None => Unreadable
            case Some(parts) => Mixed(parts)
  {
    var boundary := Boundary(body, contents);
    var mixed := MixedLines(boundary, body, contents);
    var value := MIXED + (boundary + "\"");
    BoundaryIsGood(body, contents);
    CrlfConcat(top + [CONTENT_TYPE + value, ""], mixed);
    HeaderRead(top, value, Crlf(mixed));
    assert value[0] == 'm' && HTML[0] == 't' && value[|MIXED|..] == boundary + "\"";
    UnquotePlain(boundary);
  }

  /** The message built for an email whose rendered header values hold no CRLF: the HTML comes back unchanged, and
      with attachments, so do the decodable ones, in order and with identical bytes, exactly when their types hold no
      CRLF and their names no CRLF, quote or backslash. */
  lemma {:induction false} MessageRoundTrip(from: string, subject: string, data: SendEmailData, body: Octets)
    requires NoBreak(from) && NoBreak(Show(data.receiver)) && NoBreak(Show(data.cc)) && NoBreak(subject)
    ensures var contents := Decodable(if data.attachments.None? then [] else data.attachments.value);
            var mail := ReadMessage(Written(TopHeaders(from, data.receiver, data.cc, subject), body, contents));
            if contents == [] then mail == PlainHtml(body)
            else mail == Mixed([HtmlPart(body)] + PartsOf(contents)) <==> AllClean(contents)
  {
    var contents := Decodable(if data.attachments.None? then [] else data.attachments.value);
    var top := TopHeaders(from, data.receiver, data.cc, subject);
    TopHeadersFit(from, data.receiver, data.cc, subject);
    if contents == [] {
      PlainRoundTrip(top, body);
    } else {
      BoundaryIsGood(body, contents);
      MixedMessageRead(top, body, contents);
      MixedRoundTrip(Boundary(body, contents), body, contents);
    }
  }

  // ---------------------------------------------------------------- on the way

  /** Neither a carriage return nor a line feed. */
  predicate OneLine(s: string) { '\r' !in s && '\n' !in s }

  lemma {:induction false} FieldNamesAreOneLine()
    ensures OneLine(CONTENT_TYPE) && OneLine(ENCODING) && OneLine(DISPOSITION)
  {
  }

  lemma {:induction false} ParametersAreOneLine()
    ensures OneLine(FILENAME) && OneLine(MIXED)
  {
  }

  lemma {:induction false} ValuesAreOneLine()
    ensures OneLine(HTML) && OneLine("base64") && OneLine("\"")
  {
  }

  lemma {:induction false} LineRelayed(line: string, rest: string)
    requires OneLine(line)
    ensures Relayed(line + CRLF + rest, false) == line + CRLF + Relayed(rest, false)
  {
    var s := line + CRLF + rest;
    if |line| == 0 {
      assert s[0] == '\r' && s[1] == '\n' && s[1..][1..] == rest;
      assert Relayed(s, false) == ['\r'] + Relayed(s[1..], true);
      assert Relayed(s[1..], true) == ['\n'] + Relayed(rest, false);
    } else {
      assert s[0] == line[0] && line[0] in line && s[1..] == line[1..] + CRLF + rest;
      LineRelayed(line[1..], rest);
      Regroup([line[0]], line[1..] + CRLF, Relayed(rest, false));
      Regroup([line[0]], line[1..], CRLF);
      assert [line[0]] + line[1..] == line;
    }
  }

  lemma {:induction false} LinesRelayed(lines: seq<string>, rest: string)
    requires AllOneLine(lines)
    ensures Relayed(Crlf(lines) + rest, false) == Crlf(lines) + Relayed(rest, false)
  {
    if |lines| == 0 {
      assert Crlf(lines) + rest == rest;
    } else {
      Regroup(lines[0] + CRLF, Crlf(lines[1..]), rest);
      LineRelayed(lines[0], Crlf(lines[1..]) + rest);
      LinesRelayed(lines[1..], rest);
      Regroup(lines[0] + CRLF, Crlf(lines[1..]), Relayed(rest, false));
    }
  }

  predicate OneLined(contents: seq<Content>) {
    forall i :: 0 <= i < |contents| ==> OneLine(contents[i].contentType) && OneLine(contents[i].name)
  }

  lemma {:induction false} ContentIsOneLined(bytes: Octets)
    ensures AllOneLine(ContentLines(bytes))
  {
    var lines := ContentLines(bytes);
    Base64LinesFit(Encode(bytes));
    forall i | 0 <= i < |lines| ensures OneLine(lines[i]) {
      forall k | 0 <= k < |lines[i]| ensures lines[i][k] !in CRLF { assert InAlphabet(lines[i][k]); }
    }
  }

  lemma {:induction false} PartIsOneLined(boundary: string, headers: seq<string>, bytes: Octets)
    requires OneLine(boundary) && AllOneLine(headers)
    ensures AllOneLine(PartLines(boundary, headers, bytes))
  {
    ContentIsOneLined(bytes);
    OneLineConcat("--", boundary);
    AllOneLineConcat([""], ContentLines(bytes));
    AllOneLineConcat(headers, [""] + ContentLines(bytes));
    AllOneLineConcat(["--" + boundary], headers + ([""] + ContentLines(bytes)));
  }

  lemma {:induction false} HeadersAreOneLined(c: Content)
    requires OneLine(c.contentType) && OneLine(c.name)
    ensures AllOneLine(AttachmentHeaders(c))
  {
    FieldNamesAreOneLine();
    ParametersAreOneLine();
    ValuesAreOneLine();
    OneLineConcat(ENCODING, "base64");
    OneLineConcat(CONTENT_TYPE, c.contentType);
    OneLineConcat(c.name, "\"");
    OneLineConcat(FILENAME, c.name + "\"");
    OneLineConcat(DISPOSITION, FILENAME + (c.name + "\""));
  }

  lemma {:induction false} AttachedIsOneLined(boundary: string, contents: seq<Content>)
    requires OneLine(boundary) && OneLined(contents)
    ensures AllOneLine(Attached(boundary, contents))
  {
    if |contents| == 0 {
      OneLineConcat("--", boundary);
      OneLineConcat("--" + boundary, "--");
    } else {
      var part := PartLines(boundary, AttachmentHeaders(contents[0]), contents[0].bytes);
      HeadersAreOneLined(contents[0]);
      PartIsOneLined(boundary, AttachmentHeaders(contents[0]), contents[0].bytes);
      AttachedIsOneLined(boundary, contents[1..]);
      AllOneLineConcat(part, Attached(boundary, contents[1..]));
    }
  }

  lemma {:induction false} BoundaryIsOneLine(body: Octets, contents: seq<Content>)
    ensures OneLine(Boundary(body, contents)) && OneLine(TypeLine(Boundary(body, contents)))
  {
    var digits := Itoa(|body| + |contents|);
    forall i | 0 <= i < |digits| ensures digits[i] !in CRLF { assert IsDigit(digits[i]); }
    FieldNamesAreOneLine();
    ParametersAreOneLine();
    ValuesAreOneLine();
    assert OneLine(digits) && OneLine("boundary_");
    OneLineConcat("boundary_", digits);
    OneLineConcat(Boundary(body, contents), "\"");
    OneLineConcat(MIXED, Boundary(body, contents) + "\"");
    OneLineConcat(CONTENT_TYPE, MIXED + (Boundary(body, contents) + "\""));
  }

  lemma {:induction false} OneLineConcat(a: string, b: string)
    requires OneLine(a) && OneLine(b)
    ensures OneLine(a + b)
  {
  }

  lemma {:induction false} HtmlHeadersAreOneLined()
    ensures AllOneLine(HtmlHeaders()) && OneLine(CONTENT_TYPE + HTML)
  {
    FieldNamesAreOneLine();
    ValuesAreOneLine();
    OneLineConcat(CONTENT_TYPE, HTML);
    OneLineConcat(ENCODING, "base64");
  }

  predicate AllOneLine(lines: seq<string>) { forall i :: 0 <= i < |lines| ==> OneLine(lines[i]) }

  lemma {:induction false} AllOneLineConcat(a: seq<string>, b: seq<string>)
    requires AllOneLine(a) && AllOneLine(b)
    ensures AllOneLine(a + b)
  {
  }

  lemma {:induction false} MixedIsOneLined(boundary: string, body: Octets, contents: seq<Content>)
    requires OneLine(boundary) && OneLined(contents)
    ensures AllOneLine(MixedLines(boundary, body, contents))
  {
    HtmlHeadersAreOneLined();
    PartIsOneLined(boundary, HtmlHeaders(), body);
    AttachedIsOneLined(boundary, contents);
    AllOneLineConcat(PartLines(boundary, HtmlHeaders(), body), Attached(boundary, contents));
  }

  /** A message without carriage returns and line feeds in its header, types and names: with attachments it arrives as
      it was written; without, the bare line feeds of the HTML arrive as CRLF. */
  lemma {:induction false} MessageRelayed(top: seq<string>, body: Octets, contents: seq<Content>)
    requires AllOneLine(top) && OneLined(contents)
    ensures Relayed(Written(top, body, contents), false)
            == if |contents| == 0
               then Crlf(top + [CONTENT_TYPE + HTML, ""]) + Relayed(body, false)
               else Written(top, body, contents)
  {
    if |contents| == 0 {
      HtmlHeadersAreOneLined();
      AllOneLineConcat(top, [CONTENT_TYPE + HTML, ""]);
      LinesRelayed(top + [CONTENT_TYPE + HTML, ""], body);
    } else {
      MixedRelayed(top, body, contents);
    }
  }

  lemma {:induction false} MixedRelayed(top: seq<string>, body: Octets, contents: seq<Content>)
    requires AllOneLine(top) && OneLined(contents) && |contents| > 0
    ensures Relayed(Written(top, body, contents), false) == Written(top, body, contents)
  {
    var boundary := Boundary(body, contents);
    var head := top + [TypeLine(boundary), ""];
    var lines := head + MixedLines(boundary, body, contents);
    BoundaryIsOneLine(body, contents);
    MixedIsOneLined(boundary, body, contents);
    AllOneLineConcat(top, [TypeLine(boundary), ""]);
    AllOneLineConcat(head, MixedLines(boundary, body, contents));
    LinesRelayed(lines, "");
    NothingAfter(Crlf(lines));
  }

  lemma {:induction false} NothingAfter(s: string)
    ensures s + "" == s
  {
  }

  lemma {:induction false} OneLineHasNoBreak(s: string)
    requires OneLine(s)
    ensures NoBreak(s)
  {
    assert forall i :: 0 <= i < |s| ==> s[i] in s;
  }

  lemma {:induction false} TopIsOneLined(from: string, to: seq<string>, cc: seq<string>, subject: string)
    requires OneLine(from) && OneLine(Show(to)) && OneLine(Show(cc)) && OneLine(subject)
    ensures AllOneLine(TopHeaders(from, to, cc, subject))
  {
    assert OneLine("From: " + from) && OneLine("To: " + Show(to)) && OneLine("Cc: " + Show(cc))
      && OneLine("Subject: " + subject);
  }

  predicate AllPlain(contents: seq<Content>) { forall i :: 0 <= i < |contents| ==> Plain(contents[i].name) }

  /** What arrives of a message without carriage returns and line feeds in its header values, types and names: with
      attachments, the HTML and the attachments exactly when no name holds a quote or a backslash; without, the HTML
      with its bare line feeds turned into CRLF. */
  lemma {:induction false} ArrivalRoundTrip(from: string, subject: string, data: SendEmailData, body: Octets)
    requires OneLine(from) && OneLine(Show(data.receiver)) && OneLine(Show(data.cc)) && OneLine(subject)
    requires OneLined(Decodable(if data.attachments.None? then [] else data.attachments.value))
    ensures var contents := Decodable(if data.attachments.None? then [] else data.attachments.value);
            var top := TopHeaders(from, data.receiver, data.cc, subject);
            var mail := ReadMessage(Relayed(Written(top, body, contents), false));
            if contents == [] then mail == PlainHtml(Relayed(body, false))
            else mail == Mixed([HtmlPart(body)] + PartsOf(contents)) <==> AllPlain(contents)
  {
    var contents := Decodable(if data.attachments.None? then [] else data.attachments.value);
    var top := TopHeaders(from, data.receiver, data.cc, subject);
    OneLineHasNoBreak(from);
    OneLineHasNoBreak(Show(data.receiver));
    OneLineHasNoBreak(Show(data.cc));
    OneLineHasNoBreak(subject);
    TopIsOneLined(from, data.receiver, data.cc, subject);
    MessageRelayed(top, body, contents);
    if contents == [] {
      TopHeadersFit(from, data.receiver, data.cc, subject);
      PlainRead(top, Relayed(body, false));
    } else {
      MessageRoundTrip(from, subject, data, body);
      forall i | 0 <= i < |contents| ensures Clean(contents[i]) <==> Plain(contents[i].name) {
        OneLineHasNoBreak(contents[i].contentType);
        OneLineHasNoBreak(contents[i].name);
      }
    }
  }
}
