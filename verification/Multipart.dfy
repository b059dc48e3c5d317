/** internal/infrastructure/mailer/smtp_message.go and decodeAttachments of content.go: the message the SMTP sender
    writes. */
module Multipart {
  import opened Numbers
  import opened Models
  import opened Base64
  import opened Recipients
  import opened MimeNames

  const LINE_LENGTH: nat := 76

  // ---------------------------------------------------------------- attachments

  datatype Content = Content(name: string, contentType: string, bytes: Octets)

  function DecodeAttachment(a: Attachment): Option<Octets> {
    if a.decoder.None? || a.decoder.value == "base64" then DecodeString(a.data) else None
  }

  /** The decodable attachments, in order. */
  function Decodable(attachments: seq<Attachment>): seq<Content> {
    if |attachments| == 0 then []
    else
      var a := attachments[0];
      (match DecodeAttachment(a) case None => [] case Some(bytes) => [Content(a.name, a.contentType, bytes)])
      + Decodable(attachments[1..])
  }

  lemma {:induction false} DecodableConcat(a: seq<Attachment>, b: seq<Attachment>)
    ensures Decodable(a + b) == Decodable(a) + Decodable(b)
  {
    if |a| == 0 {
      assert a + b == b;
    } else {
      assert (a + b)[1..] == a[1..] + b;
      DecodableConcat(a[1..], b);
    }
  }

  /** Each attachment counts for itself: one that names no decoder other than base64 and whose data decode is kept with
      its name, type and bytes, any other is left out. */
  lemma {:induction false} EachAttachment(before: seq<Attachment>, a: Attachment, after: seq<Attachment>)
    ensures var kept := Decodable(before + [a] + after);
            if (a.decoder.None? || a.decoder == Some("base64")) && DecodeString(a.data).Some?
            then kept == Decodable(before) + [Content(a.name, a.contentType, DecodeString(a.data).value)]
                         + Decodable(after)
            else kept == Decodable(before) + Decodable(after)
  {
    DecodableConcat(before + [a], after);
    DecodableConcat(before, [a]);
    assert [a][1..] == [];
  }

  method DecodeAttachments(attachments: Option<seq<Attachment>>) returns (contents: seq<Content>)
    ensures contents == Decodable(if attachments.None? then [] else attachments.value)
  {
    contents := [];
    if attachments.None? { return; }
    var list := attachments.value;
    for i := 0 to |list|
      invariant contents + Decodable(list[i..]) == Decodable(list)
    {
      assert list[i..][1..] == list[i + 1..];
      var bytes := DecodeAttachment(list[i]);
      if bytes.Some? { contents := contents + [Content(list[i].name, list[i].contentType, bytes.value)]; }
    }
  }

  // ---------------------------------------------------------------- what is written

  /** The lines, each ended by CRLF. */
  function Crlf(lines: seq<string>): string { if |lines| == 0 then "" else lines[0] + CRLF + Crlf(lines[1..]) }

  function Base64Lines(encoded: string): seq<string> {
    if |encoded| == 0 then []
    else if |encoded| <= LINE_LENGTH then [encoded]
    else [encoded[..LINE_LENGTH]] + Base64Lines(encoded[LINE_LENGTH..])
  }

  function ContentLines(bytes: Octets): seq<string> { Base64Lines(Encode(bytes)) + [""] }

  function HtmlHeaders(): seq<string> { [CONTENT_TYPE + HTML, ENCODING + "base64"] }

  function AttachmentHeaders(c: Content): seq<string> {
    [CONTENT_TYPE + c.contentType, ENCODING + "base64", DISPOSITION + (FILENAME + (c.name + "\""))]
  }

  function PartLines(boundary: string, headers: seq<string>, bytes: Octets): seq<string> {
    ["--" + boundary] + (headers + ([""] + ContentLines(bytes)))
  }

  /** The attachments' parts and the closing delimiter. */
  function Attached(boundary: string, contents: seq<Content>): seq<string> {
    if |contents| == 0 then ["--" + boundary + "--"]
    else PartLines(boundary, AttachmentHeaders(contents[0]), contents[0].bytes) + Attached(boundary, contents[1..])
  }

  function MixedLines(boundary: string, body: Octets, contents: seq<Content>): seq<string> {
    PartLines(boundary, HtmlHeaders(), body) + Attached(boundary, contents)
  }

  function Boundary(body: Octets, contents: seq<Content>): string { "boundary_" + Itoa(|body| + |contents|) }

  /** The header of the message but for Content-Type; `from` and `subject` are rendered by library calls. */
  function TopHeaders(from: string, to: seq<string>, cc: seq<string>, subject: string): seq<string> {
    ["From: " + from, "To: " + Show(to)] + (if |cc| > 0 then ["Cc: " + Show(cc)] else [])
    + ["Subject: " + subject, "MIME-Version: 1.0"]
  }

  function TypeLine(boundary: string): string { CONTENT_TYPE + (MIXED + (boundary + "\"")) }

  function Written(top: seq<string>, body: Octets, contents: seq<Content>): string {
    var boundary := Boundary(body, contents);
    if |contents| == 0 then Crlf(top + [CONTENT_TYPE + HTML, ""]) + body
    else Crlf(top + [TypeLine(boundary), ""] + MixedLines(boundary, body, contents))
  }

  lemma {:induction false} CrlfConcat(a: seq<string>, b: seq<string>)
    ensures Crlf(a + b) == Crlf(a) + Crlf(b)
  {
    if |a| == 0 {
      assert a + b == b;
    } else {
      assert (a + b)[1..] == a[1..] + b;
      CrlfConcat(a[1..], b);
    }
  }

  lemma {:induction false} CrlfOne(line: string)
    ensures Crlf([line]) == line + CRLF
  {
  }

  /** strings.Builder; `lines` are the lines written so far. */
  class Builder {
    var text: string
    ghost var lines: seq<string>

    ghost predicate HasLines()
      reads this
    {
      text == Crlf(lines)
    }

    constructor ()
      ensures HasLines() && lines == []
    {
      text, lines := "", [];
    }

    method WriteString(s: string)
      modifies this`text
      ensures text == old(text) + s
    {
      text := text + s;
    }

    method WriteLine(line: string)
      requires HasLines()
      modifies this
      ensures HasLines() && lines == old(lines) + [line]
    {
      CrlfOne(line);
      CrlfConcat(lines, [line]);
      WriteString(line + CRLF);
      lines := lines + [line];
    }
  }

  lemma {:induction false} NextLine(encoded: string, start: nat)
    requires start < |encoded|
    ensures var end := Min(start + LINE_LENGTH, |encoded|);
            Base64Lines(encoded[start..]) == [encoded[start..end]] + Base64Lines(encoded[end..])
  {
    var rest := encoded[start..];
    if |rest| <= LINE_LENGTH {
      assert encoded[|encoded|..] == "";
      assert encoded[start..|encoded|] == rest;
    } else {
      assert rest[..LINE_LENGTH] == encoded[start..start + LINE_LENGTH];
      assert rest[LINE_LENGTH..] == encoded[start + LINE_LENGTH..];
    }
  }

  method WriteBase64Lines(message: Builder, content: Octets)
    requires message.HasLines()
    modifies message
    ensures message.HasLines() && message.lines == old(message.lines) + ContentLines(content)
  {
    var encoded := Encode(content);
    var start := 0;
    while start < |encoded|
      invariant 0 <= start <= |encoded| && message.HasLines()
      invariant message.lines + Base64Lines(encoded[start..]) == old(message.lines) + Base64Lines(encoded)
      decreases |encoded| - start
    {
      var end := Min(start + LINE_LENGTH, |encoded|);
      NextLine(encoded, start);
      message.WriteLine(encoded[start..end]);
      start := end;
    }
    assert encoded[start..] == "";
    assert message.lines == old(message.lines) + Base64Lines(encoded);
    message.WriteLine("");
  }

  method WritePart(message: Builder, boundary: string, headers: seq<string>, content: Octets)
    requires message.HasLines()
    modifies message
    ensures message.HasLines() && message.lines == old(message.lines) + PartLines(boundary, headers, content)
  {
    message.WriteLine("--" + boundary);
    for i := 0 to |headers|
      invariant message.HasLines() && message.lines == old(message.lines) + ["--" + boundary] + headers[..i]
    {
      message.WriteLine(headers[i]);
    }
    message.WriteLine("");
    WriteBase64Lines(message, content);
  }

  method WriteTopHeaders(message: Builder, from: string, to: seq<string>, cc: seq<string>, subject: string)
    requires message.HasLines() && message.lines == []
    modifies message
    ensures message.HasLines() && message.lines == TopHeaders(from, to, cc, subject)
  {
    message.WriteLine("From: " + from);
    message.WriteLine("To: " + Show(to));
    if |cc| > 0 { message.WriteLine("Cc: " + Show(cc)); }
    message.WriteLine("Subject: " + subject);
    message.WriteLine("MIME-Version: 1.0");
  }

  lemma {:induction false} NextAttached(boundary: string, contents: seq<Content>, i: nat, lines: seq<string>)
    requires i < |contents|
    ensures lines + Attached(boundary, contents[i..])
            == (lines + PartLines(boundary, AttachmentHeaders(contents[i]), contents[i].bytes))
              + Attached(boundary, contents[i + 1..])
  {
  }

  method WriteMixed(message: Builder, boundary: string, body: Octets, attachments: seq<Content>)
    requires message.HasLines()
    modifies message
    ensures message.HasLines() && message.lines == old(message.lines) + MixedLines(boundary, body, attachments)
  {
    WritePart(message, boundary, HtmlHeaders(), body);
    ghost var start := message.lines;
    for i := 0 to |attachments|
      invariant message.HasLines()
      invariant message.lines + Attached(boundary, attachments[i..]) == start + Attached(boundary, attachments)
    {
      NextAttached(boundary, attachments, i, message.lines);
      WritePart(message, boundary, AttachmentHeaders(attachments[i]), attachments[i].bytes);
    }
    NothingAttached(boundary, attachments);
    message.WriteLine("--" + boundary + "--");
    MixedInTwo(boundary, body, attachments, old(message.lines));
  }

  lemma {:induction false} NothingAttached(boundary: string, contents: seq<Content>)
    ensures Attached(boundary, contents[|contents|..]) == ["--" + boundary + "--"]
  {
  }

  lemma {:induction false} MixedInTwo(boundary: string, body: Octets, contents: seq<Content>, lines: seq<string>)
    ensures lines + MixedLines(boundary, body, contents)
            == (lines + PartLines(boundary, HtmlHeaders(), body)) + Attached(boundary, contents)
  {
  }

  method BuildMessage(from: string, subject: string, data: SendEmailData, body: Octets) returns (text: string)
    ensures var contents := Decodable(if data.attachments.None? then [] else data.attachments.value);
            text == Written(TopHeaders(from, data.receiver, data.cc, subject), body, contents)
  {
    var message := new Builder();
    WriteTopHeaders(message, from, data.receiver, data.cc, subject);
    ghost var top := message.lines;
    var attachments := DecodeAttachments(data.attachments);
    if |attachments| == 0 {
      message.WriteLine(CONTENT_TYPE + HTML);
      message.WriteLine("");
      assert message.lines == top + [CONTENT_TYPE + HTML, ""];
      message.WriteString(body);
      return message.text;
    }
    var boundary := Boundary(body, attachments);
    message.WriteLine(TypeLine(boundary));
    message.WriteLine("");
    assert message.lines == top + [TypeLine(boundary), ""];
    WriteMixed(message, boundary, body, attachments);
    text := message.text;
  }
}
