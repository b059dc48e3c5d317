/** The pieces of MIME header lines that writer and reader share. */
module MimeNames {
  const CRLF := "\r\n"
  const HTML := "text/html; charset=UTF-8"
  const CONTENT_TYPE := "Content-Type: "
  const ENCODING := "Content-Transfer-Encoding: "
  const DISPOSITION := "Content-Disposition: "
  const FILENAME := "attachment; filename=\""
  const MIXED := "multipart/mixed; boundary=\""
}

/** A reader of MIME messages that knows nothing of how they are written: delimiter lines as in section 5.1.1 of RFC
    2046, base64 as in section 6.8 of RFC 2045, and the quoted strings of section 5.1 of RFC 2045. */
module MimeReader {
  import opened Numbers
  import opened Texts
  import opened MimeNames
  import Base64

  // ---------------------------------------------------------------- lines and header fields

  /** No CRLF anywhere. */
  predicate NoBreak(s: string) { forall i :: 0 <= i < |s| - 1 && s[i] == '\r' ==> s[i + 1] != '\n' }

  /** The text cut at every CRLF. */
  function SplitLines(s: string): (lines: seq<string>)
    ensures |lines| >= 1
  {
    if |s| == 0 then [""]
    else if CRLF <= s then [""] + SplitLines(s[2..])
    else var rest := SplitLines(s[1..]); [[s[0]] + rest[0]] + rest[1..]
  }

  /** The index of the first blank line, or the number of lines. */
  function FirstBlank(lines: seq<string>): (i: nat)
    ensures i <= |lines|
  {
    if |lines| == 0 || lines[0] == "" then 0 else 1 + FirstBlank(lines[1..])
  }

  /** What follows the prefix in the first line that starts with it. */
  function Field(headers: seq<string>, prefix: string): Option<string> {
    if |headers| == 0 then None
    else if prefix <= headers[0] then Some(headers[0][|prefix|..])
    else Field(headers[1..], prefix)
  }

  /** How many lines start with the prefix. */
  function FieldCount(headers: seq<string>, prefix: string): nat {
    if |headers| == 0 then 0 else (if prefix <= headers[0] then 1 else 0) + FieldCount(headers[1..], prefix)
  }

  /** The header lines of a message: those before the first blank line. */
  function HeaderLines(text: string): seq<string> { SplitLines(text)[..FirstBlank(SplitLines(text))] }

  /** The content of a quoted string, read after its opening quote: a backslash quotes the next character. */
  function Unquote(s: string): Option<string>
    decreases |s|
  {
    if |s| == 0 then None
    else if s[0] == '\"' then Some("")
    else if s[0] == '\\' then
      if |s| == 1 then None
      else match Unquote(s[2..]) case None => None case Some(rest) => Some([s[1]] + rest)
    else match Unquote(s[1..]) case None => None case Some(rest) => Some([s[0]] + rest)
  }

  // ---------------------------------------------------------------- body parts

  datatype Part = Part(contentType: Option<string>, filename: Option<string>, content: Option<string>)

  /** A line that begins with two hyphens and the boundary, whatever follows. */
  predicate IsDelimiter(line: string, boundary: string) { "--" + boundary <= line }

  predicate IsClose(line: string, boundary: string) { "--" + boundary + "--" <= line }

  /** The index of the first delimiter line, or the number of lines. */
  function FirstDelimiter(lines: seq<string>, boundary: string): (i: nat)
    ensures i <= |lines|
    ensures i < |lines| ==> IsDelimiter(lines[i], boundary)
  {
    if |lines| == 0 || IsDelimiter(lines[0], boundary) then 0 else 1 + FirstDelimiter(lines[1..], boundary)
  }

  function Filename(headers: seq<string>): Option<string> {
    match Field(headers, DISPOSITION)
    case None => None
    case Some(field) => if FILENAME <= field then Unquote(field[|FILENAME|..]) else None
  }

  /** Between the header lines and the line break before the next delimiter. */
  function ReadPart(lines: seq<string>): Part {
    var blank := FirstBlank(lines);
    var headers := lines[..blank];
    var text := Join(if blank < |lines| then lines[blank + 1..] else [], CRLF);
    Part(Field(headers, CONTENT_TYPE), Filename(headers),
         if Field(headers, ENCODING) == Some("base64") then Base64.DecodeString(text) else Some(text))
  }

  /** The parts after the preamble, up to the closing delimiter; None when it is missing. */
  function ReadParts(lines: seq<string>, boundary: string): Option<seq<Part>>
    decreases |lines|
  {
    var first := FirstDelimiter(lines, boundary);
    if first == |lines| then None
    else if IsClose(lines[first], boundary) then Some([])
    else
      var rest := lines[first + 1..];
      var next := FirstDelimiter(rest, boundary);
      match ReadParts(rest[next..], boundary)
      case None => None
      case Some(parts) => Some([ReadPart(rest[..next])] + parts)
  }

  datatype Mail = PlainHtml(html: string) | Mixed(parts: seq<Part>) | Unreadable

  /** What arrives of a text sent through the Data writer of net/smtp: a line feed that does not follow a carriage
      return becomes CRLF. The dots it adds at line starts are taken away again by the receiver; the CRLF it adds to a
      text that does not end in a line break is not part of this. */
  function Relayed(s: string, afterCr: bool): string {
    if |s| == 0 then ""
    else if afterCr then [s[0]] + Relayed(s[1..], false)
    else if s[0] == '\n' then CRLF + Relayed(s[1..], false)
    else [s[0]] + Relayed(s[1..], s[0] == '\r')
  }

  /** A whole message: the header up to the first blank line, then HTML or a multipart body. */
  function ReadMessage(text: string): Mail {
    var lines := SplitLines(text);
    var blank := FirstBlank(lines);
    var rest := if blank < |lines| then lines[blank + 1..] else [];
    match Field(lines[..blank], CONTENT_TYPE)
    case None => Unreadable
    case Some(contentType) =>
      if contentType == HTML then PlainHtml(Join(rest, CRLF))
      else if !(MIXED <= contentType) then Unreadable
      else match Unquote(contentType[|MIXED|..])
        case None => Unreadable
        case Some(boundary) => match ReadParts(rest, boundary) case None => Unreadable case Some(parts) => Mixed(parts)
  }
}
