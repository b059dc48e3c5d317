/** The header fields of the SMTP message, as the reader finds them. */
module MimeHeaders {
  import opened Numbers
  import opened Texts
  import opened Models
  import opened Base64
  import opened Recipients
  import opened MimeNames
  import opened MimeReader
  import opened Multipart
  import opened MimeRoundTrip

  // ---------------------------------------------------------------- named fields

  /** A header line: the field's name with its colon and space, and its value. */
  datatype Named = Named(name: string, value: string)

  function Lines(fields: seq<Named>): seq<string> {
    if |fields| == 0 then [] else [fields[0].name + fields[0].value] + Lines(fields[1..])
  }

  /** The names differ within their first two characters. */
  predicate Differ(a: string, b: string) { |a| >= 2 && |b| >= 2 && (a[0] != b[0] || a[1] != b[1]) }

  predicate AllDiffer(fields: seq<Named>) {
    forall i, j :: 0 <= i < j < |fields| ==> Differ(fields[i].name, fields[j].name)
  }

  lemma {:induction false} NoSuchField(fields: seq<Named>, name: string)
    requires forall i :: 0 <= i < |fields| ==> Differ(fields[i].name, name)
    ensures Field(Lines(fields), name) == None && FieldCount(Lines(fields), name) == 0
  {
    if |fields| > 0 {
      assert Differ(fields[0].name, name) && Lines(fields)[1..] == Lines(fields[1..]);
      NoSuchField(fields[1..], name);
    }
  }

  lemma {:induction false} FieldFound(fields: seq<Named>, i: nat)
    requires AllDiffer(fields) && i < |fields|
    ensures Field(Lines(fields), fields[i].name) == Some(fields[i].value)
    ensures FieldCount(Lines(fields), fields[i].name) == 1
  {
    var name := fields[i].name;
    assert Lines(fields)[1..] == Lines(fields[1..]);
    if i == 0 {
      assert Lines(fields)[0][|name|..] == fields[0].value;
      forall j | 0 <= j < |fields[1..]| ensures Differ(fields[1..][j].name, name) {
        assert Differ(fields[0].name, fields[j + 1].name);
      }
      NoSuchField(fields[1..], name);
    } else {
      assert Differ(fields[0].name, name);
      FieldFound(fields[1..], i - 1);
    }
  }

  // ---------------------------------------------------------------- the top header

  const FROM := "From: "
  const TO := "To: "
  const CC := "Cc: "
  const SUBJECT := "Subject: "
  const VERSION := "MIME-Version: "

  /** What the fields of a message's header say, each of them once and no others; the recipients as a parser reads
      them. */
  ghost predicate HeaderSays(headers: seq<string>, from: string, to: seq<string>, cc: seq<string>, subject: string) {
    && |headers| == (if |cc| == 0 then 5 else 6)
    && Field(headers, FROM) == Some(from) && FieldCount(headers, FROM) == 1
    && Field(headers, SUBJECT) == Some(subject) && FieldCount(headers, SUBJECT) == 1
    && Field(headers, VERSION) == Some("1.0") && FieldCount(headers, VERSION) == 1
    && FieldCount(headers, CONTENT_TYPE) == 1
    && Lists(headers, TO, to) && (if |cc| == 0 then FieldCount(headers, CC) == 0 else Lists(headers, CC, cc))
  }

  /** The field is there once and lists the recipients, separated by a comma and a space. */
  ghost predicate Lists(headers: seq<string>, name: string, recipients: seq<string>) {
    && Field(headers, name) == Some(Join(recipients, ", ")) && FieldCount(headers, name) == 1
    && (AllEntries(recipients) ==> ParseRecipients(Field(headers, name).value) == recipients)
  }

  /** The header fields written, by name. */
  function TopFields(from: string, to: seq<string>, cc: seq<string>, subject: string, contentType: string): seq<Named> {
    if |cc| == 0
    then [Named(FROM, from), Named(TO, Show(to)), Named(SUBJECT, subject), Named(VERSION, "1.0"),
          Named(CONTENT_TYPE, contentType)]
    else [Named(FROM, from), Named(TO, Show(to)), Named(CC, Show(cc)), Named(SUBJECT, subject), Named(VERSION, "1.0"),
          Named(CONTENT_TYPE, contentType)]
  }

  predicate IsName(name: string) { name in {FROM, TO, CC, SUBJECT, VERSION, CONTENT_TYPE} }

  lemma {:induction false} NamesDiffer()
    ensures forall a, b :: IsName(a) && IsName(b) && a != b ==> Differ(a, b)
  {
  }

  lemma {:induction false} TopFieldsDiffer(from: string, to: seq<string>, cc: seq<string>, subject: string,
      contentType: string)
    ensures AllDiffer(TopFields(from, to, cc, subject, contentType))
  {
    NamesDiffer();
  }

  lemma {:induction false} LinesStep(first: Named, rest: seq<Named>)
    ensures Lines([first] + rest) == [first.name + first.value] + Lines(rest)
  {
  }

  lemma {:induction false} TopFieldsAreTop(from: string, to: seq<string>, cc: seq<string>, subject: string,
      contentType: string)
    ensures Lines(TopFields(from, to, cc, subject, contentType))
            == TopHeaders(from, to, cc, subject) + [CONTENT_TYPE + contentType]
  {
    var end := EndFields(subject, contentType);
    EndFieldLines(subject, contentType);
    var after := if |cc| == 0 then end else [Named(CC, Show(cc))] + end;
    LinesStep(Named(CC, Show(cc)), end);
    LinesStep(Named(TO, Show(to)), after);
    LinesStep(Named(FROM, from), [Named(TO, Show(to))] + after);
    assert TopFields(from, to, cc, subject, contentType) == [Named(FROM, from)] + ([Named(TO, Show(to))] + after);
  }

  function EndFields(subject: string, contentType: string): seq<Named> {
    [Named(SUBJECT, subject), Named(VERSION, "1.0"), Named(CONTENT_TYPE, contentType)]
  }

  lemma {:induction false} EndFieldLines(subject: string, contentType: string)
    ensures Lines(EndFields(subject, contentType))
            == ["Subject: " + subject, "MIME-Version: 1.0", CONTENT_TYPE + contentType]
  {
    var last := [Named(CONTENT_TYPE, contentType)];
    LinesStep(Named(CONTENT_TYPE, contentType), []);
    LinesStep(Named(VERSION, "1.0"), last);
    LinesStep(Named(SUBJECT, subject), [Named(VERSION, "1.0")] + last);
    assert EndFields(subject, contentType) == [Named(SUBJECT, subject)] + ([Named(VERSION, "1.0")] + last);
    assert VERSION + "1.0" == "MIME-Version: 1.0";
  }

  lemma {:induction false} TopSays(from: string, to: seq<string>, cc: seq<string>, subject: string, contentType: string)
    ensures HeaderSays(TopHeaders(from, to, cc, subject) + [CONTENT_TYPE + contentType], from, to, cc, subject)
  {
    var fields := TopFields(from, to, cc, subject, contentType);
    TopFieldsDiffer(from, to, cc, subject, contentType);
    TopFieldsAreTop(from, to, cc, subject, contentType);
    var n := |fields|;
    FieldFound(fields, 0);
    FieldFound(fields, 1);
    FieldFound(fields, n - 3);
    FieldFound(fields, n - 2);
    FieldFound(fields, n - 1);
    if AllEntries(to) { ShowRoundTrip(to); }
    if AllEntries(cc) { ShowRoundTrip(cc); }
    if |cc| == 0 {
      NamesDiffer();
      NoSuchField(fields, CC);
    } else {
      FieldFound(fields, 2);
    }
  }

  /** The Content-Type of the written message. */
  function TopType(body: Octets, contents: seq<Content>): string {
    if |contents| == 0 then HTML else MIXED + (Boundary(body, contents) + "\"")
  }

  lemma {:induction false} WrittenHeader(top: seq<string>, body: Octets, contents: seq<Content>)
    requires forall i :: 0 <= i < |top| ==> OtherField(top[i])
    ensures HeaderLines(Written(top, body, contents)) == top + [CONTENT_TYPE + TopType(body, contents)]
  {
    if |contents| == 0 {
      PlainHeader(top, body);
    } else {
      var boundary := Boundary(body, contents);
      BoundaryIsGood(body, contents);
      CrlfConcat(top + [TypeLine(boundary), ""], MixedLines(boundary, body, contents));
      HeaderRead(top, MIXED + (boundary + "\""), Crlf(MixedLines(boundary, body, contents)));
    }
  }

  lemma {:induction false} PlainHeader(top: seq<string>, html: string)
    requires forall i :: 0 <= i < |top| ==> OtherField(top[i])
    ensures HeaderLines(Crlf(top + [CONTENT_TYPE + HTML, ""]) + html) == top + [CONTENT_TYPE + HTML]
  {
    assert NoBreak(CONTENT_TYPE + HTML);
    HeaderRead(top, HTML, html);
  }

  /** The header of the message as a reader finds it, for rendered values without CRLF: each field once, with the
      sender, the subject, the recipients in To and the carbon copies in Cc, which is left out when there are none. */
  lemma {:induction false} HeaderRoundTrip(from: string, subject: string, data: SendEmailData, body: Octets)
    requires NoBreak(from) && NoBreak(Show(data.receiver)) && NoBreak(Show(data.cc)) && NoBreak(subject)
    ensures var contents := Decodable(if data.attachments.None? then [] else data.attachments.value);
            var message := Written(TopHeaders(from, data.receiver, data.cc, subject), body, contents);
            HeaderSays(HeaderLines(message), from, data.receiver, data.cc, subject)
  {
    var contents := Decodable(if data.attachments.None? then [] else data.attachments.value);
    TopHeadersFit(from, data.receiver, data.cc, subject);
    WrittenHeader(TopHeaders(from, data.receiver, data.cc, subject), body, contents);
    TopSays(from, data.receiver, data.cc, subject, TopType(body, contents));
  }

  /** And as it arrives, for values, types and names without carriage returns and line feeds. */
  lemma {:induction false} HeaderArrives(from: string, subject: string, data: SendEmailData, body: Octets)
    requires OneLine(from) && OneLine(Show(data.receiver)) && OneLine(Show(data.cc)) && OneLine(subject)
    requires OneLined(Decodable(if data.attachments.None? then [] else data.attachments.value))
    ensures var contents := Decodable(if data.attachments.None? then [] else data.attachments.value);
            var message := Written(TopHeaders(from, data.receiver, data.cc, subject), body, contents);
            HeaderSays(HeaderLines(Relayed(message, false)), from, data.receiver, data.cc, subject)
  {
    var contents := Decodable(if data.attachments.None? then [] else data.attachments.value);
    var top := TopHeaders(from, data.receiver, data.cc, subject);
    OneLineHasNoBreak(from);
    OneLineHasNoBreak(Show(data.receiver));
    OneLineHasNoBreak(Show(data.cc));
    OneLineHasNoBreak(subject);
    TopIsOneLined(from, data.receiver, data.cc, subject);
    MessageRelayed(top, body, contents);
    if contents == [] {
      TopHeadersFit(from, data.receiver, data.cc, subject);
      PlainHeader(top, Relayed(body, false));
      TopSays(from, data.receiver, data.cc, subject, HTML);
    } else {
      HeaderRoundTrip(from, subject, data, body);
    }
  }

  /** The boundary ends in the number of body bytes and attachments. */
  lemma {:induction false} BoundaryCounts(body: Octets, contents: seq<Content>)
    requires |body| + |contents| < TWO_63
    ensures var prefix := "boundary_"; var boundary := Boundary(body, contents);
            prefix <= boundary && Atoi(boundary[|prefix|..]) == Some(|body| + |contents|)
  {
    AtoiItoa(|body| + |contents|);
    assert Boundary(body, contents)[9..] == Itoa(|body| + |contents|);
  }
}
