/** client/email.go, and what the server makes of the message it writes. HTML and file contents are bytes, other text is
    Unicode characters. JSON is taken as the record it encodes. */
module ClientContract {
  import opened Numbers
  import opened Texts
  import opened Models
  import opened Recipients
  import opened Delivery
  import Base64
  import Multipart
  import MimeReader
  import MimeRoundTrip

  type Octets = Base64.Octets

  datatype File = File(name: string, contentType: string, bytes: Octets)

  /** client.Email. */
  datatype Mail = Mail(
    id: string, from: string, fromName: string, to: seq<string>, cc: seq<string>, bcc: seq<string>, subject: string,
    html: Octets, files: seq<File>, callback: Option<Callback>)

  // ---------------------------------------------------------------- the client

  /** The names of the required fields that are missing. */
  function Missing(e: Mail): seq<string> {
    (if TrimSpace(e.from) == "" then ["from"] else []) + (if NonBlank(e.to) == [] then ["to"] else [])
    + (if TrimSpace(e.subject) == "" then ["subject"] else []) + (if BlankBytes(e.html) then ["html"] else [])
  }

  method Validate(e: Mail) returns (missing: seq<string>)
    ensures missing == Missing(e)
    ensures missing == []
            <==> TrimSpace(e.from) != "" && NonBlank(e.to) != [] && TrimSpace(e.subject) != "" && !BlankBytes(e.html)
  {
    missing := [];
    if TrimSpace(e.from) == "" { missing := missing + ["from"]; }
    var to := CollectNonBlank(e.to);
    if |to| == 0 { missing := missing + ["to"]; }
    if TrimSpace(e.subject) == "" { missing := missing + ["subject"]; }
    if BlankBytes(e.html) { missing := missing + ["html"]; }
  }

  /** Each missing field is named, and no other. */
  lemma {:induction false} NamesOfMissing(e: Mail)
    ensures "from" in Missing(e) <==> AllSpaces(e.from)
    ensures "to" in Missing(e) <==> forall i :: 0 <= i < |e.to| ==> AllSpaces(e.to[i])
    ensures "subject" in Missing(e) <==> AllSpaces(e.subject)
    ensures "html" in Missing(e) <==> BlankBytes(e.html)
  {
    assert "from"[0] == 'f' && "to"[0] == 't' && "subject"[0] == 's' && "html"[0] == 'h';
    TrimmedAwayIff(e.from);
    TrimmedAwayIff(e.subject);
    NothingKeptIff(e.to);
  }

  /** The email ready to be sent, with an id, or None when it is incomplete. */
  function Prepared(e: Mail, newId: string): Option<Mail> {
    if Missing(e) != [] then None else Some(if TrimSpace(e.id) == "" then e.(id := newId) else e)
  }

  method Prepare(e: Mail, newId: string) returns (ready: Option<Mail>)
    ensures ready == Prepared(e, newId)
  {
    var missing := Validate(e);
    if |missing| > 0 { return None; }
    var email := e;
    if TrimSpace(email.id) == "" { email := email.(id := newId); }
    ready := Some(email);
  }

  /** Each required field holds something other than white space. */
  ghost predicate Complete(e: Mail) {
    NotBlank(e.from) && (exists i :: 0 <= i < |e.to| && NotBlank(e.to[i])) && NotBlank(e.subject) && !BlankBytes(e.html)
  }

  /** An email is refused exactly when it is incomplete. Otherwise it is sent as it is, under the caller's id, or under
      the new one where the caller's is blank. */
  lemma {:induction false} PreparedKeeps(e: Mail, newId: string)
    ensures Prepared(e, newId).Some? <==> Complete(e)
    ensures Complete(e) ==>
              var p := Prepared(e, newId).value;
              && p.id == (if NotBlank(e.id) then e.id else newId)
              && p.from == e.from && p.fromName == e.fromName && p.to == e.to && p.cc == e.cc && p.bcc == e.bcc
              && p.subject == e.subject && p.html == e.html && p.files == e.files && p.callback == e.callback
  {
    TrimmedAwayIff(e.from);
    TrimmedAwayIff(e.subject);
    TrimmedAwayIff(e.id);
    NothingKeptIff(e.to);
  }

  lemma {:induction false} NothingKeptIff(items: seq<string>)
    ensures NonBlank(items) != [] <==> exists i :: 0 <= i < |items| && NotBlank(items[i])
  {
    if |items| > 0 {
      TrimmedAwayIff(items[0]);
      NothingKeptIff(items[1..]);
      if NonBlank(items[1..]) != [] {
        var i :| 0 <= i < |items[1..]| && NotBlank(items[1..][i]);
        assert NotBlank(items[i + 1]);
      } else {
        forall i | 0 < i < |items| ensures !NotBlank(items[i]) { assert items[1..][i - 1] == items[i]; }
      }
    }
  }

  /** The JSON object of wireEmail; None is a member left out by omitempty. */
  datatype Wire = Wire(
    id: Option<string>, from: string, fromName: Option<string>, receiver: Json, cc: Option<Json>, bcc: Option<Json>,
    subject: string, body: string, attachments: Option<seq<Attachment>>, callback: Option<Callback>)

  function OmitEmpty(s: string): Option<string> { if s == "" then None else Some(s) }

  function WireList(list: seq<string>): Json { if |list| == 0 then Null else Items(list) }

  function OmitEmptyList(list: seq<string>): Option<Json> { if |list| == 0 then None else Some(Items(list)) }

  function TypeOrDefault(contentType: string): string {
    if contentType == "" then "application/octet-stream" else contentType
  }

  function WireFile(f: File): Attachment {
    Attachment(Base64.Encode(f.bytes), f.name, TypeOrDefault(f.contentType), Some("base64"))
  }

  function WireFiles(files: seq<File>): seq<Attachment> {
    if |files| == 0 then [] else [WireFile(files[0])] + WireFiles(files[1..])
  }

  function Marshalled(e: Mail): Wire {
    Wire(OmitEmpty(e.id), TrimSpace(e.from), OmitEmpty(TrimSpace(e.fromName)), WireList(NonBlank(e.to)),
         OmitEmptyList(NonBlank(e.cc)), OmitEmptyList(NonBlank(e.bcc)), e.subject, Base64.Encode(e.html),
         if |e.files| == 0 then None else Some(WireFiles(e.files)), e.callback)
  }

  method MarshalJson(e: Mail) returns (wire: Wire)
    ensures wire == Marshalled(e)
  {
    var to := CollectNonBlank(e.to);
    var cc := CollectNonBlank(e.cc);
    var bcc := CollectNonBlank(e.bcc);
    var attachments: seq<Attachment> := [];
    for i := 0 to |e.files|
      invariant attachments + WireFiles(e.files[i..]) == WireFiles(e.files)
    {
      assert e.files[i..][1..] == e.files[i + 1..];
      attachments := attachments + [WireFile(e.files[i])];
    }
    assert attachments == WireFiles(e.files);
    wire := Wire(OmitEmpty(e.id), TrimSpace(e.from), OmitEmpty(TrimSpace(e.fromName)), WireList(to), OmitEmptyList(cc),
                 OmitEmptyList(bcc), e.subject, Base64.Encode(e.html),
                 if |attachments| == 0 then None else Some(attachments), e.callback);
  }

  // ---------------------------------------------------------------- the server

  function Text(member: Option<string>): string { if member.None? then "" else member.value }

  function ListMember(member: Option<Json>): Option<seq<string>> {
    if member.None? then Some([]) else Unmarshal(member.value)
  }

  /** json.Unmarshal into SendEmailData. */
  function Decode(wire: Wire): Option<SendEmailData> {
    var receiver, cc, bcc := Unmarshal(wire.receiver), ListMember(wire.cc), ListMember(wire.bcc);
    if receiver.None? || cc.None? || bcc.None? then None
    else Some(SendEmailData(Text(wire.id), wire.attachments, wire.body, wire.from, Text(wire.fromName), receiver.value,
                            wire.subject, cc.value, bcc.value, wire.callback))
  }

  predicate NoCommas(list: seq<string>) { forall e :: e in list ==> ',' !in e }

  lemma {:induction false} ReceiverRead(list: seq<string>)
    ensures Unmarshal(WireList(list)).Some? && ListMember(OmitEmptyList(list)) == Unmarshal(WireList(list))
    ensures Unmarshal(WireList(list)) == Unmarshal(Items(list))
  {
  }

  function AttachmentsOf(data: SendEmailData): seq<Attachment> {
    if data.attachments.None? then [] else data.attachments.value
  }

  /** The files in order, each with its name, its bytes and its type, or the default type where it has none. */
  predicate CarriesFiles(contents: seq<Multipart.Content>, files: seq<File>) {
    && |contents| == |files|
    && forall i :: 0 <= i < |files| ==>
         && contents[i].name == files[i].name && contents[i].bytes == files[i].bytes
         && contents[i].contentType
            == if files[i].contentType == "" then "application/octet-stream" else files[i].contentType
  }

  lemma {:induction false} ContentsCarry(files: seq<File>)
    ensures CarriesFiles(Contents(files), files)
  {
    if |files| > 0 { ContentsCarry(files[1..]); }
  }

  /** Empty members are left out of the JSON object, but the receivers, which are null instead; every attachment names
      its decoder. */
  lemma {:induction false} WireShape(e: Mail)
    ensures var wire := Marshalled(e);
            && (wire.id.None? <==> e.id == "") && (wire.fromName.None? <==> AllSpaces(e.fromName))
            && (wire.receiver == if NonBlank(e.to) == [] then Null else Items(NonBlank(e.to)))
            && (wire.cc == if NonBlank(e.cc) == [] then None else Some(Items(NonBlank(e.cc))))
            && (wire.bcc == if NonBlank(e.bcc) == [] then None else Some(Items(NonBlank(e.bcc))))
            && (wire.attachments.None? <==> e.files == [])
            && (wire.attachments.Some? ==>
                 forall a :: a in wire.attachments.value ==> a.decoder == Some("base64"))
  {
    TrimmedAwayIff(e.fromName);
    WireFilesShape(e.files);
  }

  lemma {:induction false} WireFilesShape(files: seq<File>)
    ensures |WireFiles(files)| == |files| && forall a :: a in WireFiles(files) ==> a.decoder == Some("base64")
  {
    if |files| > 0 { WireFilesShape(files[1..]); }
  }

  /** Whatever the email, the server decodes its wire form, and reads back its id, sender, subject, HTML bytes, files
      and callback; it reads back the cleaned recipient lists exactly when no entry that is kept contains a comma. */
  lemma {:induction false} WireContract(e: Mail)
    ensures var d := Decode(Marshalled(e));
            && d.Some?
            && var data := d.value;
               && data.id == e.id && data.from == TrimSpace(e.from) && data.fromName == TrimSpace(e.fromName)
               && data.subject == e.subject && data.callback == e.callback
               && Base64.DecodeString(data.body) == Some(e.html)
               && CarriesFiles(Multipart.Decodable(AttachmentsOf(data)), e.files)
               && ((data.receiver == NonBlank(e.to) && data.cc == NonBlank(e.cc) && data.bcc == NonBlank(e.bcc))
                   <==> NoCommas(NonBlank(e.to)) && NoCommas(NonBlank(e.cc)) && NoCommas(NonBlank(e.bcc)))
  {
    ReceiverRead(NonBlank(e.to));
    ReceiverRead(NonBlank(e.cc));
    ReceiverRead(NonBlank(e.bcc));
    WireRecipientsIff(e.to);
    WireRecipientsIff(e.cc);
    WireRecipientsIff(e.bcc);
    Base64.EncodeRoundTrip(e.html);
    FilesCarried(e.files);
  }

  lemma {:induction false} FilesCarried(files: seq<File>)
    ensures CarriesFiles(Multipart.Decodable(WireFiles(files)), files)
  {
    FilesRead(files);
    ContentsCarry(files);
  }

  /** The files as the server decodes them. */
  function Contents(files: seq<File>): seq<Multipart.Content> {
    if |files| == 0 then []
    else [Multipart.Content(files[0].name, TypeOrDefault(files[0].contentType), files[0].bytes)] + Contents(files[1..])
  }

  lemma {:induction false} FilesRead(files: seq<File>)
    ensures Multipart.Decodable(WireFiles(files)) == Contents(files)
  {
    if |files| > 0 {
      FilesRead(files[1..]);
      Base64.EncodeRoundTrip(files[0].bytes);
      assert WireFiles(files)[1..] == WireFiles(files[1..]);
    }
  }

  // ---------------------------------------------------------------- validation on both sides

  predicate CommasAndSpaces(s: string) { forall c :: c in s ==> c == ',' || IsSpace(c) }

  lemma {:induction false} HeadKept(items: seq<string>)
    requires |items| > 0
    ensures NonBlank(items) == [] <==> TrimSpace(items[0]) == "" && NonBlank(items[1..]) == []
  {
  }

  lemma {:induction false} CommasHead(s: string)
    requires |s| > 0
    ensures CommasAndSpaces(s) <==> (s[0] == ',' || IsSpace(s[0])) && CommasAndSpaces(s[1..])
  {
  }

  lemma {:induction false} TrimmedHead(c: char, s: string)
    ensures TrimSpace([c] + s) == "" <==> IsSpace(c) && TrimSpace(s) == ""
  {
    TrimmedAwayIff([c] + s);
    TrimmedAwayIff(s);
    assert c in [c] + s;
  }

  /** A list parses to no recipient exactly when it is made of commas and spaces. */
  lemma {:induction false} ParsesToNothingIff(s: string)
    ensures ParseRecipients(s) == [] <==> CommasAndSpaces(s)
  {
    if |s| == 0 {
      ParseEmpty();
    } else {
      var rest := SplitCommas(s[1..]);
      ParsesToNothingIff(s[1..]);
      CommasHead(s);
      HeadKept(SplitCommas(s));
      HeadKept(rest);
      if s[0] == ',' {
        assert SplitCommas(s)[1..] == rest;
      } else {
        assert SplitCommas(s)[0] == [s[0]] + rest[0] && SplitCommas(s)[1..] == rest[1..];
        TrimmedHead(s[0], rest[0]);
      }
    }
  }

  lemma {:induction false} CommasConcat(a: string, b: string)
    ensures CommasAndSpaces(a + "," + b) <==> CommasAndSpaces(a) && CommasAndSpaces(b)
  {
  }

  lemma {:induction false} JoinOfCommas(items: seq<string>)
    ensures CommasAndSpaces(Join(items, ",")) <==> forall i :: 0 <= i < |items| ==> CommasAndSpaces(items[i])
  {
    if |items| > 0 {
      JoinOfCommas(items[1..]);
      assert (forall i :: 0 <= i < |items| ==> CommasAndSpaces(items[i]))
          <==> CommasAndSpaces(items[0]) && forall i :: 0 <= i < |items[1..]| ==> CommasAndSpaces(items[1..][i]) by {
        assert forall i :: 1 <= i < |items| ==> items[i] == items[1..][i - 1];
      }
      if |items| > 1 { CommasConcat(items[0], Join(items[1..], ",")); }
    }
  }

  /** The server's answer finds fault with the request itself. */
  predicate Blamed(data: SendEmailData, env: Env) {
    var error := SendError(data, env); error.Some? && error.value.BlamesMessage()
  }

  lemma {:induction false} BlamedIff(data: SendEmailData, html: Octets, env: Env)
    requires Base64.DecodeString(data.body) == Some(html)
    requires env.transport.Some? ==> !env.transport.value.BlamesMessage()
    ensures Blamed(data, env) <==>
              TrimSpace(data.from) == "" || |data.receiver| == 0 || TrimSpace(data.subject) == "" || BlankBytes(html)
  {
  }

  predicate AllCommasAndSpaces(list: seq<string>) { forall i :: 0 <= i < |list| ==> CommasAndSpaces(list[i]) }

  lemma {:induction false} ReceiverEmptyIff(list: seq<string>)
    ensures Unmarshal(WireList(list)).Some? && (Unmarshal(WireList(list)).value == [] <==> AllCommasAndSpaces(list))
  {
    ReceiverRead(list);
    ParsesToNothingIff(Join(list, ","));
    JoinOfCommas(list);
  }

  /** The server finds fault with a prepared email itself exactly when every recipient that was kept is made of commas
      and spaces; so never when no recipient contains a comma. The transports report no message_* code of their own. */
  lemma {:induction false} BlamedOnlyForCommas(e: Mail, newId: string, env: Env)
    requires Prepared(e, newId).Some? && (env.transport.Some? ==> !env.transport.value.BlamesMessage())
    ensures var decoded := Decode(Marshalled(Prepared(e, newId).value));
            && decoded.Some?
            && (Blamed(decoded.value, env) <==> AllCommasAndSpaces(NonBlank(e.to)))
            && (NoCommas(e.to) ==> !Blamed(decoded.value, env))
  {
    var ready := Prepared(e, newId).value;
    WireContract(ready);
    BlamedIff(Decode(Marshalled(ready)).value, e.html, env);
    ReceiverEmptyIff(NonBlank(e.to));
    TrimSpaceResult(e.from);
    if NoCommas(e.to) { KeptHaveNoCommas(e.to); }
  }

  lemma {:induction false} KeptHaveNoCommas(items: seq<string>)
    requires NoCommas(items) && NonBlank(items) != []
    ensures !AllCommasAndSpaces(NonBlank(items))
  {
    NonBlankEntries(items);
    var first := NonBlank(items)[0];
    KeptComeFrom(items, first);
    assert first in NonBlank(items) && first[0] in first && ',' !in first;
  }

  lemma {:induction false} KeptComeFrom(items: seq<string>, r: string)
    requires NoCommas(items) && r in NonBlank(items)
    ensures ',' !in r
  {
    TrimSpaceResult(items[0]);
    assert items[0] in items;
    if r in NonBlank(items[1..]) { KeptComeFrom(items[1..], r); }
  }

  // ---------------------------------------------------------------- from the client to the inbox

  /** The email the server hands to the SMTP sender for a client's email. */
  function HandedToSender(e: Mail): Option<SendEmailData> {
    match Decode(Marshalled(e)) case None => None case Some(data) => Decoded(data)
  }

  /** The message written for a client's email; `from` and `subject` are the rendered header values. */
  function MessageFor(data: SendEmailData, html: Octets, from: string, subject: string): string {
    var attachments := Multipart.Decodable(AttachmentsOf(data));
    Multipart.Written(Multipart.TopHeaders(from, data.receiver, data.cc, subject), html, attachments)
  }

  /** The types hold no CRLF, the names no CRLF, quote or backslash. */
  predicate CleanFiles(files: seq<File>) {
    forall i :: 0 <= i < |files| ==>
      && MimeReader.NoBreak(files[i].contentType) && MimeReader.NoBreak(files[i].name)
      && MimeRoundTrip.Plain(files[i].name)
  }

  /** The types and the names hold neither carriage returns nor line feeds. */
  predicate OneLineFiles(files: seq<File>) {
    forall i :: 0 <= i < |files| ==>
      MimeRoundTrip.OneLine(files[i].contentType) && MimeRoundTrip.OneLine(files[i].name)
  }

  predicate PlainFiles(files: seq<File>) { forall i :: 0 <= i < |files| ==> MimeRoundTrip.Plain(files[i].name) }

  /** The reader got the HTML, then the files in order, each with its name, bytes and type. */
  predicate Delivers(mail: MimeReader.Mail, e: Mail) {
    && mail.Mixed? && |mail.parts| == 1 + |e.files|
    && mail.parts[0] == MimeReader.Part(Some("text/html; charset=UTF-8"), None, Some(e.html))
    && forall i :: 0 <= i < |e.files| ==> IsPartOf(mail.parts[i + 1], e.files[i])
  }

  predicate IsPartOf(part: MimeReader.Part, f: File) {
    && part.filename == Some(f.name) && part.content == Some(f.bytes)
    && part.contentType == Some(if f.contentType == "" then "application/octet-stream" else f.contentType)
  }

  /** The parts a reader is meant to get. */
  function PartsFor(e: Mail): MimeReader.Mail {
    MimeReader.Mixed([MimeRoundTrip.HtmlPart(e.html)] + MimeRoundTrip.PartsOf(Contents(e.files)))
  }

  lemma {:induction false} PartsAre(contents: seq<Multipart.Content>)
    ensures var parts := MimeRoundTrip.PartsOf(contents);
            |parts| == |contents| && forall i :: 0 <= i < |contents| ==> parts[i] == MimeRoundTrip.PartOf(contents[i])
  {
    if |contents| > 0 { PartsAre(contents[1..]); }
  }

  lemma {:induction false} DeliversIff(mail: MimeReader.Mail, e: Mail)
    ensures Delivers(mail, e) <==> mail == PartsFor(e)
  {
    PartsDelivered(e);
    if Delivers(mail, e) {
      var meant := PartsFor(e).parts;
      forall i | 0 <= i < |meant| ensures mail.parts[i] == meant[i] {
        if i > 0 { assert IsPartOf(mail.parts[i], e.files[i - 1]) && IsPartOf(meant[i], e.files[i - 1]); }
      }
      assert mail.parts == meant;
    }
  }

  lemma {:induction false} PartsDelivered(e: Mail)
    ensures Delivers(PartsFor(e), e)
  {
    ContentsCarry(e.files);
    PartsAre(Contents(e.files));
  }

  lemma {:induction false} TypesAlike(files: seq<File>, i: nat)
    requires i < |files| && CarriesFiles(Contents(files), files)
    ensures Contents(files)[i].name == files[i].name
    ensures MimeReader.NoBreak(Contents(files)[i].contentType) <==> MimeReader.NoBreak(files[i].contentType)
    ensures MimeRoundTrip.OneLine(Contents(files)[i].contentType) <==> MimeRoundTrip.OneLine(files[i].contentType)
  {
    assert MimeRoundTrip.OneLine("application/octet-stream");
    MimeRoundTrip.OneLineHasNoBreak("application/octet-stream");
  }

  lemma {:induction false} CleanIff(files: seq<File>)
    ensures MimeRoundTrip.AllClean(Contents(files)) <==> CleanFiles(files)
  {
    ContentsCarry(files);
    forall i | 0 <= i < |files|
      ensures MimeRoundTrip.Clean(Contents(files)[i]) <==>
                && MimeReader.NoBreak(files[i].contentType) && MimeReader.NoBreak(files[i].name)
                && MimeRoundTrip.Plain(files[i].name)
    {
      TypesAlike(files, i);
    }
  }

  lemma {:induction false} PlainIff(files: seq<File>)
    ensures MimeRoundTrip.AllPlain(Contents(files)) <==> PlainFiles(files)
    ensures MimeRoundTrip.OneLined(Contents(files)) <==> OneLineFiles(files)
  {
    ContentsCarry(files);
    forall i | 0 <= i < |files|
      ensures Contents(files)[i].name == files[i].name
      ensures MimeRoundTrip.OneLine(Contents(files)[i].contentType) <==> MimeRoundTrip.OneLine(files[i].contentType)
    {
      TypesAlike(files, i);
    }
  }

  /** Through the wire, the server and the MIME message: a reader of the message gets the client's HTML bytes, and with
      files, the files, in order, with their types and identical bytes, exactly when their types hold no CRLF and their
      names no CRLF, quote or backslash. */
  lemma {:induction false} ClientToMessage(e: Mail, from: string, subject: string)
    requires HandedToSender(e).Some? ==>
               var data := HandedToSender(e).value;
               && MimeReader.NoBreak(from) && MimeReader.NoBreak(Show(data.receiver))
               && MimeReader.NoBreak(Show(data.cc)) && MimeReader.NoBreak(subject)
    ensures HandedToSender(e).Some? && HandedToSender(e).value.body == e.html
    ensures var mail := MimeReader.ReadMessage(MessageFor(HandedToSender(e).value, e.html, from, subject));
            if e.files == [] then mail == MimeReader.PlainHtml(e.html) else Delivers(mail, e) <==> CleanFiles(e.files)
  {
    HandedFiles(e);
    var data := HandedToSender(e).value;
    MimeRoundTrip.MessageRoundTrip(from, subject, data, e.html);
    DeliversIff(MimeReader.ReadMessage(MessageFor(data, e.html, from, subject)), e);
    CleanIff(e.files);
  }

  lemma {:induction false} HandedFiles(e: Mail)
    ensures HandedToSender(e).Some? && HandedToSender(e).value.body == e.html
    ensures Multipart.Decodable(AttachmentsOf(HandedToSender(e).value)) == Contents(e.files)
  {
    WireContract(e);
    FilesRead(e.files);
  }

  /** And on to the inbox, for header values, types and names without carriage returns and line feeds: with files, the
      reader gets the HTML and the files exactly when no name holds a quote or a backslash; without, the HTML with its
      bare line feeds turned into CRLF. */
  lemma {:induction false} ClientToInbox(e: Mail, from: string, subject: string)
    requires HandedToSender(e).Some? ==>
               var data := HandedToSender(e).value;
               && MimeRoundTrip.OneLine(from) && MimeRoundTrip.OneLine(Show(data.receiver))
               && MimeRoundTrip.OneLine(Show(data.cc)) && MimeRoundTrip.OneLine(subject)
    requires OneLineFiles(e.files)
    ensures HandedToSender(e).Some? && HandedToSender(e).value.body == e.html
    ensures var message := MessageFor(HandedToSender(e).value, e.html, from, subject);
            var mail := MimeReader.ReadMessage(MimeReader.Relayed(message, false));
            if e.files == [] then mail == MimeReader.PlainHtml(MimeReader.Relayed(e.html, false))
            else Delivers(mail, e) <==> PlainFiles(e.files)
  {
    HandedFiles(e);
    PlainIff(e.files);
    var data := HandedToSender(e).value;
    MimeRoundTrip.ArrivalRoundTrip(from, subject, data, e.html);
    DeliversIff(MimeReader.ReadMessage(MimeReader.Relayed(MessageFor(data, e.html, from, subject), false)), e);
  }
}
