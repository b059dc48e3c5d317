/** internal/core/model and validateEmail of internal/infrastructure/mailer/content.go. */
module Models {
  import opened Numbers
  import opened Texts

  datatype ErrorCode =
    | MessageInvalidJson | MessageInvalidBody | MessageMissingSender | MessageMissingReceiver
    | MessageMissingSubject | MessageMissingBody
    | SmtpConnectionFailed | SmtpAuthorizationDenied | SmtpSenderRejected | SmtpReceiverRejected
    | SmtpMessageRejected | SmtpTemporaryFailure
    | ApiConnectionFailed | ApiAuthorizationDenied | ApiSenderNotAllowed | ApiInvalidReceiver
    | ApiInvalidAttachment | ApiInvalidRequest | ApiQuotaExceeded | ApiRateLimited
    | ApiProviderUnavailable | ApiUnexpectedResponse
    | UnknownError
  {
    predicate Retryable() {
      ApiConnectionFailed? || ApiRateLimited? || ApiProviderUnavailable? || SmtpConnectionFailed?
        || SmtpTemporaryFailure?
    }

    /** The codes written message_*: the request itself is at fault. */
    predicate BlamesMessage() {
      || MessageInvalidJson? || MessageInvalidBody? || MessageMissingSender? || MessageMissingReceiver?
      || MessageMissingSubject? || MessageMissingBody?
    }
  }

  datatype Attachment = Attachment(data: string, name: string, contentType: string, decoder: Option<string>)

  datatype CallbackTarget = CallbackTarget(url: string)

  datatype Callback = Callback(success: Option<CallbackTarget>, failure: Option<CallbackTarget>)

  /** An email request. `body` is base64 text on the wire and bytes, one character each, once decoded. */
  datatype SendEmailData = SendEmailData(
    id: string, attachments: Option<seq<Attachment>>, body: string, from: string, fromName: string,
    receiver: seq<string>, subject: string, cc: seq<string>, bcc: seq<string>, callback: Option<Callback>)

  /** The length of the white-space character at the start of UTF-8 bytes, 0 when there is none. */
  function LeadingSpaceBytes(b: string): (n: nat)
    ensures n <= |b|
  {
    if |b| == 0 then 0
    else if 9 <= b[0] as int <= 13 || b[0] == ' ' then 1
    else if |b| >= 2 && b[0] as int == 0xC2 && (b[1] as int == 0x85 || b[1] as int == 0xA0) then 2
    else if |b| >= 3 && b[0] as int == 0xE1 && b[1] as int == 0x9A && b[2] as int == 0x80 then 3
    else if |b| >= 3 && b[0] as int == 0xE2 && b[1] as int == 0x80
            && (0x80 <= b[2] as int <= 0x8A || b[2] as int in {0xA8, 0xA9, 0xAF}) then 3
    else if |b| >= 3 && b[0] as int == 0xE2 && b[1] as int == 0x81 && b[2] as int == 0x9F then 3
    else if |b| >= 3 && b[0] as int == 0xE3 && b[1] as int == 0x80 && b[2] as int == 0x80 then 3
    else 0
  }

  /** strings.TrimSpace of the bytes leaves nothing. */
  predicate BlankBytes(b: string)
    decreases |b|
  {
    |b| == 0 || (LeadingSpaceBytes(b) > 0 && BlankBytes(b[LeadingSpaceBytes(b)..]))
  }

  /** validateEmail, which every sender runs first, on the decoded email. */
  function ValidateEmail(data: SendEmailData): Option<ErrorCode> {
    if TrimSpace(data.from) == "" then Some(MessageMissingSender)
    else if |data.receiver| == 0 then Some(MessageMissingReceiver)
    else if TrimSpace(data.subject) == "" then Some(MessageMissingSubject)
    else if BlankBytes(data.body) then Some(MessageMissingBody)
    else None
  }
}
