/** internal/core/mailer/service.go and internal/adapter/consumer/mailer_consumer.go: what one attempt does. */
module Delivery {
  import opened Numbers
  import opened Texts
  import opened Models
  import opened RetryPolicies
  import Base64

  datatype Action = Done | Retry | DeadLetter

  datatype Status = Sent | Failed

  datatype DeliveryEvent = DeliveryEvent(id: string, subject: string, status: Status, code: Option<ErrorCode>)

  datatype Outcome = Outcome(event: DeliveryEvent, failed: bool, action: Action, retryIn: int64)

  /** A message body from a queue. */
  datatype Message = Malformed(text: string) | Email(data: SendEmailData)

  /** What the outside answers: the transport (None accepts the email) and the notified endpoint. */
  datatype Env = Env(transport: Option<ErrorCode>, endpointAccepts: bool)

  /** A call to the sender, or to the notifier together with its answer. */
  datatype Effect = Handed(email: SendEmailData) | Notified(url: string, event: DeliveryEvent, accepted: bool)

  datatype Report = Report(outcome: Outcome, effects: seq<Effect>) {
    /** The transport accepted the email. */
    predicate IsSent() { !outcome.failed }

    /** The failure callback accepted the failure. */
    predicate IsAccepted() { outcome.failed && outcome.action.Done? }

    /** The email failed for good. */
    predicate GivesUp() { outcome.failed && !outcome.action.Retry? }

    predicate IsTemporary() { outcome.event.code.Some? && outcome.event.code.value in TEMPORARY }
  }

  function UsableTarget(target: Option<CallbackTarget>): Option<CallbackTarget> {
    if target.Some? && TrimSpace(target.value.url) != "" then target else None
  }

  function SuccessTarget(data: SendEmailData): Option<CallbackTarget> {
    match data.callback case None => None case Some(c) => UsableTarget(c.success)
  }

  function FailureTarget(data: SendEmailData): Option<CallbackTarget> {
    match data.callback case None => None case Some(c) => UsableTarget(c.failure)
  }

  /** The email the sender gets: body decoded, callback removed. */
  function Decoded(data: SendEmailData): Option<SendEmailData> {
    match Base64.DecodeString(data.body)
    case None => None
    case Some(bytes) => Some(data.(body := bytes, callback := None))
  }

  /** The error of an attempt to send, if any. */
  function SendError(data: SendEmailData, env: Env): Option<ErrorCode> {
    match Decoded(data)
    case None => Some(MessageInvalidBody)
    case Some(email) => match ValidateEmail(email) case Some(code) => Some(code) case None => env.transport
  }

  function SendEffects(data: SendEmailData): seq<Effect> {
    match Decoded(data) case None => [] case Some(email) => [Handed(email)]
  }

  function SentEvent(data: SendEmailData): DeliveryEvent { DeliveryEvent(data.id, data.subject, Sent, None) }

  function FailedEvent(data: SendEmailData, code: ErrorCode): DeliveryEvent {
    DeliveryEvent(data.id, data.subject, Failed, Some(code))
  }

  function NotifySuccess(data: SendEmailData, env: Env): seq<Effect> {
    match SuccessTarget(data)
    case None => []
    case Some(target) => [Notified(target.url, SentEvent(data), env.endpointAccepts)]
  }

  function HandleFailure(data: SendEmailData, code: ErrorCode, p: RetryPolicy, attempt: int, canRetry: bool,
      env: Env): Report {
    var event := FailedEvent(data, code);
    if canRetry && code.Retryable() then Report(Outcome(event, true, Retry, p.Delay(attempt)), [])
    else match FailureTarget(data)
      case None => Report(Outcome(event, true, DeadLetter, 0), [])
      case Some(target) =>
        Report(Outcome(event, true, if env.endpointAccepts then Done else DeadLetter, 0),
               [Notified(target.url, event, env.endpointAccepts)])
  }

  function Attempt(data: SendEmailData, p: RetryPolicy, attempt: int, canRetry: bool, env: Env): Report {
    match SendError(data, env)
    case None => Report(Outcome(SentEvent(data), false, Done, 0), SendEffects(data) + NotifySuccess(data, env))
    case Some(code) =>
      var failure := HandleFailure(data, code, p, attempt, canRetry, env);
      Report(failure.outcome, SendEffects(data) + failure.effects)
  }

  /** MailerConsumer.Handle; a message that is not valid JSON goes straight to the dead letters. */
  function Handle(message: Message, p: RetryPolicy, attempt: int, env: Env): Report {
    match message
    case Malformed(_) =>
      Report(Outcome(DeliveryEvent("", "", Failed, Some(MessageInvalidJson)), true, DeadLetter, 0), [])
    case Email(data) => Attempt(data, p, attempt, p.CanRetry(attempt), env)
  }

  /** The service with the calls it has made. */
  class Service {
    const policy: RetryPolicy
    var effects: seq<Effect>

    constructor (policy: RetryPolicy)
      ensures this.policy == policy && effects == []
    {
      this.policy := policy;
      effects := [];
    }

    method Deliver(data: SendEmailData, attempt: int64, env: Env) returns (outcome: Outcome)
      modifies this
      ensures var r := Handle(Email(data), policy, attempt, env);
              outcome == r.outcome && effects == old(effects) + r.effects
    {
      outcome := DeliverWith(data, attempt, attempt < policy.maxAttempts, env);
    }

    /** A synchronous source: one final attempt. */
    method DeliverOnce(data: SendEmailData, env: Env) returns (outcome: Outcome)
      modifies this
      ensures var r := Attempt(data, policy, 1, false, env); outcome == r.outcome && effects == old(effects) + r.effects
      ensures !outcome.action.Retry?
    {
      outcome := DeliverWith(data, 1, false, env);
    }

    method DeliverWith(data: SendEmailData, attempt: int64, canRetry: bool, env: Env) returns (outcome: Outcome)
      modifies this
      ensures var r := Attempt(data, policy, attempt, canRetry, env);
              outcome == r.outcome && effects == old(effects) + r.effects
    {
      var error := Send(data, env);
      if error.Some? {
        outcome := HandleFailed(data, error.value, attempt, canRetry, env);
        return;
      }
      var event := SentEvent(data);
      var target := SuccessTarget(data);
      if target.Some? {
        effects := effects + [Notified(target.value.url, event, env.endpointAccepts)];
      }
      outcome := Outcome(event, false, Done, 0);
    }

    method Send(data: SendEmailData, env: Env) returns (error: Option<ErrorCode>)
      modifies this
      ensures error == SendError(data, env) && effects == old(effects) + SendEffects(data)
    {
      var decoded := Base64.DecodeString(data.body);
      if decoded.None? { return Some(MessageInvalidBody); }
      var email := data.(body := decoded.value, callback := None);
      effects := effects + [Handed(email)];
      error := ValidateEmail(email);
      if error.None? { error := env.transport; }
    }

    method HandleFailed(data: SendEmailData, code: ErrorCode, attempt: int64, canRetry: bool, env: Env)
      returns (outcome: Outcome)
      modifies this
      ensures var r := HandleFailure(data, code, policy, attempt, canRetry, env);
              outcome == r.outcome && effects == old(effects) + r.effects
    {
      outcome := Outcome(FailedEvent(data, code), true, Done, 0);
      if canRetry && code.Retryable() {
        var delay, _ := policy.ComputeDelay(attempt);
        return outcome.(action := Retry, retryIn := delay);
      }
      var target := FailureTarget(data);
      if target.None? { return outcome.(action := DeadLetter); }
      effects := effects + [Notified(target.value.url, outcome.event, env.endpointAccepts)];
      if !env.endpointAccepts { outcome := outcome.(action := DeadLetter); }
    }
  }

  // ---------------------------------------------------------------- what the actions mean

  predicate NotifiesNothing(r: Report) { forall e :: e in r.effects ==> e.Handed? }

  /** Why an attempt fails: the first fault of the request in this order, or what the transport answers. */
  predicate IsErrorOf(data: SendEmailData, env: Env, code: Option<ErrorCode>) {
    match Base64.DecodeString(data.body)
    case None => code == Some(MessageInvalidBody)
    case Some(html) =>
      if !NotBlank(data.from) then code == Some(MessageMissingSender)
      else if |data.receiver| == 0 then code == Some(MessageMissingReceiver)
      else if !NotBlank(data.subject) then code == Some(MessageMissingSubject)
      else if BlankBytes(html) then code == Some(MessageMissingBody)
      else code == env.transport
  }

  /** The sender gets the request as it came, with its body decoded and without its callback. */
  predicate IsEmailOf(data: SendEmailData, email: SendEmailData) {
    && email.id == data.id && email.attachments == data.attachments && email.from == data.from
    && email.fromName == data.fromName && email.receiver == data.receiver && email.subject == data.subject
    && email.cc == data.cc && email.bcc == data.bcc && email.callback == None
    && Base64.DecodeString(data.body) == Some(email.body)
  }

  /** What an attempt reports and hands over: the code is that of the fault, the event names the request, and a request
      whose body decodes is handed to the sender once, before any callback. */
  lemma {:induction false} AttemptMeaning(data: SendEmailData, p: RetryPolicy, attempt: int, env: Env)
    ensures var r := Handle(Email(data), p, attempt, env); var event := r.outcome.event;
            && IsErrorOf(data, env, event.code) && (r.outcome.failed <==> event.code.Some?)
            && event.id == data.id && event.subject == data.subject && (event.status.Failed? <==> r.outcome.failed)
            && (Base64.DecodeString(data.body).Some? <==>
                 |r.effects| > 0 && r.effects[0].Handed? && IsEmailOf(data, r.effects[0].email))
            && (forall i :: 0 <= i < |r.effects| && r.effects[i].Handed? ==>
                 i == 0 && IsEmailOf(data, r.effects[0].email))
  {
    ErrorMeaning(data, env);
    EmailMeaning(data);
    var r := Handle(Email(data), p, attempt, env);
    assert r.effects == SendEffects(data) + r.effects[|SendEffects(data)|..];
  }

  lemma {:induction false} ErrorMeaning(data: SendEmailData, env: Env)
    ensures IsErrorOf(data, env, SendError(data, env))
  {
    TrimmedAwayIff(data.from);
    TrimmedAwayIff(data.subject);
  }

  lemma {:induction false} EmailMeaning(data: SendEmailData)
    ensures Decoded(data).Some? <==> Base64.DecodeString(data.body).Some?
    ensures Decoded(data).Some? ==> IsEmailOf(data, Decoded(data).value)
  {
  }

  /** The failures that another attempt may mend. */
  const TEMPORARY := {SmtpConnectionFailed, SmtpTemporaryFailure, ApiConnectionFailed, ApiRateLimited,
                      ApiProviderUnavailable}

  /** Exactly one action applies. A failure is retried exactly when it is temporary and attempts are left, after the
      delay of the attempt; the attempt is over when the email was sent or the failure callback accepted the failure. */
  lemma {:induction false} ActionMeaning(message: Message, p: RetryPolicy, attempt: int, env: Env)
    ensures var r := Handle(message, p, attempt, env);
            && (r.outcome.action.Retry? <==>
                 && r.outcome.failed && attempt < p.maxAttempts
                 && r.outcome.event.code.Some? && r.outcome.event.code.value in TEMPORARY)
            && (r.outcome.action.Done? <==> r.IsSent() || r.IsAccepted())
            && (r.IsAccepted() <==>
                 r.outcome.failed && env.endpointAccepts && exists e :: e in r.effects && e.Notified? && e.accepted)
            && (r.outcome.action.Retry? ==> r.outcome.retryIn == p.Delay(attempt))
            && (message.Malformed? ==>
                 r.outcome.action.DeadLetter? && r.effects == [] && r.outcome.event.code == Some(MessageInvalidJson))
  {
  }

  /** The attempt of a synchronous source is one on which no attempts are left, whatever its number. */
  lemma {:induction false} OnceIsLastAttempt(data: SendEmailData, p: RetryPolicy, attempt: int, env: Env)
    requires attempt >= p.maxAttempts
    ensures Attempt(data, p, 1, false, env) == Handle(Email(data), p, attempt, env)
  {
  }

  /** A temporary failure is final only on the last attempt: maxAttempts, or the attempt the message came with if that
      is higher. */
  lemma {:induction false} TemporaryGivesUpLast(message: Message, p: RetryPolicy, attempt: int, env: Env, first: int)
    requires first <= attempt <= Max(first, p.maxAttempts)
    requires var r := Handle(message, p, attempt, env); r.GivesUp() && r.IsTemporary()
    ensures attempt == Max(first, p.maxAttempts)
  {
    ActionMeaning(message, p, attempt, env);
  }

  /** The callback a final outcome calls for, if the message names one that is not blank. */
  predicate NamesCallback(data: SendEmailData, sent: bool, url: string) {
    && data.callback.Some?
    && (if sent
        then data.callback.value.success.Some? && data.callback.value.success.value.url == url
        else data.callback.value.failure.Some? && data.callback.value.failure.value.url == url)
    && NotBlank(url)
  }

  ghost predicate HasCallback(data: SendEmailData, sent: bool) { exists url :: NamesCallback(data, sent, url) }

  /** Callbacks fire only with the final outcome, at most one of them, once, to the success or the failure target that
      the message names; and one does fire whenever it names one. */
  lemma {:induction false} CallbacksMatchOutcome(message: Message, p: RetryPolicy, attempt: int, env: Env)
    ensures var r := Handle(message, p, attempt, env);
            && (r.outcome.action.Retry? || message.Malformed? ==> NotifiesNothing(r))
            && (forall i, j :: 0 <= i < j < |r.effects| ==> !(r.effects[i].Notified? && r.effects[j].Notified?))
            && (forall e :: e in r.effects && e.Notified? ==>
                 && message.Email? && e.event == r.outcome.event && (e.event.status.Sent? <==> r.IsSent())
                 && e.accepted == env.endpointAccepts && NamesCallback(message.data, r.IsSent(), e.url))
            && (message.Email? && !r.outcome.action.Retry? ==>
                 (NotifiesNothing(r) <==> !HasCallback(message.data, r.IsSent())))
  {
    if message.Email? {
      var r := Handle(message, p, attempt, env);
      NotifiedWhenNamed(message.data, p, attempt, env);
      if |r.effects| > 0 { assert r.effects[|r.effects| - 1] in r.effects; }
    }
  }

  lemma {:induction false} TargetMeaning(data: SendEmailData)
    ensures SuccessTarget(data).Some? <==> HasCallback(data, true)
    ensures SuccessTarget(data).Some? ==> NamesCallback(data, true, SuccessTarget(data).value.url)
    ensures FailureTarget(data).Some? <==> HasCallback(data, false)
    ensures FailureTarget(data).Some? ==> NamesCallback(data, false, FailureTarget(data).value.url)
  {
    if data.callback.Some? {
      var c := data.callback.value;
      if c.success.Some? { UsableMeaning(data, true, c.success.value.url); }
      if c.failure.Some? { UsableMeaning(data, false, c.failure.value.url); }
    }
  }

  lemma {:induction false} UsableMeaning(data: SendEmailData, sent: bool, url: string)
    ensures UsableTarget(Some(CallbackTarget(url))).Some? <==> NotBlank(url)
    ensures NamesCallback(data, sent, url) ==> HasCallback(data, sent)
  {
    TrimmedAwayIff(url);
  }

  lemma {:induction false} NotifiedWhenNamed(data: SendEmailData, p: RetryPolicy, attempt: int, env: Env)
    ensures var r := Handle(Email(data), p, attempt, env);
            && (!r.outcome.action.Retry? ==> (NotifiesNothing(r) <==> !HasCallback(data, r.IsSent())))
            && (forall e :: e in r.effects && e.Notified? ==> NamesCallback(data, r.IsSent(), e.url))
  {
    var r := Handle(Email(data), p, attempt, env);
    TargetMeaning(data);
    if |r.effects| > 0 { assert r.effects[|r.effects| - 1] in r.effects; }
  }
}
