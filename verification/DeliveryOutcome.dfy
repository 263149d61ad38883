/**
  One delivery attempt as a table over its settings and what became of its sends: which channels
  turn `sent`, what is reported, when the alert is complete.
 */
module DeliveryOutcome {
  import opened Common
  import opened AlertDelivery

  /** A channel these settings can attempt and that is not `sent` yet. */
  predicate WebhookOpen(r: Row, e: Env) { e.hasWebhookUrl && r.webhook != Sent }

  predicate EmailOpen(r: Row, e: Env) { e.recipients > 0 && e.emailEnabled && r.email != Sent }

  predicate TelegramOpen(r: Row, e: Env) { e.chatIds != [] && e.telegramEnabled && r.telegram != Sent }

  predicate Greatest(m: nat, a: nat, b: nat) { m >= a && m >= b && (m == a || m == b) }

  predicate EveryChatAccepts(e: Env) { forall i | 0 <= i < |e.chatIds| :: e.chatIds[i] !in e.chatRefusals }

  /** The attempt ends where recording an exhausted quota throws. */
  predicate StopsAtQuota(r: Row, e: Env) { e.breaks.AtQuotaMark? && EmailOpen(r, e) && !e.quotaGranted }

  /** Nothing is attempted, and the alert is reported disabled, exactly without a notifier or an open channel. */
  lemma SkippedIffNothingOpen(r: Row, e: Env)
    ensures !e.notifierEnabled || !(WebhookOpen(r, e) || EmailOpen(r, e) || TelegramOpen(r, e)) ==>
              Attempt(r, e) == r.(deliveryStatus := Disabled, lastError := NotifierDisabled) && !AttemptThrows(r, e)
    ensures Skips(r, e) <==> !e.notifierEnabled || !(WebhookOpen(r, e) || EmailOpen(r, e) || TelegramOpen(r, e))
  {
    hide ErrorOf, ChatErrors, AfterStages;
  }

  lemma StagesReached(r: Row, e: Env)
    requires !Skips(r, e)
    ensures StagesDone(r, e) >= 1
    ensures StagesDone(r, e) < 2 <==> StopsAtQuota(r, e)
    ensures StagesDone(r, e) < 3 <==>
            StopsAtQuota(r, e) || (e.breaks.AtTelegramMark? && TelegramOpen(r, e) && !e.digestMode && EveryChatAccepts(e))
  {
    hide ErrorOf, ChatErrors, RetryableErrors, TerminalErrors, AfterStages, AllRequiredSent, OnePerRefusal;
    ChatErrorsAreRefusals(e.chatIds, e.chatRefusals);
  }

  lemma StageColumns(r: Row, e: Env, stages: nat)
    ensures var s := AfterStages(r, e, stages);
            && s.webhook == (if stages >= 1 && WebhookOpen(r, e) && e.webhookOutcome.Marked? then Sent else r.webhook)
            && s.email == (if stages < 2 || !EmailOpen(r, e) then r.email
                           else if !e.quotaGranted then Failed
                           else if e.emailOutcome.Marked? then Sent
                           else r.email)
            && s.telegram == (if stages >= 3 && TelegramOpen(r, e) && !e.digestMode && EveryChatAccepts(e) then Sent else r.telegram)
  {
    hide ChatErrors, OnePerRefusal;
    ChatErrorsAreRefusals(e.chatIds, e.chatRefusals);
  }

  /** The three channel columns after an attempt that is not skipped. */
  lemma ChannelsAfterAttempt(r: Row, e: Env)
    requires e.notifierEnabled && (WebhookOpen(r, e) || EmailOpen(r, e) || TelegramOpen(r, e))
    ensures Attempt(r, e).webhook == if WebhookOpen(r, e) && e.webhookOutcome.Marked? then Sent else r.webhook
    ensures Attempt(r, e).email ==
            if !EmailOpen(r, e) || StopsAtQuota(r, e) then r.email
            else if !e.quotaGranted then Failed
            else if e.emailOutcome.Marked? then Sent
            else r.email
    ensures Attempt(r, e).telegram ==
            if TelegramOpen(r, e) && !e.digestMode && EveryChatAccepts(e) && !e.breaks.AtTelegramMark? && !StopsAtQuota(r, e)
            then Sent else r.telegram
  {
    hide Attempt, AfterStages, StagesDone, Skips, EveryChatAccepts;
    SkippedIffNothingOpen(r, e);
    AttemptColumns(r, e);
    StagesReached(r, e);
    StageColumns(r, e, StagesDone(r, e));
  }

  /** Some send of the attempt did not go through, or went through unrecorded. */
  predicate SendFails(r: Row, e: Env) {
    || (WebhookOpen(r, e) && !e.webhookOutcome.Marked?)
    || (EmailOpen(r, e) && e.quotaGranted && !e.emailOutcome.Marked?)
    || (TelegramOpen(r, e) && !e.digestMode && !EveryChatAccepts(e))
  }

  function Reason(o: SendOutcome): string
    requires !o.Marked?
  {
    match o
    case Refused(reason) => reason
    case MarkLost(reason) => reason
  }

  ghost predicate ReportsChats(r: Row, e: Env, errors: seq<ChannelError>) {
    if TelegramOpen(r, e) && !e.digestMode then OnePerRefusal(e.chatIds, e.chatRefusals, errors) else errors == []
  }

  /** The reported errors: the webhook's, the email's, one per refusing chat, then the exhausted quota. */
  ghost predicate ReportedErrors(r: Row, e: Env, errors: seq<ChannelError>) {
    exists chats: seq<ChannelError> | ReportsChats(r, e, chats) ::
      errors ==
      (if WebhookOpen(r, e) && !e.webhookOutcome.Marked? then [ChannelError(Webhook, Reason(e.webhookOutcome))] else [])
      + (if EmailOpen(r, e) && e.quotaGranted && !e.emailOutcome.Marked? then [ChannelError(Email, Reason(e.emailOutcome))] else [])
      + chats
      + (if EmailOpen(r, e) && !e.quotaGranted then [ChannelError(Email, "quota_exceeded:daily_limit_" + Decimal(e.quotaLimit))] else [])
  }

  lemma ErrorsAre(r: Row, e: Env)
    ensures RetryableErrors(r, e) == [] <==> !SendFails(r, e)
    ensures TerminalErrors(r, e) == [] <==> !(EmailOpen(r, e) && !e.quotaGranted)
    ensures ReportedErrors(r, e, RetryableErrors(r, e) + TerminalErrors(r, e))
  {
    ChatErrorsAreRefusals(e.chatIds, e.chatRefusals);
    var chats := if TelegramOpen(r, e) && !e.digestMode then ChatErrors(e.chatIds, e.chatRefusals) else [];
    hide ChatErrors, OnePerRefusal;
    assert ReportsChats(r, e, chats);
  }

  /** What an attempt without a throwing statement reports, and whether the queue runs it again. */
  lemma FailureIsReported(r: Row, e: Env)
    requires e.breaks.NoBreak? && e.notifierEnabled && (WebhookOpen(r, e) || EmailOpen(r, e) || TelegramOpen(r, e))
    ensures AttemptThrows(r, e) <==> SendFails(r, e)
    ensures var a := Attempt(r, e);
            if SendFails(r, e) || (EmailOpen(r, e) && !e.quotaGranted) then
              && a.lastError.ChannelsFailed? && ReportedErrors(r, e, a.lastError.errors) && a.sent == r.sent
              && a.deliveryStatus == (if SendFails(r, e) && e.willRetry then Retrying else GaveUp)
              && Greatest(a.attempts, r.attempts, e.attemptNumber)
            else
              a.lastError.NoError? || a.lastError == r.lastError
  {
    ErrorsAre(r, e);
    hide ReportedErrors, RetryableErrors, TerminalErrors;
    assert RetryableErrors(r, e) == [] ==> RetryableErrors(r, e) + TerminalErrors(r, e) == TerminalErrors(r, e);
  }

  /** The alert is complete exactly when nothing failed and each configured channel ends `sent`, digests apart. */
  lemma CompletedIff(r: Row, e: Env)
    requires e.breaks.NoBreak? && e.notifierEnabled && (WebhookOpen(r, e) || EmailOpen(r, e) || TelegramOpen(r, e))
    ensures var a := Attempt(r, e);
            var complete := !SendFails(r, e) && !(EmailOpen(r, e) && !e.quotaGranted) && EndsSent(a, e);
            && (a.sent <==> r.sent || complete)
            && (complete ==> a.deliveryStatus == Delivered && a.lastError == NoError && Greatest(a.attempts, r.attempts, e.attemptNumber))
            && (!complete && !SendFails(r, e) && !(EmailOpen(r, e) && !e.quotaGranted) ==>
                  a.lastError == r.lastError && (if e.willRetry then Greatest(a.attempts, r.attempts, e.attemptNumber) else a.attempts == r.attempts)
                  && a.deliveryStatus == (if e.willRetry then Retrying else r.deliveryStatus))
  {
    FailureIsReported(r, e);
    ChannelsAfterAttempt(r, e);
    ChatErrorsAreRefusals(e.chatIds, e.chatRefusals);
    hide ChatErrors, OnePerRefusal, ReportedErrors;
  }

  /** Each channel these settings configure is `sent`, digests apart. */
  predicate EndsSent(r: Row, e: Env) {
    && (e.hasWebhookUrl ==> r.webhook == Sent) && (e.recipients > 0 ==> r.email == Sent)
    && (e.chatIds != [] && !e.digestMode ==> r.telegram == Sent)
  }

  /** The statement of `e.breaks` is reached in the attempt. */
  predicate BreakReached(r: Row, e: Env) {
    match e.breaks
    case NoBreak => false
    case AtQuotaMark => EmailOpen(r, e) && !e.quotaGranted
    case AtTelegramMark => TelegramOpen(r, e) && !e.digestMode && EveryChatAccepts(e)
    case AtDigestInsert => TelegramOpen(r, e) && e.digestMode
    case AtStatus =>
      !SendFails(r, e) && ((EmailOpen(r, e) && !e.quotaGranted) || e.willRetry || EndsSent(Attempt(r, e), e))
  }

  /**
    A statement outside the channels that throws is reported and retried like a failed channel, and
    never completes the alert; one that is not reached changes nothing.
   */
  lemma BrokenAttempt(r: Row, e: Env)
    requires e.notifierEnabled && (WebhookOpen(r, e) || EmailOpen(r, e) || TelegramOpen(r, e))
    ensures var a := Attempt(r, e);
            if BreakReached(r, e) then
              && AttemptThrows(r, e) && a.lastError == StatementFailed && a.sent == r.sent
              && a.deliveryStatus == (if e.willRetry then Retrying else GaveUp) && Greatest(a.attempts, r.attempts, e.attemptNumber)
            else
              a == Attempt(r, e.(breaks := NoBreak)) && (AttemptThrows(r, e) <==> AttemptThrows(r, e.(breaks := NoBreak)))
  {
    BrokenIff(r, e);
    hide ErrorOf, ChatErrors, BreakReached;
    assert RetryableErrors(r, e) == RetryableErrors(r, e.(breaks := NoBreak));
    assert AfterSends(r, e) == AfterSends(r, e.(breaks := NoBreak));
  }

  lemma StatusReached(r: Row, e: Env)
    requires e.notifierEnabled && (WebhookOpen(r, e) || EmailOpen(r, e) || TelegramOpen(r, e)) && e.breaks.AtStatus?
    ensures AllRequiredSent(AfterSends(r, e), e) <==> EndsSent(Attempt(r, e), e)
  {
    AttemptColumns(r, e);
    hide ErrorOf, ChatErrors, RetryableErrors, TerminalErrors, Attempt, AfterStages;
  }

  lemma BrokenIff(r: Row, e: Env)
    requires e.notifierEnabled && (WebhookOpen(r, e) || EmailOpen(r, e) || TelegramOpen(r, e))
    ensures BrokenAfter(r, e).Some? <==> BreakReached(r, e)
  {
    hide ErrorOf, ChatErrors, RetryableErrors, TerminalErrors, Attempt, ReportedErrors, AfterSends, AllRequiredSent, EndsSent, SendFails, OnePerRefusal;
    if e.breaks.AtStatus? {
      hide EmailOpen, TelegramOpen, WebhookOpen;
      ErrorsAre(r, e);
      StatusReached(r, e);
    } else {
      ChatErrorsAreRefusals(e.chatIds, e.chatRefusals);
    }
  }

  /** The other things that happen to the row: queueing, disabling, and a digest sweep that converges the channel. */
  lemma OtherOperations(h: History)
    ensures var r := Apply(h, Enqueue).row;
            r == h.row.(deliveryStatus := r.deliveryStatus) && (r.deliveryStatus == Retrying <==> h.row.attempts != 0)
            && (r.deliveryStatus == Queued <==> h.row.attempts == 0)
    ensures Apply(h, Disable).row == h.row.(deliveryStatus := Disabled, lastError := NotifierDisabled)
    ensures Apply(h, DigestFlushed).row == h.row.(telegram := Sent)
    ensures forall op: Op | !op.Deliver? && !op.Die? :: Apply(h, op) == h.(row := Apply(h, op).row)
  {
  }

  /** What counts as a message that left, and as one whose mark was lost. */
  lemma MessagesCounted(h: History, e: Env)
    ensures var t := Apply(h, Deliver(e));
            var webhook := e.notifierEnabled && WebhookOpen(h.row, e);
            var email := e.notifierEnabled && EmailOpen(h.row, e) && e.quotaGranted;
            && t.webhookLeft - h.webhookLeft == (if webhook && !e.webhookOutcome.Refused? then 1 else 0)
            && t.webhookLost - h.webhookLost == (if webhook && e.webhookOutcome.MarkLost? then 1 else 0)
            && t.emailLeft - h.emailLeft == (if email && !e.emailOutcome.Refused? then 1 else 0)
            && t.emailLost - h.emailLost == (if email && e.emailOutcome.MarkLost? then 1 else 0)
  {
    hide Attempt;
  }
}
