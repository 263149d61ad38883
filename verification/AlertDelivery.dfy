/**
  One alert's delivery over webhook, email and Telegram: `ProcessAlertDeliveryUseCase.execute`
  with the row updates of `AlertsRepository`, and whole runs of attempts on one alert.
 */
module AlertDelivery {
  import opened Common

  datatype ChannelStatus = Pending | Sent | Failed

  datatype DeliveryStatus = NotQueued | Queued | Retrying | Delivered | GaveUp | Disabled

  datatype Channel = Webhook | Email | Telegram

  datatype ChannelError = ChannelError(channel: Channel, reason: string)

  datatype LastError = NoError | NotifierDisabled | ChannelsFailed(errors: seq<ChannelError>) | StatementFailed

  datatype Row = Row(
    sent: bool,
    deliveryStatus: DeliveryStatus,
    attempts: nat,
    lastError: LastError,
    webhook: ChannelStatus,
    email: ChannelStatus,
    telegram: ChannelStatus
  )

  const FRESH := Row(false, NotQueued, 0, NoError, Pending, Pending, Pending)

  /** What became of one send followed by its `markChannelDelivered`. */
  datatype SendOutcome =
    | Marked                     // left, and recorded as sent
    | Refused(reason: string)    // the transport threw
    | MarkLost(reason: string)   // left, but recording it threw

  /** A statement outside the channels' own `try` blocks that throws, if it is reached. */
  datatype Break = NoBreak | AtQuotaMark | AtTelegramMark | AtDigestInsert | AtStatus

  /** Settings and surroundings of one attempt. */
  datatype Env = Env(
    hasWebhookUrl: bool,
    recipients: nat,
    chatIds: seq<string>,
    digestMode: bool,
    notifierEnabled: bool,
    emailEnabled: bool,
    telegramEnabled: bool,
    webhookOutcome: SendOutcome,
    quotaGranted: bool,
    quotaLimit: nat,
    emailOutcome: SendOutcome,
    chatRefusals: map<string, string>,
    breaks: Break,
    attemptNumber: nat,
    willRetry: bool
  )

  // ---------------------------------------------------------------- row updates

  function MarkChannel(r: Row, c: Channel, s: ChannelStatus): Row {
    match c
    case Webhook => r.(webhook := s)
    case Email => r.(email := s)
    case Telegram => r.(telegram := s)
  }

  function Status(r: Row, c: Channel): ChannelStatus {
    match c
    case Webhook => r.webhook
    case Email => r.email
    case Telegram => r.telegram
  }

  function Max(a: nat, b: nat): nat { if a < b then b else a }

  function Min(a: nat, b: nat): nat { if a < b then a else b }

  // ---------------------------------------------------------------- one attempt, as a function

  predicate AttemptsWebhook(r: Row, e: Env) { e.hasWebhookUrl && r.webhook != Sent }

  predicate AttemptsEmail(r: Row, e: Env) { e.recipients > 0 && e.emailEnabled && r.email != Sent }

  predicate TelegramUsable(r: Row, e: Env) { |e.chatIds| > 0 && e.telegramEnabled && r.telegram != Sent }

  predicate AttemptsTelegram(r: Row, e: Env) { TelegramUsable(r, e) && !e.digestMode }

  predicate QueuesDigest(r: Row, e: Env) { TelegramUsable(r, e) && e.digestMode }

  predicate Skips(r: Row, e: Env) {
    || !e.notifierEnabled
    || !(AttemptsWebhook(r, e) || AttemptsEmail(r, e) || AttemptsTelegram(r, e) || QueuesDigest(r, e))
  }

  function ErrorOf(c: Channel, o: SendOutcome): seq<ChannelError> {
    match o
    case Marked => []
    case Refused(reason) => [ChannelError(c, reason)]
    case MarkLost(reason) => [ChannelError(c, reason)]
  }

  function ChatErrors(chats: seq<string>, refusals: map<string, string>): seq<ChannelError> {
    if chats == [] then []
    else
      var rest := ChatErrors(chats[..|chats| - 1], refusals);
      var chat := chats[|chats| - 1];
      if chat in refusals then rest + [ChannelError(Telegram, chat + ":" + refusals[chat])] else rest
  }

  /** One error per refusing chat, with its reason, in the order of the chats. */
  ghost predicate OnePerRefusal(chats: seq<string>, refusals: map<string, string>, errors: seq<ChannelError>) {
    exists at: seq<int> | |at| == |errors| && StrictlyIncreasing(at) ::
      && (forall k | 0 <= k < |at| :: 0 <= at[k] < |chats| && chats[at[k]] in refusals &&
            errors[k] == ChannelError(Telegram, chats[at[k]] + ":" + refusals[chats[at[k]]]))
      && (forall i | 0 <= i < |chats| && chats[i] in refusals :: i in at)
  }

  lemma {:induction false} ChatErrorsAreRefusals(chats: seq<string>, refusals: map<string, string>)
    ensures OnePerRefusal(chats, refusals, ChatErrors(chats, refusals))
    ensures ChatErrors(chats, refusals) == [] <==> forall i | 0 <= i < |chats| :: chats[i] !in refusals
  {
    var at := RefusalPositions(chats, refusals);
    if at == [] {
      assert forall i | 0 <= i < |chats| && chats[i] in refusals :: i in at;
    } else {
      assert chats[at[0]] in refusals;
    }
  }

  lemma {:induction false} RefusalPositions(chats: seq<string>, refusals: map<string, string>) returns (at: seq<int>)
    ensures |at| == |ChatErrors(chats, refusals)| && StrictlyIncreasing(at)
    ensures forall k | 0 <= k < |at| :: 0 <= at[k] < |chats| && chats[at[k]] in refusals &&
              ChatErrors(chats, refusals)[k] == ChannelError(Telegram, chats[at[k]] + ":" + refusals[chats[at[k]]])
    ensures forall i | 0 <= i < |chats| && chats[i] in refusals :: i in at
  {
    at := [];
    if chats != [] {
      var n := |chats| - 1;
      at := RefusalPositions(chats[..n], refusals);
      if chats[n] in refusals {
        at := at + [n];
      }
    }
  }

  /** Failures worth a retry, in the order the channels are attempted. */
  function RetryableErrors(r: Row, e: Env): seq<ChannelError> {
    (if AttemptsWebhook(r, e) then ErrorOf(Webhook, e.webhookOutcome) else [])
    + (if AttemptsEmail(r, e) && e.quotaGranted then ErrorOf(Email, e.emailOutcome) else [])
    + (if AttemptsTelegram(r, e) then ChatErrors(e.chatIds, e.chatRefusals) else [])
  }

  function TerminalErrors(r: Row, e: Env): seq<ChannelError> {
    if AttemptsEmail(r, e) && !e.quotaGranted then [ChannelError(Email, "quota_exceeded:daily_limit_" + Decimal(e.quotaLimit))] else []
  }

  /** The channel columns after the first `stages` of webhook, email and Telegram. */
  function AfterStages(r: Row, e: Env, stages: nat): Row {
    r.(webhook := if stages >= 1 && AttemptsWebhook(r, e) && e.webhookOutcome.Marked? then Sent else r.webhook,
       email := if stages < 2 || !AttemptsEmail(r, e) then r.email
                else if !e.quotaGranted then Failed
                else if e.emailOutcome.Marked? then Sent
                else r.email,
       telegram := if stages >= 3 && AttemptsTelegram(r, e) && ChatErrors(e.chatIds, e.chatRefusals) == [] then Sent else r.telegram)
  }

  /** The channel columns after the sends of one attempt. */
  function AfterSends(r: Row, e: Env): Row { AfterStages(r, e, 3) }

  /** The stages done when the breaking statement is reached; `None` when it is not. */
  function BrokenAfter(r: Row, e: Env): Option<nat> {
    match e.breaks
    case NoBreak => None
    case AtQuotaMark => if AttemptsEmail(r, e) && !e.quotaGranted then Some(1) else None
    case AtTelegramMark =>
      if AttemptsTelegram(r, e) && ChatErrors(e.chatIds, e.chatRefusals) == [] then Some(2) else None
    case AtDigestInsert => if QueuesDigest(r, e) then Some(3) else None
    case AtStatus =>
      if RetryableErrors(r, e) == [] && (TerminalErrors(r, e) != [] || AllRequiredSent(AfterSends(r, e), e) || e.willRetry)
      then Some(3) else None
  }

  /** `checkAllChannelsDelivered` under the current settings. */
  predicate AllRequiredSent(r: Row, e: Env) {
    && (e.hasWebhookUrl ==> r.webhook == Sent)
    && (e.recipients > 0 ==> r.email == Sent)
    && (|e.chatIds| > 0 && !e.digestMode ==> r.telegram == Sent)
  }

  function Attempt(r: Row, e: Env): Row {
    if Skips(r, e) then r.(deliveryStatus := Disabled, lastError := NotifierDisabled)
    else if BrokenAfter(r, e).Some? then
      var s := AfterStages(r, e, BrokenAfter(r, e).value);
      s.(attempts := Max(s.attempts, e.attemptNumber), deliveryStatus := if e.willRetry then Retrying else GaveUp,
         lastError := StatementFailed)
    else
      var s := AfterSends(r, e);
      var counted := s.(attempts := Max(s.attempts, e.attemptNumber));
      if RetryableErrors(r, e) != [] then
        counted.(deliveryStatus := if e.willRetry then Retrying else GaveUp,
                 lastError := ChannelsFailed(RetryableErrors(r, e) + TerminalErrors(r, e)))
      else if TerminalErrors(r, e) != [] then
        counted.(deliveryStatus := GaveUp, lastError := ChannelsFailed(TerminalErrors(r, e)))
      else if AllRequiredSent(s, e) then
        counted.(sent := true, deliveryStatus := Delivered, lastError := NoError)
      else if e.willRetry then counted.(deliveryStatus := Retrying)
      else s
  }

  /** Whether the queue job fails, which is what makes the queue run it again. */
  predicate AttemptThrows(r: Row, e: Env) {
    !Skips(r, e) && (BrokenAfter(r, e).Some? || RetryableErrors(r, e) != [])
  }

  // ---------------------------------------------------------------- the use case

  class AlertStore {
    var row: Row

    constructor ()
      ensures row == FRESH
    {
      row := FRESH;
    }

    method MarkDeliveryDisabled()
      modifies this
      ensures row == old(row).(deliveryStatus := Disabled, lastError := NotifierDisabled)
    {
      row := row.(deliveryStatus := Disabled, lastError := NotifierDisabled);
    }

    method MarkSent(attemptNumber: nat)
      modifies this
      ensures row == old(row).(sent := true, deliveryStatus := Delivered, attempts := Max(old(row).attempts, attemptNumber), lastError := NoError)
    {
      row := row.(sent := true, deliveryStatus := Delivered, attempts := Max(row.attempts, attemptNumber), lastError := NoError);
    }

    method MarkDeliveryFailure(attemptNumber: nat, error: LastError, willRetry: bool)
      modifies this
      ensures row == old(row).(deliveryStatus := if willRetry then Retrying else GaveUp,
                               attempts := Max(old(row).attempts, attemptNumber),
                               lastError := error)
    {
      row := row.(deliveryStatus := if willRetry then Retrying else GaveUp,
                  attempts := Max(row.attempts, attemptNumber),
                  lastError := error);
    }

    method MarkChannelDelivered(c: Channel)
      modifies this
      ensures row == MarkChannel(old(row), c, Sent)
    {
      row := MarkChannel(row, c, Sent);
    }

    /** A channel already `sent` is never demoted. */
    method MarkChannelFailed(c: Channel)
      modifies this
      ensures row == if Status(old(row), c) == Sent then old(row) else MarkChannel(old(row), c, Failed)
    {
      if Status(row, c) != Sent {
        row := MarkChannel(row, c, Failed);
      }
    }

    method MarkDeliveryRetryPending(attemptNumber: nat)
      modifies this
      ensures row == old(row).(deliveryStatus := Retrying, attempts := Max(old(row).attempts, attemptNumber))
    {
      row := row.(deliveryStatus := Retrying, attempts := Max(row.attempts, attemptNumber));
    }

    method SendToChats(chats: seq<string>, refusals: map<string, string>) returns (errors: seq<ChannelError>)
      ensures errors == ChatErrors(chats, refusals) && OnePerRefusal(chats, refusals, errors)
    {
      errors := [];
      assert chats[..0] == [];
      for i := 0 to |chats|
        invariant errors == ChatErrors(chats[..i], refusals)
      {
        assert chats[..i + 1][..i] == chats[..i];
        if chats[i] in refusals {
          errors := errors + [ChannelError(Telegram, chats[i] + ":" + refusals[chats[i]])];
        }
      }
      assert chats[..|chats|] == chats;
      ChatErrorsAreRefusals(chats, refusals);
    }

    /** Webhook, gated by the row `alert` read when the attempt began. */
    method AttemptWebhook(alert: Row, e: Env) returns (errors: seq<ChannelError>)
      requires row == AfterStages(alert, e, 0)
      modifies this
      ensures row == AfterStages(alert, e, 1)
      ensures errors == if AttemptsWebhook(alert, e) then ErrorOf(Webhook, e.webhookOutcome) else []
    {
      errors := [];
      if AttemptsWebhook(alert, e) {
        if e.webhookOutcome.Marked? {
          MarkChannelDelivered(Webhook);
        } else {
          errors := [ChannelError(Webhook, e.webhookOutcome.reason)];
        }
      }
    }

    /** Email: a refused reservation is a terminal failure; `broke` when recording it throws. */
    method AttemptEmail(alert: Row, e: Env) returns (broke: bool, errors: seq<ChannelError>, terminalErrors: seq<ChannelError>)
      requires row == AfterStages(alert, e, 1)
      modifies this
      ensures broke <==> e.breaks.AtQuotaMark? && AttemptsEmail(alert, e) && !e.quotaGranted
      ensures row == AfterStages(alert, e, if broke then 1 else 2)
      ensures !broke ==> errors == if AttemptsEmail(alert, e) && e.quotaGranted then ErrorOf(Email, e.emailOutcome) else []
      ensures !broke ==> terminalErrors == TerminalErrors(alert, e)
    {
      broke, errors, terminalErrors := false, [], [];
      if AttemptsEmail(alert, e) {
        if !e.quotaGranted {
          terminalErrors := [ChannelError(Email, "quota_exceeded:daily_limit_" + Decimal(e.quotaLimit))];
          if e.breaks.AtQuotaMark? {
            broke := true;
            return;
          }
          MarkChannelFailed(Email);
        } else if e.emailOutcome.Marked? {
          MarkChannelDelivered(Email);
        } else {
          errors := [ChannelError(Email, e.emailOutcome.reason)];
        }
      }
    }

    /** Telegram: the channel is marked once every chat took the message. */
    method AttemptTelegram(alert: Row, e: Env) returns (broke: bool, errors: seq<ChannelError>)
      requires row == AfterStages(alert, e, 2)
      modifies this
      ensures broke <==> e.breaks.AtTelegramMark? && AttemptsTelegram(alert, e) && ChatErrors(e.chatIds, e.chatRefusals) == []
      ensures row == AfterStages(alert, e, if broke then 2 else 3)
      ensures errors == if AttemptsTelegram(alert, e) then ChatErrors(e.chatIds, e.chatRefusals) else []
    {
      broke, errors := false, [];
      if AttemptsTelegram(alert, e) {
        errors := SendToChats(e.chatIds, e.chatRefusals);
        if errors == [] {
          if e.breaks.AtTelegramMark? {
            broke := true;
            return;
          }
          MarkChannelDelivered(Telegram);
        }
      }
    }

    /** The sends of one attempt, and queueing its digests; `broke` when a statement outside the channels throws. */
    method AttemptChannels(alert: Row, e: Env)
      returns (broke: bool, channelErrors: seq<ChannelError>, terminalErrors: seq<ChannelError>)
      requires row == alert
      modifies this
      ensures broke <==> BrokenAfter(alert, e).Some? && e.breaks != AtStatus
      ensures row == AfterStages(alert, e, if broke then BrokenAfter(alert, e).value else 3)
      ensures !broke ==> channelErrors == RetryableErrors(alert, e) && terminalErrors == TerminalErrors(alert, e)
    {
      channelErrors := AttemptWebhook(alert, e);
      var emailErrors: seq<ChannelError>, chatErrors: seq<ChannelError>;
      broke, emailErrors, terminalErrors := AttemptEmail(alert, e);
      if broke {
        return;
      }
      broke, chatErrors := AttemptTelegram(alert, e);
      if broke {
        return;
      }
      channelErrors := channelErrors + emailErrors + chatErrors;
      broke := QueuesDigest(alert, e) && e.breaks.AtDigestInsert?;
    }

    /** One delivery attempt. `queuedDigest` tells whether digest items were queued for all chats. */
    method Execute(e: Env) returns (threw: bool, queuedDigest: bool)
      modifies this
      ensures row == Attempt(old(row), e)
      ensures threw <==> AttemptThrows(old(row), e)
      ensures queuedDigest <==>
                && e.notifierEnabled && e.digestMode && e.chatIds != [] && e.telegramEnabled && old(row).telegram != Sent
                && e.breaks != AtDigestInsert
                && !(e.breaks.AtQuotaMark? && e.recipients > 0 && e.emailEnabled && old(row).email != Sent && !e.quotaGranted)
    {
      threw, queuedDigest := false, false;
      var alert := row;
      if Skips(alert, e) {
        MarkDeliveryDisabled();
        return;
      }
      var broke, channelErrors, terminalErrors := AttemptChannels(alert, e);
      hide AfterStages, RetryableErrors, TerminalErrors, ChatErrors;
      if broke {
        MarkDeliveryFailure(e.attemptNumber, StatementFailed, e.willRetry);
        return true, false;
      }
      queuedDigest := QueuesDigest(alert, e);
      if channelErrors != [] {
        MarkDeliveryFailure(e.attemptNumber, ChannelsFailed(channelErrors + terminalErrors), e.willRetry);
        threw := true;
      } else if e.breaks.AtStatus? && (terminalErrors != [] || AllRequiredSent(row, e) || e.willRetry) {
        MarkDeliveryFailure(e.attemptNumber, StatementFailed, e.willRetry);
        threw := true;
      } else if terminalErrors != [] {
        MarkDeliveryFailure(e.attemptNumber, ChannelsFailed(terminalErrors), false);
      } else if AllRequiredSent(row, e) {
        MarkSent(e.attemptNumber);
      } else if e.willRetry {
        MarkDeliveryRetryPending(e.attemptNumber);
      }
    }
  }

  // ---------------------------------------------------------------- runs

  /** Everything that touches the row of one alert, one after another. */
  datatype Op =
    | Deliver(env: Env)      // a queue job runs
    | Enqueue                // `markDeliveryQueued`
    | Disable                // `markDeliveryDisabled`
    | DigestFlushed          // a digest sweep converges the Telegram channel
    | Die(env: Env, stages: nat)  // the process is lost after that many channel stages of an attempt

  /** The row, and how many messages left per channel and how many of those lost their mark. */
  datatype History = History(row: Row, webhookLeft: nat, webhookLost: nat, emailLeft: nat, emailLost: nat)

  function Left(attempted: bool, o: SendOutcome): nat { if attempted && !o.Refused? then 1 else 0 }

  function Lost(attempted: bool, o: SendOutcome): nat { if attempted && o.MarkLost? then 1 else 0 }

  function Apply(h: History, op: Op): History {
    match op
    case Deliver(e) =>
      var webhook := !Skips(h.row, e) && AttemptsWebhook(h.row, e);
      var email := !Skips(h.row, e) && AttemptsEmail(h.row, e) && e.quotaGranted;
      History(Attempt(h.row, e),
              h.webhookLeft + Left(webhook, e.webhookOutcome), h.webhookLost + Lost(webhook, e.webhookOutcome),
              h.emailLeft + Left(email, e.emailOutcome), h.emailLost + Lost(email, e.emailOutcome))
    case Die(e, stages) =>
      if Skips(h.row, e) then h
      else
        var done := Min(stages, if BrokenAfter(h.row, e).Some? then BrokenAfter(h.row, e).value else 3);
        var webhook := done >= 1 && AttemptsWebhook(h.row, e);
        var email := done >= 2 && AttemptsEmail(h.row, e) && e.quotaGranted;
        History(AfterStages(h.row, e, done),
                h.webhookLeft + Left(webhook, e.webhookOutcome), h.webhookLost + Lost(webhook, e.webhookOutcome),
                h.emailLeft + Left(email, e.emailOutcome), h.emailLost + Lost(email, e.emailOutcome))
    case Enqueue => h.(row := h.row.(deliveryStatus := if h.row.attempts > 0 then Retrying else Queued))
    case Disable => h.(row := h.row.(deliveryStatus := Disabled, lastError := NotifierDisabled))
    case DigestFlushed => h.(row := h.row.(telegram := Sent))
  }

  function Run(h: History, ops: seq<Op>): History
    decreases |ops|
  {
    if ops == [] then h else Run(Apply(h, ops[0]), ops[1..])
  }

  ghost predicate Accounted(h: History) {
    && h.webhookLeft == h.webhookLost + (if h.row.webhook == Sent then 1 else 0)
    && h.emailLeft == h.emailLost + (if h.row.email == Sent then 1 else 0)
  }

  /** How many stages of an attempt get done. */
  function StagesDone(r: Row, e: Env): nat {
    if BrokenAfter(r, e).Some? then BrokenAfter(r, e).value else 3
  }

  lemma AttemptColumns(r: Row, e: Env)
    requires !Skips(r, e)
    ensures var a, s := Attempt(r, e), AfterStages(r, e, StagesDone(r, e));
            a.webhook == s.webhook && a.email == s.email && a.telegram == s.telegram
  {
    hide ErrorOf, ChatErrors, RetryableErrors, TerminalErrors;
  }

  /** A message that leaves is recorded, or its mark is lost. */
  lemma StagesAccount(r: Row, e: Env, stages: nat)
    ensures var s, webhook, email := AfterStages(r, e, stages), stages >= 1 && AttemptsWebhook(r, e),
                                     stages >= 2 && AttemptsEmail(r, e) && e.quotaGranted;
            && Left(webhook, e.webhookOutcome) - Lost(webhook, e.webhookOutcome) ==
               (if s.webhook == Sent then 1 else 0) - (if r.webhook == Sent then 1 else 0)
            && Left(email, e.emailOutcome) - Lost(email, e.emailOutcome) ==
               (if s.email == Sent then 1 else 0) - (if r.email == Sent then 1 else 0)
  {
    hide ChatErrors;
  }

  lemma EmailStageReached(r: Row, e: Env)
    requires AttemptsEmail(r, e) && e.quotaGranted
    ensures StagesDone(r, e) >= 2
  {
  }

  lemma ApplyAccounts(h: History, op: Op)
    requires Accounted(h)
    ensures Accounted(Apply(h, op))
  {
    hide Skips, AfterStages, Attempt, BrokenAfter, AttemptsWebhook, AttemptsEmail, Left, Lost, StagesDone;
    match op
    case Deliver(e) =>
      if Skips(h.row, e) {
        SkippedColumns(h.row, e);
      } else {
        AttemptColumns(h.row, e);
        StagesAccount(h.row, e, StagesDone(h.row, e));
        WebhookStageReached(h.row, e);
        if AttemptsEmail(h.row, e) && e.quotaGranted { EmailStageReached(h.row, e); }
      }
    case Die(e, stages) => DieAccounts(h, e, stages);
    case _ =>
  }

  lemma WebhookStageReached(r: Row, e: Env)
    ensures 1 <= StagesDone(r, e) <= 3
  {
  }

  lemma SkippedColumns(r: Row, e: Env)
    requires Skips(r, e)
    ensures Attempt(r, e) == r.(deliveryStatus := Disabled, lastError := NotifierDisabled)
    ensures Left(false, e.webhookOutcome) == Lost(false, e.webhookOutcome) == 0
    ensures Left(false, e.emailOutcome) == Lost(false, e.emailOutcome) == 0
  {
  }

  lemma DieAccounts(h: History, e: Env, stages: nat)
    requires Accounted(h)
    ensures Accounted(Apply(h, Die(e, stages)))
  {
    hide Skips, AfterStages, AttemptsWebhook, AttemptsEmail, Left, Lost;
    StagesAccount(h.row, e, Min(stages, StagesDone(h.row, e)));
  }

  lemma {:induction false} RunAccounts(h: History, ops: seq<Op>)
    requires Accounted(h)
    ensures Accounted(Run(h, ops))
    decreases |ops|
  {
    if ops != [] {
      ApplyAccounts(h, ops[0]);
      RunAccounts(Apply(h, ops[0]), ops[1..]);
    }
  }

  /**
    At most once per alert and channel, up to lost marks: whatever fails, retries or changes in the
    settings, a webhook (an email) leaves once if the channel ended `sent`, plus once per lost mark.
   */
  lemma AtMostOncePerChannel(ops: seq<Op>)
    ensures var h := Run(START, ops);
            && h.webhookLeft == h.webhookLost + (if h.row.webhook == Sent then 1 else 0)
            && h.emailLeft == h.emailLost + (if h.row.email == Sent then 1 else 0)
  {
    RunAccounts(START, ops);
  }

  /** What no operation undoes. */
  ghost predicate Advanced(before: Row, after: Row) {
    && (before.webhook == Sent ==> after.webhook == Sent)
    && (before.email == Sent ==> after.email == Sent)
    && (before.telegram == Sent ==> after.telegram == Sent)
    && (before.sent ==> after.sent)
    && before.attempts <= after.attempts
  }

  lemma ApplyAdvances(h: History, op: Op)
    ensures Advanced(h.row, Apply(h, op).row)
  {
    hide ErrorOf, ChatErrors, RetryableErrors, TerminalErrors, AttemptsWebhook, AttemptsTelegram, TelegramUsable, Left, Lost;
  }

  lemma {:induction false} NothingIsUndone(h: History, ops: seq<Op>)
    ensures Advanced(h.row, Run(h, ops).row)
    decreases |ops|
  {
    if ops != [] {
      hide Apply;
      ApplyAdvances(h, ops[0]);
      NothingIsUndone(Apply(h, ops[0]), ops[1..]);
    }
  }

  /** `sent` turns true only in an attempt that leaves every channel its settings require `sent`. */
  lemma SentNeedsEveryRequiredChannel(h: History, op: Op)
    requires !h.row.sent && Apply(h, op).row.sent
    ensures op.Deliver? && AllRequiredSent(Apply(h, op).row, op.env) && Apply(h, op).row.lastError == NoError
    ensures !AttemptThrows(h.row, op.env)
  {
  }

  /** Channels the settings require although this process has no transport to attempt them. */
  ghost predicate Unreachable(r: Row, e: Env) {
    || (e.recipients > 0 && !e.emailEnabled && r.email != Sent)
    || (|e.chatIds| > 0 && !e.digestMode && !e.telegramEnabled && r.telegram != Sent)
  }

  /** Nothing goes wrong in the attempt: no channel fails and no statement throws. */
  ghost predicate Clean(r: Row, e: Env) {
    RetryableErrors(r, e) == [] && TerminalErrors(r, e) == [] && BrokenAfter(r, e).None?
  }

  /** An attempt without any channel error completes the alert exactly when no required channel is unreachable. */
  lemma CleanAttemptCompletesIff(r: Row, e: Env)
    requires !r.sent && !Skips(r, e) && Clean(r, e)
    ensures Attempt(r, e).sent <==> !Unreachable(r, e)
  {
    assert AttemptsWebhook(r, e) ==> ErrorOf(Webhook, e.webhookOutcome) == [];
    assert AttemptsEmail(r, e) ==> ErrorOf(Email, e.emailOutcome) == [];
    assert AttemptsTelegram(r, e) ==> ChatErrors(e.chatIds, e.chatRefusals) == [];
  }

  // ---------------------------------------------------------------- attempts that die

  /** Some channel these settings use is still to be sent or queued: what keeps an attempt from being skipped. */
  predicate WorkLeft(r: Row, e: Env) {
    || (e.hasWebhookUrl && r.webhook != Sent)
    || (e.recipients > 0 && e.emailEnabled && r.email != Sent)
    || (|e.chatIds| > 0 && e.telegramEnabled && r.telegram != Sent)
  }

  predicate SameSettings(e: Env, f: Env) {
    && f.hasWebhookUrl == e.hasWebhookUrl && f.recipients == e.recipients && f.chatIds == e.chatIds
    && f.digestMode == e.digestMode && f.notifierEnabled == e.notifierEnabled
    && f.emailEnabled == e.emailEnabled && f.telegramEnabled == e.telegramEnabled
  }

  /** A row not yet complete is completed by a clean attempt exactly when work is left and no required channel is unreachable. */
  lemma CleanAttemptMarksSentIff(r: Row, e: Env)
    requires !r.sent && e.notifierEnabled && Clean(r, e)
    ensures Attempt(r, e).sent <==> WorkLeft(r, e) && !Unreachable(r, e)
    ensures !WorkLeft(r, e) ==> Attempt(r, e).deliveryStatus == Disabled
  {
    hide RetryableErrors, TerminalErrors, ErrorOf, ChatErrors;
    SkipsIff(r, e);
    if WorkLeft(r, e) {
      CleanAttemptCompletesIff(r, e);
    }
  }

  lemma SkipsIff(r: Row, e: Env)
    ensures Skips(r, e) <==> !e.notifierEnabled || !WorkLeft(r, e)
  {
  }

  /**
    An attempt dies at any point between its channel stages. The next clean attempt under the same
    settings marks the alert sent exactly when a channel these settings use was still open at the
    crash; with instant Telegram that is when a required channel was.
   */
  lemma CrashIsHealedIff(h: History, e: Env, stages: nat, f: Env)
    requires !h.row.sent && !Skips(h.row, e) && SameSettings(e, f)
    requires var r := Apply(h, Die(e, stages)).row; Clean(r, f) && !Unreachable(r, f)
    ensures var r := Apply(h, Die(e, stages)).row;
            && (Attempt(r, f).sent <==> WorkLeft(r, e))
            && (!e.digestMode || e.chatIds == [] ==> (Attempt(r, f).sent <==> !AllRequiredSent(r, e)))
  {
    hide Apply, Attempt, Clean, AfterStages;
    var r := Apply(h, Die(e, stages)).row;
    DieKeepsSent(h, e, stages);
    SkipsIff(h.row, e);
    CleanAttemptMarksSentIff(r, f);
  }

  lemma DieKeepsSent(h: History, e: Env, stages: nat)
    ensures Apply(h, Die(e, stages)).row.sent == h.row.sent
  {
  }

  /** No channel of these settings is left to attempt: each one configured is already `sent`. */
  ghost predicate NothingLeft(r: Row, e: Env) {
    (e.hasWebhookUrl ==> r.webhook == Sent) && (e.recipients > 0 ==> r.email == Sent) && (|e.chatIds| > 0 ==> r.telegram == Sent)
  }

  /** Once every configured channel is `sent`, each further attempt finds nothing to do and never marks the alert. */
  lemma {:induction false} StrandedForGood(h: History, envs: seq<Env>)
    requires |envs| > 0 && forall i | 0 <= i < |envs| :: NothingLeft(h.row, envs[i])
    ensures var r := Run(h, seq(|envs|, i requires 0 <= i < |envs| => Deliver(envs[i]))).row;
            r.sent == h.row.sent && r.deliveryStatus == Disabled && AllRequiredSent(r, envs[|envs| - 1])
    decreases |envs|
  {
    var ops := seq(|envs|, i requires 0 <= i < |envs| => Deliver(envs[i]));
    var next := Apply(h, ops[0]);
    assert NothingLeft(h.row, envs[0]);
    assert Skips(h.row, envs[0]);
    if |envs| > 1 {
      assert ops[1..] == seq(|envs| - 1, i requires 0 <= i < |envs| - 1 => Deliver(envs[1..][i]));
      StrandedForGood(next, envs[1..]);
    } else {
      assert ops[1..] == [];
    }
  }

  const START := History(FRESH, 0, 0, 0, 0)

  /** Every channel the settings configure can be attempted, and its send goes through. */
  predicate AllGoesThrough(e: Env) {
    && e.notifierEnabled && (e.hasWebhookUrl || e.recipients > 0 || |e.chatIds| > 0)
    && e.webhookOutcome.Marked? && e.quotaGranted && e.emailOutcome.Marked?
    && (e.recipients > 0 ==> e.emailEnabled)
    && (|e.chatIds| > 0 ==> e.telegramEnabled && !e.digestMode && ChatErrors(e.chatIds, e.chatRefusals) == [])
    && e.breaks.NoBreak?
  }

  /**
    The stranded row is reached from a new alert: an attempt in which everything goes through but
    that dies before `markSent` leaves the alert reported disabled by every later attempt under the
    same settings, although all its channels are `sent`.
   */
  lemma StrandedAfterCrash(e: Env, envs: seq<Env>)
    requires AllGoesThrough(e) && |envs| > 0 && forall i | 0 <= i < |envs| :: SameSettings(e, envs[i])
    ensures var dead := Apply(START, Die(e, 3));
            var r := Run(dead, seq(|envs|, i requires 0 <= i < |envs| => Deliver(envs[i]))).row;
            !Skips(FRESH, e) && !dead.row.sent && AllRequiredSent(dead.row, e) && !r.sent && r.deliveryStatus == Disabled
  {
    var dead := Apply(START, Die(e, 3));
    assert forall i | 0 <= i < |envs| :: NothingLeft(dead.row, envs[i]);
    hide Apply;
    StrandedForGood(dead, envs);
  }
}
