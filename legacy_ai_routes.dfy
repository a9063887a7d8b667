/** The older tutoring routes of `repetitor-mvp`: `POST /chat` with the same
    validation and history window as the newer routes but a reply without a
    usage block and no special answer for a used-up quota, and
    `GET /history/:subject`, the latest fifty logged turns of a subject. */
module LegacyAiRoutes {
  import opened Wrappers
  import opened Tables
  import opened Http
  import opened AiService
  import opened AiRoutes

  /** What the older `POST /chat` answers: the reply's text and
      classification (200), the failing fields (400), or the generic error
      (500) for every failure, a used-up quota included. */
  datatype LegacyChatResponse =
    | Replied(text: string, confidence: nat, needsReview: bool)
    | Invalid(errors: seq<Field>)
    | Failed

  function LegacyStatus(r: LegacyChatResponse): (status: int)
    ensures status == Ok <==> r.Replied?
    ensures status == BadRequest <==> r.Invalid?
    ensures status == ServerError <==> r.Failed?
  {
    match r
    case Replied(_, _, _) => Ok
    case Invalid(_) => BadRequest
    case Failed => ServerError
  }

  /** Validates the body, reads the same ten-turn window, runs the service's
      turn and answers with the text and the classification only; any error
      the turn throws, a used-up quota included, becomes the generic 500. */
  method LegacyChatRoute(db: Database, userId: UserId, body: ChatBody, provider: (SystemPrompt, seq<Turn>) -> ProviderReply,
                         now: int, year: int, month: int, historyFails: bool, logFails: bool, fault: StoreFault)
    returns (resp: LegacyChatResponse)
    modifies db
    ensures ValidateChatBody(body).Failure? ==> resp == Invalid(ValidateChatBody(body).error) && db.tables == old(db.tables)
    ensures ValidateChatBody(body).Success? && historyFails ==> resp == Failed && db.tables == old(db.tables)
    ensures ValidateChatBody(body).Success? && !historyFails && fault == LookupFails ==>
      resp == Failed && db.tables == old(db.tables)
    ensures ValidateChatBody(body).Success? && !historyFails && fault != LookupFails ==>
      var req := ValidateChatBody(body).value;
      var key := Period(userId, year, month);
      var pre := QuotaReport(CurrentRow(old(db.tables.quotas), old(db.tables.subscriptions), key));
      var reply := provider(BuildSystemPrompt(req.subject, req.grade, req.outputMode),
                            ProviderTurns(HistoryWindow(old(db.tables.interactions), userId, req.subject), req.message));
      && (resp.Replied? <==> pre.hasQuota && Answered(reply) && fault == NoFault)
      && (!resp.Replied? ==> resp == Failed)
      && (resp.Replied? ==>
            var confidence := ConfidenceOf(FiredRules(req.message, reply.content[0], req.subject));
            resp == Replied(reply.content[0], confidence, NeedsReview(confidence)))
      && db.tables == if pre.hasQuota && Answered(reply)
                      then AfterAnsweredTurn(old(db.tables), userId, req.message, req.subject, req.grade, req.outputMode,
                                             reply, now, year, month, logFails, fault)
                      else AfterLookup(old(db.tables), key)
  {
    var validation := ValidateChatBody(body);
    if validation.Failure? {
      return Invalid(validation.error);
    }
    var req := validation.value;
    if historyFails {
      return Failed;
    }
    var history := HistoryWindow(db.tables.interactions, userId, req.subject);
    var outcome, providerCalled, reply := Chat(db, userId, req.message, req.subject, req.grade, history, req.outputMode,
                                               provider, now, year, month, logFails, fault);
    match outcome
    case Success(answer) =>
      resp := Replied(answer.text, answer.confidence, answer.needsReview);
    case Failure(_) =>
      resp := Failed;
  }

  // ===========================================================================
  // GET /history/:subject
  // ===========================================================================

  const HistoryRows: nat := 50

  /** The answer of `/history/:subject`: the logged turns (200), an invalid
      subject (400), or a failing read (500). */
  datatype HistoryResponse = HistoryOk(history: seq<Interaction>) | HistoryRejected | HistoryFailed

  /** A subject outside the list is refused; otherwise the latest fifty of the
      caller's logged turns in the subject, newest first: no turn left out is
      newer than one returned. */
  function History(interactions: seq<Interaction>, userId: UserId, subject: string, storeDown: bool): (r: HistoryResponse)
    ensures r.HistoryRejected? <==> subject !in ValidSubjects
    ensures r.HistoryFailed? <==> subject in ValidSubjects && storeDown
    ensures r.HistoryOk? ==>
      var m := |ForSubject(interactions, userId, subject)|;
      |r.history| == if m < HistoryRows then m else HistoryRows
    ensures r.HistoryOk? ==> forall x :: x in r.history ==> x in interactions && x.userId == userId && x.subject == subject
    ensures r.HistoryOk? ==> forall i, j :: 0 <= i < j < |r.history| ==> r.history[i].timestamp >= r.history[j].timestamp
    ensures r.HistoryOk? ==>
      forall x, i :: x in interactions && x.userId == userId && x.subject == subject && x !in r.history && 0 <= i < |r.history| ==>
        r.history[i].timestamp >= x.timestamp
    ensures r.HistoryOk? ==> multiset(r.history) <= multiset(ForSubject(interactions, userId, subject))
  {
    if subject !in ValidSubjects then HistoryRejected
    else if storeDown then HistoryFailed
    else
      RecentInteractionsAreLatest(interactions, userId, subject, HistoryRows);
      HistoryOk(RecentInteractions(interactions, userId, subject, HistoryRows))
  }
}
