/** The tutoring routes of `backend/src/routes/ai.routes.js`: `POST /chat`,
    which validates the request, rebuilds the recent conversation from the
    chat log and hands the turn to the tutoring service, and `GET /usage`,
    which reports the month's quota and the last thirty days of token use
    grouped by day.

    A failing read of the store is an input (`historyFails`, `usageFails`);
    the service's own failures are modelled in `AiService`. */
module AiRoutes {
  import opened Wrappers
  import opened Text
  import opened Ordering
  import opened Tables
  import opened Http
  import opened AiService

  // ===========================================================================
  // Request validation
  // ===========================================================================

  const ValidSubjects: seq<string> :=
    ["math", "russian", "english", "physics", "chemistry", "biology", "history", "literature", "french"]
  const OutputModes: seq<string> := ["voice", "text", "both"]
  const DefaultOutputMode := "text"
  const MaxMessageLength: nat := 2000
  const MaxGrade: int := 11

  /** The body of `POST /chat` as the validators see it: a field is `None`
      when it is absent; `grade` is the field's text (a JSON number is read
      through its decimal spelling). */
  datatype ChatBody = ChatBody(message: Option<string>, subject: Option<string>, grade: Option<string>, outputMode: Option<string>)

  /** The four validated fields, in the order their checks are declared. */
  datatype Field = MessageField | SubjectField | GradeField | OutputModeField

  /** `isInt()`: an optional sign followed by at least one decimal digit. */
  predicate IsIntText(s: string) {
    var digits := SignFree(s);
    |digits| > 0 && AllDigits(digits)
  }

  function IntTextValue(s: string): int
    requires IsIntText(s)
  {
    var magnitude: int := DigitsValue(SignFree(s));
    if s[0] == '-' then -magnitude else magnitude
  }

  /** `trim().isLength({ min: 1, max: 2000 })`; an absent message reads as
      the empty text. */
  predicate MessageValid(message: Option<string>) {
    TrimmedLengthBetween(message.GetOr(""), 1, MaxMessageLength)
  }

  /** `isString().isIn(VALID_SUBJECTS)`. */
  predicate SubjectValid(subject: Option<string>) {
    subject.Some? && subject.value in ValidSubjects
  }

  /** `isInt({ min: 0, max: 11 })`. */
  predicate GradeValid(grade: Option<string>) {
    grade.Some? && IsIntText(grade.value) && 0 <= IntTextValue(grade.value) <= MaxGrade
  }

  /** `isIn(['voice', 'text', 'both']).optional()`: it may be left out. */
  predicate OutputModeValid(outputMode: Option<string>) {
    outputMode.None? || outputMode.value in OutputModes
  }

  /** Whether one field passes its check. */
  predicate FieldValid(body: ChatBody, f: Field) {
    match f
    case MessageField => MessageValid(body.message)
    case SubjectField => SubjectValid(body.subject)
    case GradeField => GradeValid(body.grade)
    case OutputModeField => OutputModeValid(body.outputMode)
  }

  /** Every field passes its check. */
  predicate AllValid(body: ChatBody) {
    && FieldValid(body, MessageField) && FieldValid(body, SubjectField)
    && FieldValid(body, GradeField) && FieldValid(body, OutputModeField)
  }

  /** The fields whose flag is false, in declaration order. */
  function Failing(message: bool, subject: bool, grade: bool, outputMode: bool): (r: seq<Field>)
    ensures MessageField in r <==> !message
    ensures SubjectField in r <==> !subject
    ensures GradeField in r <==> !grade
    ensures OutputModeField in r <==> !outputMode
    ensures r == [] <==> message && subject && grade && outputMode
  {
    (if message then [] else [MessageField]) + (if subject then [] else [SubjectField])
    + (if grade then [] else [GradeField]) + (if outputMode then [] else [OutputModeField])
  }

  /** The failing fields, in the order their checks are declared. */
  function FailingFields(body: ChatBody): (r: seq<Field>)
    ensures forall f :: f in r <==> !FieldValid(body, f)
    ensures r == [] <==> AllValid(body)
  {
    var r := Failing(MessageValid(body.message), SubjectValid(body.subject),
                     GradeValid(body.grade), OutputModeValid(body.outputMode));
    assert forall f :: f in r <==> !FieldValid(body, f) by {
      forall f ensures f in r <==> !FieldValid(body, f) {
        assert f == MessageField || f == SubjectField || f == GradeField || f == OutputModeField;
      }
    }
    r
  }

  /** A request that passed validation: the message as trimmed by the
      sanitizer, and the output mode with its default filled in. */
  datatype ChatRequest = ChatRequest(message: string, subject: string, grade: int, outputMode: string)

  /** `validationResult(req)`: the failing fields, or the request the handler
      goes on with. */
  function ValidateChatBody(body: ChatBody): (r: Result<ChatRequest, seq<Field>>)
    ensures r.Success? <==> AllValid(body)
    ensures r.Failure? ==> r.error == FailingFields(body) && r.error != []
    ensures r.Success? ==> body.message.Some? && body.subject.Some?
    ensures r.Success? ==>
      && r.value.message == Trim(body.message.value)
      && 1 <= |r.value.message| <= MaxMessageLength
      && r.value.subject == body.subject.value && r.value.subject in ValidSubjects
      && 0 <= r.value.grade <= MaxGrade
      && r.value.outputMode == body.outputMode.GetOr(DefaultOutputMode)
      && r.value.outputMode in OutputModes
  {
    var errors := FailingFields(body);
    if errors != [] then
      Failure(errors)
    else
      Success(ChatRequest(Trim(body.message.value), body.subject.value, IntTextValue(body.grade.value),
                          body.outputMode.GetOr(DefaultOutputMode)))
  }

  // ===========================================================================
  // The conversation history
  // ===========================================================================

  /** The number of logged turns sent back to the provider. */
  const HistoryTurns: nat := 10

  /** `where: { userId, subject }` on the chat log. */
  function ForSubject(interactions: seq<Interaction>, userId: UserId, subject: string): (r: seq<Interaction>)
    ensures forall x :: x in r <==> x in interactions && x.userId == userId && x.subject == subject
  {
    var keep := (x: Interaction) => x.userId == userId && x.subject == subject;
    FilterMembers(interactions, keep);
    Filter(interactions, keep)
  }

  /** `orderBy: { timestamp: 'desc' }, take: n`: the user's latest `n` logged
      turns in the subject, newest first. */
  function RecentInteractions(interactions: seq<Interaction>, userId: UserId, subject: string, n: nat): seq<Interaction> {
    Take(SortDesc(ForSubject(interactions, userId, subject), InteractionTime), n)
  }

  /** The window holds `min(n, m)` rows of the `m` the user logged in the
      subject, each no more often than it was logged, newest first, and no
      row left out is newer than one kept. */
  lemma RecentInteractionsAreLatest(interactions: seq<Interaction>, userId: UserId, subject: string, n: nat)
    ensures var m := |ForSubject(interactions, userId, subject)|;
      |RecentInteractions(interactions, userId, subject, n)| == if m < n then m else n
    ensures forall x :: x in RecentInteractions(interactions, userId, subject, n) ==>
      x in interactions && x.userId == userId && x.subject == subject
    ensures var r := RecentInteractions(interactions, userId, subject, n);
      forall i, j :: 0 <= i < j < |r| ==> r[i].timestamp >= r[j].timestamp
    ensures var r := RecentInteractions(interactions, userId, subject, n);
      forall x, i :: x in interactions && x.userId == userId && x.subject == subject && x !in r && 0 <= i < |r| ==>
        r[i].timestamp >= x.timestamp
    ensures multiset(RecentInteractions(interactions, userId, subject, n)) <= multiset(ForSubject(interactions, userId, subject))
  {
    var mine := ForSubject(interactions, userId, subject);
    var sorted := SortDesc(mine, InteractionTime);
    var r := Take(sorted, n);
    TakeSortedIsTop(mine, InteractionTime, n);
    forall i, j | 0 <= i < j < |r| ensures r[i].timestamp >= r[j].timestamp {
      assert r[i] == sorted[i] && r[j] == sorted[j];
      assert InteractionTime(sorted[i]) >= InteractionTime(sorted[j]);
    }
    forall x, i | x in mine && x !in r && 0 <= i < |r| ensures r[i].timestamp >= x.timestamp {
      assert InteractionTime(r[i]) >= InteractionTime(x);
    }
  }

  /** `flatMap` of each logged turn into the student's message and the
      tutor's answer. */
  function Expand(xs: seq<Interaction>): (r: seq<Turn>)
    ensures |r| == |xs| + |xs|
    ensures forall k :: 0 <= k < |xs| ==>
      r[k + k] == Turn("user", xs[k].userMessage) && r[k + k + 1] == Turn("assistant", xs[k].aiResponse)
  {
    if xs == [] then []
    else [Turn("user", xs[0].userMessage), Turn("assistant", xs[0].aiResponse)] + Expand(xs[1..])
  }

  /** The conversation passed to the service: the latest ten turns, oldest
      first, each as a user and an assistant message. */
  function HistoryWindow(interactions: seq<Interaction>, userId: UserId, subject: string): seq<Turn> {
    Expand(Reverse(RecentInteractions(interactions, userId, subject, HistoryTurns)))
  }

  /** The history has two messages per logged turn, `2·min(10, m)` in all;
      the pair at position `k` is the `k`-th turn of the reversed window, so
      the messages run oldest first and the newest turn comes last. */
  lemma HistoryWindowMeans(interactions: seq<Interaction>, userId: UserId, subject: string)
    ensures var m := |ForSubject(interactions, userId, subject)|;
      |HistoryWindow(interactions, userId, subject)| == 2 * (if m < HistoryTurns then m else HistoryTurns)
    ensures var oldestFirst := Reverse(RecentInteractions(interactions, userId, subject, HistoryTurns));
      var h := HistoryWindow(interactions, userId, subject);
      forall k :: 0 <= k < |oldestFirst| ==>
        h[k + k] == Turn("user", oldestFirst[k].userMessage) && h[k + k + 1] == Turn("assistant", oldestFirst[k].aiResponse)
    ensures var oldestFirst := Reverse(RecentInteractions(interactions, userId, subject, HistoryTurns));
      forall i, j :: 0 <= i < j < |oldestFirst| ==> oldestFirst[i].timestamp <= oldestFirst[j].timestamp
  {
    RecentInteractionsAreLatest(interactions, userId, subject, HistoryTurns);
  }

  // ===========================================================================
  // The answer
  // ===========================================================================

  /** What `POST /chat` answers: the tutor's reply (200), the failing fields
      (400), the quota figures read back from the error message (429), or the
      generic error (500). A figure that does not parse is `None` (`NaN`). */
  datatype ChatResponse =
    | ChatOk(reply: ChatReply)
    | Rejected(errors: seq<Field>)
    | QuotaExceeded(percentUsed: Option<int>, limit: Option<int>)
    | ChatFailed

  function StatusOf(r: ChatResponse): (status: int)
    ensures status == Ok <==> r.ChatOk?
    ensures status == BadRequest <==> r.Rejected?
    ensures status == TooManyRequests <==> r.QuotaExceeded?
    ensures status == ServerError <==> r.ChatFailed?
  {
    match r
    case ChatOk(_) => Ok
    case Rejected(_) => BadRequest
    case QuotaExceeded(_, _) => TooManyRequests
    case ChatFailed => ServerError
  }

  /** The `k`-th `:`-separated part of a message, read by `parseInt(_, 10)`;
      a part that is not there reads as `NaN`. */
  function PartAsInt(parts: seq<string>, k: nat): Option<int> {
    if k < |parts| then ParseInt(parts[k]) else None
  }

  /** The `catch` block: an error whose message starts with `QUOTA_EXCEEDED`
      becomes a 429 carrying the second and third `:`-separated parts as
      numbers; any other error becomes the generic 500. */
  function ChatErrorResponse(message: string): (r: ChatResponse)
    ensures r.QuotaExceeded? <==> StartsWith(message, QuotaErrorPrefix)
    ensures !StartsWith(message, QuotaErrorPrefix) ==> r == ChatFailed
    ensures r.QuotaExceeded? ==>
      r.percentUsed == PartAsInt(Split(message, ':'), 1) && r.limit == PartAsInt(Split(message, ':'), 2)
  {
    if StartsWith(message, QuotaErrorPrefix) then
      var parts := Split(message, ':');
      QuotaExceeded(PartAsInt(parts, 1), PartAsInt(parts, 2))
    else
      ChatFailed
  }

  /** The message the service throws on a used-up quota is read back exactly:
      the 429 carries the same percentage and cap. */
  lemma QuotaErrorRoundTrip(percentUsed: nat, limit: nat)
    ensures ChatErrorResponse(QuotaExceededMessage(percentUsed, limit)) == QuotaExceeded(Some(percentUsed), Some(limit))
  {
    var p, l := NatToString(percentUsed), NatToString(limit);
    NumberHasNoSeparator(percentUsed, ':');
    NumberHasNoSeparator(limit, ':');
    assert ':' !in QuotaErrorPrefix;
    SplitThree(QuotaErrorPrefix, p, l, ':');
    StartsWithJoined(QuotaErrorPrefix, ':', p + [':'] + l);
    ParseIntOfNatToString(percentUsed);
    ParseIntOfNatToString(limit);
  }

  /** The service's generic failure is not mistaken for a quota error. */
  lemma GenericErrorIsServerError()
    ensures ChatErrorResponse(GenericAiError) == ChatFailed
  {
    assert GenericAiError[0] != QuotaErrorPrefix[0];
  }

  // ===========================================================================
  // POST /chat
  // ===========================================================================

  /** Validates the body (400 and nothing read or written on a failing
      field), reads the history window (500 if the read throws), then runs the
      service's turn with the trimmed message and the defaulted output mode,
      and maps its outcome: the reply, the quota figures of its
      quota-exceeded error, or the generic 500. */
  method ChatRoute(db: Database, userId: UserId, body: ChatBody, provider: (SystemPrompt, seq<Turn>) -> ProviderReply,
                   now: int, year: int, month: int, historyFails: bool, logFails: bool, fault: StoreFault)
    returns (resp: ChatResponse)
    modifies db
    ensures ValidateChatBody(body).Failure? ==> resp == Rejected(ValidateChatBody(body).error) && db.tables == old(db.tables)
    ensures ValidateChatBody(body).Success? && historyFails ==> resp == ChatFailed && db.tables == old(db.tables)
    ensures ValidateChatBody(body).Success? && !historyFails && fault == LookupFails ==>
      resp == ChatFailed && db.tables == old(db.tables)
    ensures ValidateChatBody(body).Success? && !historyFails && fault != LookupFails ==>
      var req := ValidateChatBody(body).value;
      var key := Period(userId, year, month);
      var pre := QuotaReport(CurrentRow(old(db.tables.quotas), old(db.tables.subscriptions), key));
      var reply := provider(BuildSystemPrompt(req.subject, req.grade, req.outputMode),
                            ProviderTurns(HistoryWindow(old(db.tables.interactions), userId, req.subject), req.message));
      && (db.tables == if pre.hasQuota && Answered(reply)
                      then AfterAnsweredTurn(old(db.tables), userId, req.message, req.subject, req.grade, req.outputMode,
                                             reply, now, year, month, logFails, fault)
                      else AfterLookup(old(db.tables), key))
      && (!pre.hasQuota ==> resp == QuotaExceeded(Some(pre.percentUsed), Some(pre.limit)))
      && (pre.hasQuota && !Answered(reply) ==> resp == ChatFailed)
      && (pre.hasQuota && Answered(reply) && fault != NoFault ==> resp == ChatFailed)
      && (pre.hasQuota && Answered(reply) && fault == NoFault ==>
            var usage := TurnUsage(userId, reply, req.subject, now, year, month);
            var confidence := ConfidenceOf(FiredRules(req.message, reply.content[0], req.subject));
            var after := QuotaReport(db.tables.quotas[key]);
            resp == ChatOk(ChatReply(reply.content[0], confidence, NeedsReview(confidence),
                                     UsageSummary(usage.inputTokens, usage.outputTokens, usage.totalTokens,
                                                  after.remaining, after.percentUsed))))
  {
    var validation := ValidateChatBody(body);
    if validation.Failure? {
      return Rejected(validation.error);
    }
    var req := validation.value;
    if historyFails {
      return ChatFailed;
    }
    var history := HistoryWindow(db.tables.interactions, userId, req.subject);
    ghost var pre := QuotaReport(CurrentRow(db.tables.quotas, db.tables.subscriptions, Period(userId, year, month)));
    var outcome, providerCalled, reply := Chat(db, userId, req.message, req.subject, req.grade, history, req.outputMode,
                                               provider, now, year, month, logFails, fault);
    match outcome
    case Success(answer) =>
      resp := ChatOk(answer);
    case Failure(message) =>
      if fault != LookupFails && !providerCalled {
        QuotaErrorRoundTrip(pre.percentUsed, pre.limit);
      } else {
        GenericErrorIsServerError();
      }
      resp := ChatErrorResponse(message);
  }

  // ===========================================================================
  // Subject names across the route and the service
  // ===========================================================================

  /** The route admits only the English subject ids, while the service keys
      its subject blocks and its mathematics rule on Russian names: through
      this route every prompt carries the generic block and the
      missing-formula rule never fires. */
  lemma RouteSubjectsMissTheServiceTable(subject: string, userMessage: string, aiResponse: string)
    requires SubjectValid(Some(subject))
    ensures SubjectInstructions(subject) == GenericGuide
    ensures !Fires(NoFormula, userMessage, aiResponse, subject)
  {
    assert 'a' <= subject[0] <= 'z';
    assert forall key :: key in SubjectGuides ==> key[0] >= 'А';
  }

  // ===========================================================================
  // GET /usage
  // ===========================================================================

  const UsageWindowDays: nat := 30
  const UsageRows: nat := 100

  /** The user's usage records created at or after `since`. */
  function UsageSince(usage: seq<UsageRecord>, userId: UserId, since: int): (r: seq<UsageRecord>)
    ensures forall u :: u in r <==> u in usage && u.userId == userId && u.createdAt >= since
  {
    var keep := (u: UsageRecord) => u.userId == userId && u.createdAt >= since;
    FilterMembers(usage, keep);
    Filter(usage, keep)
  }

  /** `createdAt: { gte: thirtyDaysAgo }, orderBy: { createdAt: 'desc' },
      take: 100`. */
  function UsageWindow(usage: seq<UsageRecord>, userId: UserId, now: int): seq<UsageRecord> {
    Take(SortDesc(UsageSince(usage, userId, now - UsageWindowDays * MsPerDay), UsageTime), UsageRows)
  }

  /** The window holds the user's latest records of the last thirty days, at
      most a hundred and each no more often than it was written, newest
      first; no record of the period left out is newer than one kept. */
  lemma UsageWindowIsLatest(usage: seq<UsageRecord>, userId: UserId, now: int)
    ensures var m := |UsageSince(usage, userId, now - UsageWindowDays * MsPerDay)|;
      |UsageWindow(usage, userId, now)| == if m < UsageRows then m else UsageRows
    ensures forall u :: u in UsageWindow(usage, userId, now) ==>
      u in usage && u.userId == userId && u.createdAt >= now - UsageWindowDays * MsPerDay
    ensures var w := UsageWindow(usage, userId, now);
      forall i, j :: 0 <= i < j < |w| ==> w[i].createdAt >= w[j].createdAt
    ensures var w := UsageWindow(usage, userId, now);
      forall u, i ::
        (u in usage && u.userId == userId && u.createdAt >= now - UsageWindowDays * MsPerDay && u !in w && 0 <= i < |w|)
        ==> w[i].createdAt >= u.createdAt
    ensures multiset(UsageWindow(usage, userId, now)) <= multiset(UsageSince(usage, userId, now - UsageWindowDays * MsPerDay))
  {
    LatestUsageSince(usage, userId, now - UsageWindowDays * MsPerDay);
  }

  /** `UsageWindowIsLatest` for any start of the period. */
  lemma LatestUsageSince(usage: seq<UsageRecord>, userId: UserId, since: int)
    ensures var m := |UsageSince(usage, userId, since)|;
      |Take(SortDesc(UsageSince(usage, userId, since), UsageTime), UsageRows)| == if m < UsageRows then m else UsageRows
    ensures forall u :: u in Take(SortDesc(UsageSince(usage, userId, since), UsageTime), UsageRows) ==>
      u in usage && u.userId == userId && u.createdAt >= since
    ensures var w := Take(SortDesc(UsageSince(usage, userId, since), UsageTime), UsageRows);
      forall i, j :: 0 <= i < j < |w| ==> w[i].createdAt >= w[j].createdAt
    ensures var w := Take(SortDesc(UsageSince(usage, userId, since), UsageTime), UsageRows);
      forall u, i ::
        (u in usage && u.userId == userId && u.createdAt >= since && u !in w && 0 <= i < |w|)
        ==> w[i].createdAt >= u.createdAt
    ensures multiset(Take(SortDesc(UsageSince(usage, userId, since), UsageTime), UsageRows)) <= multiset(UsageSince(usage, userId, since))
  {
    var mine := UsageSince(usage, userId, since);
    var sorted := SortDesc(mine, UsageTime);
    var w := Take(sorted, UsageRows);
    TakeSortedIsTop(mine, UsageTime, UsageRows);
    forall i, j | 0 <= i < j < |w| ensures w[i].createdAt >= w[j].createdAt {
      assert w[i] == sorted[i] && w[j] == sorted[j];
      assert UsageTime(sorted[i]) >= UsageTime(sorted[j]);
    }
    forall u, i | u in mine && u !in w && 0 <= i < |w| ensures w[i].createdAt >= u.createdAt {
      assert UsageTime(w[i]) >= UsageTime(u);
    }
  }

  /** The UTC day of a record, as a day number: the `YYYY-MM-DD` part of its
      ISO timestamp names the same day. */
  function DayOf(u: UsageRecord): int {
    u.createdAt / MsPerDay
  }

  /** One entry of `dailyUsage`. */
  datatype DayUsage = DayUsage(date: int, inputTokens: nat, outputTokens: nat, totalTokens: nat, requests: nat)

  function NoUsage(date: int): DayUsage {
    DayUsage(date, 0, 0, 0, 0)
  }

  function InputOf(u: UsageRecord): nat { u.inputTokens }
  function OutputOf(u: UsageRecord): nat { u.outputTokens }
  function TotalOf(u: UsageRecord): nat { u.totalTokens }

  /** The sum of one column over a list of records. */
  function SumOf(records: seq<UsageRecord>, column: UsageRecord -> nat): nat {
    if records == [] then 0 else SumOf(records[..|records| - 1], column) + column(records[|records| - 1])
  }

  /** The records of one day, in list order. */
  function OnDay(records: seq<UsageRecord>, date: int): (r: seq<UsageRecord>)
    ensures forall u :: u in r <==> u in records && DayOf(u) == date
  {
    if records == [] then []
    else
      var last := records[|records| - 1];
      assert records == records[..|records| - 1] + [last];
      OnDay(records[..|records| - 1], date) + (if DayOf(last) == date then [last] else [])
  }

  /** What a day's entry should hold: the sums over that day's records, and
      their number. */
  function DayTotals(records: seq<UsageRecord>, date: int): DayUsage {
    var mine := OnDay(records, date);
    DayUsage(date, SumOf(mine, InputOf), SumOf(mine, OutputOf), SumOf(mine, TotalOf), |mine|)
  }

  /** A day's entry after one more of its records. */
  function Counted(d: DayUsage, u: UsageRecord): DayUsage {
    d.(inputTokens := d.inputTokens + u.inputTokens, outputTokens := d.outputTokens + u.outputTokens,
       totalTokens := d.totalTokens + u.totalTokens, requests := d.requests + 1)
  }

  /** `dailyUsage[date]`: the position of the day's entry, if it has one. */
  function FindDay(days: seq<DayUsage>, date: int): Option<nat> {
    FirstIndex(days, (d: DayUsage) => d.date == date)
  }

  predicate Listed(days: seq<DayUsage>, date: int) {
    exists i :: 0 <= i < |days| && days[i].date == date
  }

  /** One step of the `forEach`: the record's day gets an entry if it has
      none, then that entry counts the record. */
  function AddRecord(days: seq<DayUsage>, u: UsageRecord): seq<DayUsage> {
    match FindDay(days, DayOf(u))
    case Some(k) => days[k := Counted(days[k], u)]
    case None => days + [Counted(NoUsage(DayOf(u)), u)]
  }

  /** `dailyUsage` after the records, entries in order of their day's first
      record. */
  function Aggregate(records: seq<UsageRecord>): seq<DayUsage> {
    if records == [] then [] else AddRecord(Aggregate(records[..|records| - 1]), records[|records| - 1])
  }

  /** The sum of the entries' request counts. */
  function RequestSum(days: seq<DayUsage>): nat {
    if days == [] then 0 else RequestSum(days[..|days| - 1]) + days[|days| - 1].requests
  }

  /** Replacing one entry changes the request sum by the difference. */
  lemma {:induction false} RequestSumUpdate(days: seq<DayUsage>, k: nat, d: DayUsage)
    requires k < |days|
    ensures RequestSum(days[k := d]) + days[k].requests == RequestSum(days) + d.requests
    decreases |days|
  {
    var n := |days| - 1;
    if k < n {
      assert days[k := d][..n] == days[..n][k := d];
      RequestSumUpdate(days[..n], k, d);
    } else {
      assert days[k := d][..n] == days[..n];
    }
  }

  /** One more record of a day adds it to that day's totals and leaves the
      other days' totals alone. */
  lemma DayTotalsSnoc(records: seq<UsageRecord>, date: int)
    requires records != []
    ensures var last := records[|records| - 1];
      DayTotals(records, date) ==
        if DayOf(last) == date then Counted(DayTotals(records[..|records| - 1], date), last)
        else DayTotals(records[..|records| - 1], date)
  {
    var last := records[|records| - 1];
    var before := OnDay(records[..|records| - 1], date);
    if DayOf(last) == date {
      assert OnDay(records, date) == before + [last];
      assert (before + [last])[..|before|] == before;
    } else {
      assert OnDay(records, date) == before + [];
      assert before + [] == before;
    }
  }

  /** Each entry holds the sums over its day's records. */
  ghost predicate EntriesMatch(records: seq<UsageRecord>, days: seq<DayUsage>) {
    forall i :: 0 <= i < |days| ==> days[i] == DayTotals(records, days[i].date)
  }

  /** No day has two entries. */
  ghost predicate DistinctDays(days: seq<DayUsage>) {
    forall i, j :: 0 <= i < j < |days| ==> days[i].date != days[j].date
  }

  /** Every record's day has an entry. */
  ghost predicate AllListed(records: seq<UsageRecord>, days: seq<DayUsage>) {
    forall k :: 0 <= k < |records| ==> Listed(days, DayOf(records[k]))
  }

  /** A day without an entry has no records. */
  ghost predicate UnlistedEmpty(records: seq<UsageRecord>, days: seq<DayUsage>) {
    forall d :: !Listed(days, d) ==> DayTotals(records, d) == NoUsage(d)
  }

  /** `days` is the day-by-day summary of `records`. */
  ghost predicate Summarizes(records: seq<UsageRecord>, days: seq<DayUsage>) {
    EntriesMatch(records, days) && DistinctDays(days) && AllListed(records, days) && UnlistedEmpty(records, days)
  }

  // The four parts of `Summarizes` carried over one step of the `forEach`;
  // `before` is the records already seen and `a` their summary.

  lemma AddRecordTotals(records: seq<UsageRecord>, a: seq<DayUsage>)
    requires records != []
    requires EntriesMatch(records[..|records| - 1], a) && DistinctDays(a) && UnlistedEmpty(records[..|records| - 1], a)
    ensures EntriesMatch(records, AddRecord(a, records[|records| - 1]))
  {
    var u := records[|records| - 1];
    var days := AddRecord(a, u);
    forall i | 0 <= i < |days| ensures days[i] == DayTotals(records, days[i].date) {
      DayTotalsSnoc(records, days[i].date);
      match FindDay(a, DayOf(u))
      case Some(k) =>
        if i != k {
          assert a[i].date != DayOf(u);
        }
      case None =>
        if i < |a| {
          assert days[i] == a[i];
        } else {
          assert !Listed(a, DayOf(u));
        }
    }
  }

  lemma AddRecordDistinct(a: seq<DayUsage>, u: UsageRecord)
    requires DistinctDays(a)
    ensures DistinctDays(AddRecord(a, u))
  {
  }

  lemma AddRecordListed(records: seq<UsageRecord>, a: seq<DayUsage>)
    requires records != [] && AllListed(records[..|records| - 1], a)
    ensures AllListed(records, AddRecord(a, records[|records| - 1]))
  {
    var before, u := records[..|records| - 1], records[|records| - 1];
    var days := AddRecord(a, u);
    var at: nat;
    match FindDay(a, DayOf(u)) {
      case Some(i) =>
        assert days == a[i := Counted(a[i], u)];
        at := i;
      case None =>
        assert days == a + [Counted(NoUsage(DayOf(u)), u)];
        at := |a|;
    }
    assert |a| <= |days| && days[at].date == DayOf(u);
    assert forall i :: 0 <= i < |a| ==> days[i].date == a[i].date;
    forall k | 0 <= k < |records| ensures Listed(days, DayOf(records[k])) {
      if k < |before| {
        assert records[k] == before[k];
        var i :| 0 <= i < |a| && a[i].date == DayOf(before[k]);
        assert days[i].date == DayOf(records[k]);
      } else {
        assert days[at].date == DayOf(records[k]);
      }
    }
  }

  lemma AddRecordUnlisted(records: seq<UsageRecord>, a: seq<DayUsage>)
    requires records != [] && UnlistedEmpty(records[..|records| - 1], a)
    ensures UnlistedEmpty(records, AddRecord(a, records[|records| - 1]))
  {
    var u := records[|records| - 1];
    var days := AddRecord(a, u);
    var at: nat := match FindDay(a, DayOf(u)) case Some(k) => k case None => |a|;
    assert at < |days| && days[at].date == DayOf(u);
    assert forall i :: 0 <= i < |a| ==> days[i].date == a[i].date;
    forall d | !Listed(days, d) ensures DayTotals(records, d) == NoUsage(d) {
      DayTotalsSnoc(records, d);
      assert !Listed(a, d) by {
        forall i | 0 <= i < |a| ensures a[i].date != d {
          assert days[i].date == a[i].date;
        }
      }
      assert d != DayOf(u) by { assert days[at].date == DayOf(u); }
    }
  }

  /** The aggregation summarises its records, and the request counts add up
      to the number of records. */
  lemma {:induction false} AggregateMeans(records: seq<UsageRecord>)
    ensures Summarizes(records, Aggregate(records))
    ensures RequestSum(Aggregate(records)) == |records|
  {
    if records != [] {
      var before := records[..|records| - 1];
      var u := records[|records| - 1];
      AggregateMeans(before);
      var a := Aggregate(before);
      AddRecordTotals(records, a);
      AddRecordDistinct(a, u);
      AddRecordListed(records, a);
      AddRecordUnlisted(records, a);
      match FindDay(a, DayOf(u))
      case Some(k) =>
        RequestSumUpdate(a, k, Counted(a[k], u));
      case None =>
        var days := a + [Counted(NoUsage(DayOf(u)), u)];
        assert days[..|days| - 1] == a;
    }
  }

  /** The `forEach` over the window's records: each record's day entry is
      created on first sight and then counts the record's tokens and one
      request. */
  method AggregateDaily(records: seq<UsageRecord>) returns (days: seq<DayUsage>)
    ensures days == Aggregate(records)
    ensures Summarizes(records, days)
    ensures RequestSum(days) == |records|
  {
    days := [];
    for n := 0 to |records|
      invariant days == Aggregate(records[..n])
    {
      var u := records[n];
      var date := DayOf(u);
      var k := FindDay(days, date);
      if k.None? {
        days := days + [NoUsage(date)];
        k := Some(|days| - 1);
      }
      var entry := days[k.value];
      days := days[k.value := entry.(inputTokens := entry.inputTokens + u.inputTokens,
                                     outputTokens := entry.outputTokens + u.outputTokens,
                                     totalTokens := entry.totalTokens + u.totalTokens,
                                     requests := entry.requests + 1)];
      assert records[..n + 1][..n] == records[..n];
    }
    assert records[..|records|] == records;
    AggregateMeans(records);
  }

  /** The `/usage` answer: the month's quota, the day entries and the number
      of records in the window. */
  datatype UsageReport = UsageReport(quota: QuotaStatus, dailyUsage: seq<DayUsage>, totalRequests: nat)

  /** Runs the quota check (which creates the month's ledger row if it is
      missing), reads the window and aggregates it by day. A throwing quota
      lookup answers 500 and writes nothing; a failing read of the window
      answers 500, and the row the check created stays. */
  method UsageRoute(db: Database, userId: UserId, now: int, year: int, month: int, lookupFails: bool, usageFails: bool)
    returns (r: Result<UsageReport, int>)
    modifies db
    ensures lookupFails ==> r == Failure(ServerError) && db.tables == old(db.tables)
    ensures !lookupFails ==> db.tables == AfterLookup(old(db.tables), Period(userId, year, month))
    ensures !lookupFails && usageFails ==> r == Failure(ServerError)
    ensures !lookupFails && !usageFails ==>
      var window := UsageWindow(old(db.tables.tokenUsage), userId, now);
      && r.Success?
      && r.value.quota == QuotaReport(db.tables.quotas[Period(userId, year, month)])
      && r.value.dailyUsage == Aggregate(window)
      && r.value.totalRequests == |window| <= UsageRows
      && RequestSum(r.value.dailyUsage) == r.value.totalRequests
  {
    if lookupFails {
      return Failure(ServerError);
    }
    var quotaInfo := CheckQuota(db, userId, year, month);
    if usageFails {
      return Failure(ServerError);
    }
    var recentUsage := UsageWindow(db.tables.tokenUsage, userId, now);
    UsageWindowIsLatest(old(db.tables.tokenUsage), userId, now);
    var dailyUsage := AggregateDaily(recentUsage);
    r := Success(UsageReport(quotaInfo, dailyUsage, |recentUsage|));
  }
}
