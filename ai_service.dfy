/** The tutoring service: the monthly token ledger (plan caps, lazily created
    per-period rows, the quota check, usage commits), the order of one chat
    turn, the response classifier and the pieces of the system prompt.

    The ledger operations are methods over the shared `Database`; the quota
    arithmetic, the classifier's rule table and the prompt selectors are
    functions. The language-model provider is a function value from
    (system prompt, turns) to its reply. */
module AiService {
  import opened Wrappers
  import opened Text
  import opened Tables

  // ===========================================================================
  // Plan caps
  // ===========================================================================

  const FreeTokenLimit: nat := 50000

  /** Monthly token cap per plan. */
  const TierTokenLimits: map<string, nat> :=
    map["FREE" := 50000, "STARTER" := 200000, "STANDARD" := 500000, "PREMIUM" := 2000000]

  /** The plan of `userId`'s subscription row, if there is one. */
  function PlanOf(subscriptions: map<UserId, string>, userId: UserId): Option<string> {
    if userId in subscriptions then Some(subscriptions[userId]) else None
  }

  /** The cap for a subscription's plan: the four tiers have their own caps, and
      a missing subscription, an empty plan or a plan not in the table gets the
      FREE cap. */
  function UserTokenLimit(plan: Option<string>): (limit: Cap)
    ensures limit >= FreeTokenLimit
  {
    var name := if plan.None? || plan.value == "" then "FREE" else plan.value;
    if name in TierTokenLimits then TierTokenLimits[name] else TierTokenLimits["FREE"]
  }

  /** The four tiers get their own caps; a missing subscription, an empty plan
      or a plan not in the table gets the FREE cap. */
  lemma UserTokenLimitByPlan(plan: Option<string>)
    ensures plan == Some("FREE") ==> UserTokenLimit(plan) == 50000
    ensures plan == Some("STARTER") ==> UserTokenLimit(plan) == 200000
    ensures plan == Some("STANDARD") ==> UserTokenLimit(plan) == 500000
    ensures plan == Some("PREMIUM") ==> UserTokenLimit(plan) == 2000000
    ensures plan.None? || plan.value !in TierTokenLimits ==> UserTokenLimit(plan) == FreeTokenLimit
  {
  }

  // ===========================================================================
  // Ledger rows
  // ===========================================================================

  /** The row `getOrCreateMonthlyQuota` hands back: the existing one, or a fresh
      row with nothing used and the current plan's cap. */
  function CurrentRow(quotas: map<Period, QuotaRow>, subscriptions: map<UserId, string>, key: Period): (row: QuotaRow)
    ensures key in quotas ==> row == quotas[key]
    ensures key !in quotas ==> row.tokensUsed == 0 && row.tokenLimit == UserTokenLimit(PlanOf(subscriptions, key.userId))
  {
    if key in quotas then quotas[key] else QuotaRow(0, UserTokenLimit(PlanOf(subscriptions, key.userId)))
  }

  /** The ledger after the pre-check's lookup: the period's row is created if
      it was missing. */
  function LookedUp(quotas: map<Period, QuotaRow>, subscriptions: map<UserId, string>, key: Period): map<Period, QuotaRow> {
    quotas[key := CurrentRow(quotas, subscriptions, key)]
  }

  /** Finds the (user, year, month) row and creates it if it is missing. An
      existing row, its cap included, is left as it is even when the plan has
      changed since it was created. */
  method GetOrCreateMonthlyQuota(db: Database, userId: UserId, year: int, month: int) returns (row: QuotaRow)
    modifies db
    ensures row == CurrentRow(old(db.tables.quotas), db.tables.subscriptions, Period(userId, year, month))
    ensures db.tables == old(db.tables).(quotas := LookedUp(old(db.tables.quotas), db.tables.subscriptions, Period(userId, year, month)))
    ensures Period(userId, year, month) in old(db.tables.quotas) ==> db.tables == old(db.tables)
  {
    var key := Period(userId, year, month);
    var tokenLimit := UserTokenLimit(PlanOf(db.tables.subscriptions, userId));
    if key in db.tables.quotas {
      row := db.tables.quotas[key];
    } else {
      row := QuotaRow(0, tokenLimit);
      db.tables := db.tables.(quotas := db.tables.quotas[key := row]);
    }
  }

  // ===========================================================================
  // Quota check
  // ===========================================================================

  datatype QuotaStatus = QuotaStatus(hasQuota: bool, remaining: int, used: nat, limit: nat, percentUsed: nat)

  /** The percentage of the limit used, rounded to the nearest whole number
      with halves rounded up, computed exactly in integer arithmetic. The
      source rounds the floating-point product `used / limit * 100`, which can
      fall just below a half where the exact value is one (7250 of 50000 is
      exactly 14.5 but comes out as 14.499999999999998, so the source reports
      14 where this reports 15). */
  function RoundedPercent(used: nat, limit: nat): nat
    requires limit > 0
  {
    (200 * used + limit) / (2 * limit)
  }

  /** The rounded percentage is the whole number nearest to `100 * used / limit`,
      halves rounded up: `p - 1/2 <= 100 * used / limit < p + 1/2`. */
  lemma RoundedPercentIsNearest(used: nat, limit: nat)
    requires limit > 0
    ensures 2 * limit * RoundedPercent(used, limit) <= 200 * used + limit < 2 * limit * (RoundedPercent(used, limit) + 1)
  {
    var n, d := 200 * used + limit, 2 * limit;
    var q := n / d;
    assert n == d * q + n % d;
    assert 0 <= n % d < d;
    assert d * (q + 1) == d * q + d;
  }

  /** What `checkQuota` reports for a ledger row. */
  function QuotaReport(row: QuotaRow): (s: QuotaStatus)
    ensures s.used == row.tokensUsed && s.limit == row.tokenLimit
    ensures s.remaining + s.used == s.limit
    ensures s.hasQuota <==> row.tokensUsed < row.tokenLimit
    ensures 2 * s.limit * s.percentUsed <= 200 * s.used + s.limit < 2 * s.limit * (s.percentUsed + 1)
  {
    RoundedPercentIsNearest(row.tokensUsed, row.tokenLimit);
    var remaining := row.tokenLimit - row.tokensUsed;
    QuotaStatus(remaining > 0, remaining, row.tokensUsed, row.tokenLimit,
                RoundedPercent(row.tokensUsed, row.tokenLimit))
  }

  /** `checkQuota`: looks the period's row up (creating it if missing) and
      reports on it. */
  method CheckQuota(db: Database, userId: UserId, year: int, month: int) returns (status: QuotaStatus)
    modifies db
    ensures Period(userId, year, month) in db.tables.quotas
    ensures db.tables == old(db.tables).(quotas := LookedUp(old(db.tables.quotas), db.tables.subscriptions, Period(userId, year, month)))
    ensures status == QuotaReport(db.tables.quotas[Period(userId, year, month)])
  {
    var row := GetOrCreateMonthlyQuota(db, userId, year, month);
    status := QuotaReport(row);
  }

  // ===========================================================================
  // Usage commit
  // ===========================================================================

  function PeriodOf(r: UsageRecord): Period {
    Period(r.userId, r.year, r.month)
  }

  /** The ledger after the upsert of a commit of `total` tokens: an existing
      row is incremented (its cap kept), a missing one is created with
      `total` used and `limitIfNew` as its cap. */
  function Commit(quotas: map<Period, QuotaRow>, key: Period, total: nat, limitIfNew: Cap): map<Period, QuotaRow> {
    if key in quotas then quotas[key := QuotaRow(quotas[key].tokensUsed + total, quotas[key].tokenLimit)]
    else quotas[key := QuotaRow(total, limitIfNew)]
  }

  /** A commit never lowers a counter and never changes a cap; it raises the
      committed period's counter by exactly `total` and touches no other row. */
  lemma CommitOnlyGrows(quotas: map<Period, QuotaRow>, key: Period, total: nat, limitIfNew: Cap)
    ensures var after := Commit(quotas, key, total, limitIfNew);
      && after.Keys == quotas.Keys + {key}
      && after[key].tokensUsed == (if key in quotas then quotas[key].tokensUsed else 0) + total
      && (forall k :: k in quotas ==> after[k].tokensUsed >= quotas[k].tokensUsed && after[k].tokenLimit == quotas[k].tokenLimit)
      && (forall k :: k in quotas && k != key ==> after[k] == quotas[k])
  {
  }

  /** Where one chat turn's store access throws, besides logging (whose
      failure is swallowed): the pre-check's lookup, the usage insert, the
      ledger upsert, or the re-check after the commit. */
  datatype StoreFault = NoFault | LookupFails | UsageInsertFails | UpsertFails | RecheckFails

  /** The tables after `updateTokenUsage` writes `usage`: the usage row, then,
      in a separate write, the increment of its period's ledger row (created
      with the plan's cap if missing). A throwing insert writes nothing; a
      throwing upsert leaves the usage row without its increment. */
  function UsageWritten(t: Tables, usage: UsageRecord, fault: StoreFault): Tables {
    if fault == UsageInsertFails then t
    else
      var appended := t.(tokenUsage := t.tokenUsage + [usage]);
      if fault == UpsertFails then appended
      else appended.(quotas := Commit(t.quotas, PeriodOf(usage), usage.totalTokens, UserTokenLimit(PlanOf(t.subscriptions, usage.userId))))
  }

  /** `updateTokenUsage`: appends one usage row whose total is input + output,
      then increments (or creates) the period's ledger row by that total, and
      returns the total; when either write throws, no total is returned. */
  method UpdateTokenUsage(db: Database, userId: UserId, inputTokens: nat, outputTokens: nat,
                          subject: string, model: string, now: int, year: int, month: int, fault: StoreFault)
    returns (total: Option<nat>)
    modifies db
    ensures total == if fault == UsageInsertFails || fault == UpsertFails then None else Some(inputTokens + outputTokens)
    ensures db.tables == UsageWritten(old(db.tables),
      UsageRecord(userId, inputTokens, outputTokens, inputTokens + outputTokens, model, subject, now, year, month), fault)
  {
    var sum := inputTokens + outputTokens;
    var record := UsageRecord(userId, inputTokens, outputTokens, sum, model, subject, now, year, month);
    if fault == UsageInsertFails {
      return None;
    }
    var limitIfNew := UserTokenLimit(PlanOf(db.tables.subscriptions, userId));
    db.tables := db.tables.(tokenUsage := db.tables.tokenUsage + [record]);
    if fault == UpsertFails {
      return None;
    }
    db.tables := db.tables.(quotas := Commit(db.tables.quotas, Period(userId, year, month), sum, limitIfNew));
    total := Some(sum);
  }

  // ===========================================================================
  // Ledger = sum of usage rows
  // ===========================================================================

  /** The sum of the totals of the usage rows written in `key`'s period. */
  function PeriodTotal(usage: seq<UsageRecord>, key: Period): nat {
    if usage == [] then 0
    else
      var last := usage[|usage| - 1];
      PeriodTotal(usage[..|usage| - 1], key) + (if PeriodOf(last) == key then last.totalTokens else 0)
  }

  /** Each ledger row holds the sum of its period's usage rows, and every usage
      row's period has a ledger row. */
  ghost predicate LedgerMatchesUsage(quotas: map<Period, QuotaRow>, usage: seq<UsageRecord>) {
    && (forall k :: k in quotas ==> quotas[k].tokensUsed == PeriodTotal(usage, k))
    && (forall i :: 0 <= i < |usage| ==> PeriodOf(usage[i]) in quotas)
  }

  /** A period without usage rows sums to zero. */
  lemma {:induction false} NoRowsNoTotal(usage: seq<UsageRecord>, key: Period)
    requires forall i :: 0 <= i < |usage| ==> PeriodOf(usage[i]) != key
    ensures PeriodTotal(usage, key) == 0
  {
    if usage != [] {
      NoRowsNoTotal(usage[..|usage| - 1], key);
    }
  }

  /** Creating an empty row for a period keeps the ledger equal to the usage sums. */
  lemma FreshRowKeepsLedgerMatch(quotas: map<Period, QuotaRow>, usage: seq<UsageRecord>, key: Period, limit: Cap)
    requires LedgerMatchesUsage(quotas, usage)
    requires key !in quotas
    ensures LedgerMatchesUsage(quotas[key := QuotaRow(0, limit)], usage)
  {
    NoRowsNoTotal(usage, key);
  }

  /** Appending a usage row and committing its total keeps every ledger row
      equal to the sum of its period's usage rows. */
  lemma CommitKeepsLedgerMatch(quotas: map<Period, QuotaRow>, usage: seq<UsageRecord>, r: UsageRecord, limitIfNew: Cap)
    requires LedgerMatchesUsage(quotas, usage)
    ensures LedgerMatchesUsage(Commit(quotas, PeriodOf(r), r.totalTokens, limitIfNew), usage + [r])
  {
    var usage' := usage + [r];
    assert usage'[..|usage'| - 1] == usage;
    if PeriodOf(r) !in quotas {
      NoRowsNoTotal(usage, PeriodOf(r));
    }
    var after := Commit(quotas, PeriodOf(r), r.totalTokens, limitIfNew);
    forall i | 0 <= i < |usage'| ensures PeriodOf(usage'[i]) in after {
      if i < |usage| { assert usage'[i] == usage[i]; }
    }
  }

  /** Appending a row adds its total to its own period's sum and nothing to
      any other period's. */
  lemma AppendedTotal(usage: seq<UsageRecord>, r: UsageRecord, key: Period)
    ensures PeriodTotal(usage + [r], key) == PeriodTotal(usage, key) + (if PeriodOf(r) == key then r.totalTokens else 0)
  {
    assert (usage + [r])[..|usage|] == usage;
  }

  /** The usage write keeps every ledger row equal to the sum of its period's
      usage rows, except when the upsert throws after the insert of a row
      that adds tokens or whose period has no ledger row: that usage row is
      then not counted by the ledger. */
  lemma UsageWrittenLedger(t: Tables, usage: UsageRecord, fault: StoreFault)
    requires LedgerMatchesUsage(t.quotas, t.tokenUsage)
    ensures var after := UsageWritten(t, usage, fault);
      LedgerMatchesUsage(after.quotas, after.tokenUsage) <==>
        (fault != UpsertFails || (usage.totalTokens == 0 && PeriodOf(usage) in t.quotas))
  {
    var after := UsageWritten(t, usage, fault);
    var key := PeriodOf(usage);
    if fault == UpsertFails {
      var rows := t.tokenUsage + [usage];
      assert after.quotas == t.quotas && after.tokenUsage == rows;
      if key !in t.quotas {
        assert PeriodOf(rows[|t.tokenUsage|]) !in after.quotas;
      } else {
        AppendedTotal(t.tokenUsage, usage, key);
        if usage.totalTokens == 0 {
          forall k | k in t.quotas ensures t.quotas[k].tokensUsed == PeriodTotal(rows, k) {
            AppendedTotal(t.tokenUsage, usage, k);
          }
          forall i | 0 <= i < |rows| ensures PeriodOf(rows[i]) in t.quotas {
            if i < |t.tokenUsage| { assert rows[i] == t.tokenUsage[i]; }
          }
        } else {
          assert t.quotas[key].tokensUsed != PeriodTotal(rows, key);
        }
      }
    } else if fault != UsageInsertFails {
      CommitKeepsLedgerMatch(t.quotas, t.tokenUsage, usage, UserTokenLimit(PlanOf(t.subscriptions, usage.userId)));
    }
  }

  /** One answered chat turn (lookup, then usage row and commit) keeps every
      ledger row equal to the sum of its period's usage rows, and so does a
      turn that stops after the lookup. */
  lemma TurnKeepsLedgerMatch(quotas: map<Period, QuotaRow>, usage: seq<UsageRecord>,
                             subscriptions: map<UserId, string>, r: UsageRecord, limitIfNew: Cap)
    requires LedgerMatchesUsage(quotas, usage)
    ensures LedgerMatchesUsage(LookedUp(quotas, subscriptions, PeriodOf(r)), usage)
    ensures LedgerMatchesUsage(Commit(LookedUp(quotas, subscriptions, PeriodOf(r)), PeriodOf(r), r.totalTokens, limitIfNew), usage + [r])
  {
    var key := PeriodOf(r);
    if key !in quotas {
      FreshRowKeepsLedgerMatch(quotas, usage, key, CurrentRow(quotas, subscriptions, key).tokenLimit);
    } else {
      assert LookedUp(quotas, subscriptions, key) == quotas;
    }
    CommitKeepsLedgerMatch(LookedUp(quotas, subscriptions, key), usage, r, limitIfNew);
  }

  /** The commit is not capped: with 49 900 of 50 000 used, a turn of 50 input
      and 60 output tokens leaves 50 010 used, and the next check reports no
      quota left. */
  lemma CommitOvershootsCap(quotas: map<Period, QuotaRow>, key: Period)
    requires key in quotas && quotas[key] == QuotaRow(49900, 50000)
    ensures var after := Commit(quotas, key, 50 + 60, FreeTokenLimit);
      && after[key] == QuotaRow(50010, 50000)
      && !QuotaReport(after[key]).hasQuota
      && QuotaReport(after[key]).remaining == -10
  {
  }

  // ===========================================================================
  // Response classifier
  // ===========================================================================

  /** The classifier's rules, in the order they are checked. */
  datatype Rule = TooShort | NoFormula | FullSolution | Unfriendly

  const Rules: seq<Rule> := [TooShort, NoFormula, FullSolution, Unfriendly]

  /** Each rule's penalty, in tenths of confidence. */
  function Penalty(rule: Rule): nat {
    match rule
    case TooShort => 2
    case NoFormula => 3
    case FullSolution => 4
    case Unfriendly => 1
  }

  function IssueText(rule: Rule): string {
    match rule
    case TooShort => "Ответ слишком короткий"
    case NoFormula => "Нет формул в математическом ответе"
    case FullSolution => "AI дал готовое решение"
    case Unfriendly => "Недружелюбный тон"
  }

  const MathSubject := "Математика"
  const FormulaChars := "+-*/="
  const SolveKeyword := "реши"
  const AnswerLabel := "ответ:"
  const FriendlyWords: seq<string> := ["отлично", "молодец", "хорошо", "давай", "попробуй", "супер", "здорово"]

  /** Whether the response holds one of `+ - * / =`. */
  predicate HasFormula(s: string) {
    exists i :: 0 <= i < |s| && s[i] in FormulaChars
  }

  /** The mathematics rule: for the subject named "Математика", a request
      containing "решить" or "задач" (case as written) answered without any
      operator symbol. */
  predicate MathRuleFires(userMessage: string, aiResponse: string, subject: string) {
    && subject == MathSubject
    && !HasFormula(aiResponse)
    && (Contains(userMessage, "решить") || Contains(userMessage, "задач"))
  }

  predicate IsDigitOrDot(c: char) {
    IsDigit(c) || c == '.'
  }

  predicate WhitespaceRun(t: string, lo: nat, hi: nat)
    requires lo <= hi <= |t|
  {
    forall j :: lo <= j < hi ==> IsWhitespace(t[j])
  }

  /** The pattern `ответ:\s*[\d.]+` matches `t` starting at `i`. */
  predicate AnswerMatchAt(t: string, i: nat) {
    && OccursAt(t, AnswerLabel, i)
    && exists k :: i + |AnswerLabel| <= k < |t| && WhitespaceRun(t, i + |AnswerLabel|, k) && IsDigitOrDot(t[k])
  }

  /** The first position at or after `j` that does not hold white space. */
  function SkipWhitespace(t: string, j: nat): (k: nat)
    requires j <= |t|
    ensures j <= k <= |t| && WhitespaceRun(t, j, k)
    ensures k < |t| ==> !IsWhitespace(t[k])
    decreases |t| - j
  {
    if j < |t| && IsWhitespace(t[j]) then SkipWhitespace(t, j + 1) else j
  }

  /** After the label, the pattern needs white space and then a digit or a
      dot; the greedy white-space run decides it. */
  lemma AnswerTailGreedy(t: string, j: nat)
    requires j <= |t|
    ensures (exists k :: j <= k < |t| && WhitespaceRun(t, j, k) && IsDigitOrDot(t[k]))
        <==> (SkipWhitespace(t, j) < |t| && IsDigitOrDot(t[SkipWhitespace(t, j)]))
  {
    var k0 := SkipWhitespace(t, j);
    forall k | j <= k < |t| && WhitespaceRun(t, j, k) && IsDigitOrDot(t[k]) ensures k == k0 {
    }
  }

  /** Searches `t` for a match of the answer pattern, from position `from` on. */
  function FindAnswer(t: string, from: nat): bool
    decreases |t| - from
  {
    if from + |AnswerLabel| > |t| then false
    else
      var j := from + |AnswerLabel|;
      (t[from..j] == AnswerLabel && SkipWhitespace(t, j) < |t| && IsDigitOrDot(t[SkipWhitespace(t, j)]))
      || FindAnswer(t, from + 1)
  }

  /** `FindAnswer` is true exactly when the pattern matches at `from` or later. */
  lemma {:induction false} FindAnswerMeans(t: string, from: nat)
    ensures FindAnswer(t, from) <==> exists i: nat :: from <= i && AnswerMatchAt(t, i)
    decreases |t| - from
  {
    if from + |AnswerLabel| > |t| {
      assert forall i: nat :: from <= i ==> !OccursAt(t, AnswerLabel, i);
    } else {
      AnswerTailGreedy(t, from + |AnswerLabel|);
      FindAnswerMeans(t, from + 1);
      if AnswerMatchAt(t, from) {
        assert from <= from && AnswerMatchAt(t, from);
      }
      forall i: nat | from <= i && AnswerMatchAt(t, i) && i != from ensures from + 1 <= i {
      }
    }
  }

  /** `containsFullSolution(response, question)`: the lower-cased question
      contains "реши" and the lower-cased response holds a match of the
      answer pattern. */
  function ContainsFullSolution(response: string, question: string): bool {
    Contains(ToLower(question), SolveKeyword) && FindAnswer(ToLower(response), 0)
  }

  /** Only a question containing "реши" can trip the rule, and then exactly
      when `ответ:\s*[\d.]+` matches the response, case-insensitively. */
  lemma ContainsFullSolutionMeans(response: string, question: string)
    ensures ContainsFullSolution(response, question)
        <==> (exists i: nat :: OccursAt(ToLower(question), SolveKeyword, i))
             && (exists i: nat :: AnswerMatchAt(ToLower(response), i))
  {
    ContainsMeans(ToLower(question), SolveKeyword);
    FindAnswerMeans(ToLower(response), 0);
  }

  /** `isFriendlyTone`: the lower-cased text contains one of the seven words. */
  function IsFriendlyTone(text: string): bool {
    ContainsAny(ToLower(text), FriendlyWords)
  }

  /** A text is friendly exactly when one of the words occurs in it, lower-cased. */
  lemma IsFriendlyToneMeans(text: string)
    ensures IsFriendlyTone(text) <==> exists k, i: nat :: 0 <= k < |FriendlyWords| && OccursAt(ToLower(text), FriendlyWords[k], i)
  {
    ContainsAnyMeans(ToLower(text), FriendlyWords);
    forall k | 0 <= k < |FriendlyWords| {
      ContainsMeans(ToLower(text), FriendlyWords[k]);
    }
  }

  /** Whether `rule` fires for this exchange. */
  predicate Fires(rule: Rule, userMessage: string, aiResponse: string, subject: string) {
    match rule
    case TooShort => |aiResponse| < 50
    case NoFormula => MathRuleFires(userMessage, aiResponse, subject)
    case FullSolution => ContainsFullSolution(aiResponse, userMessage)
    case Unfriendly => !IsFriendlyTone(aiResponse)
  }

  /** `[rule]` when `fires`, else nothing. */
  function When(fires: bool, rule: Rule): seq<Rule> {
    if fires then [rule] else []
  }

  /** The rules that fire, in rule order. */
  function FiredRules(userMessage: string, aiResponse: string, subject: string): seq<Rule> {
    When(|aiResponse| < 50, TooShort)
      + When(MathRuleFires(userMessage, aiResponse, subject), NoFormula)
      + When(ContainsFullSolution(aiResponse, userMessage), FullSolution)
      + When(!IsFriendlyTone(aiResponse), Unfriendly)
  }

  function TotalPenalty(rules: seq<Rule>): nat {
    if rules == [] then 0 else TotalPenalty(rules[..|rules| - 1]) + Penalty(rules[|rules| - 1])
  }

  function IssueTexts(rules: seq<Rule>): (r: seq<string>)
    ensures |r| == |rules|
  {
    if rules == [] then [] else IssueTexts(rules[..|rules| - 1]) + [IssueText(rules[|rules| - 1])]
  }

  /** Confidence in tenths: ten minus the fired penalties, floored at zero. */
  function ConfidenceOf(fired: seq<Rule>): nat {
    if TotalPenalty(fired) >= 10 then 0 else 10 - TotalPenalty(fired)
  }

  /** The review flag: confidence below 0.7. */
  predicate NeedsReview(confidence: nat) {
    confidence < 7
  }

  /** `validateResponse`: starts at 1.0 and applies the four rules in order,
      subtracting each fired rule's penalty and recording its issue. */
  method ValidateResponse(userMessage: string, aiResponse: string, subject: string)
    returns (confidence: nat, issues: seq<string>)
    ensures issues == IssueTexts(FiredRules(userMessage, aiResponse, subject))
    ensures confidence == ConfidenceOf(FiredRules(userMessage, aiResponse, subject))
  {
    var score: int := 10;
    issues := [];
    ghost var fired: seq<Rule> := [];
    if |aiResponse| < 50 {
      issues := issues + [IssueText(TooShort)];
      score := score - Penalty(TooShort);
    }
    fired := Extend(fired, TooShort, |aiResponse| < 50);
    assert score == 10 - TotalPenalty(fired) && issues == IssueTexts(fired);
    if MathRuleFires(userMessage, aiResponse, subject) {
      issues := issues + [IssueText(NoFormula)];
      score := score - Penalty(NoFormula);
    }
    fired := Extend(fired, NoFormula, MathRuleFires(userMessage, aiResponse, subject));
    assert score == 10 - TotalPenalty(fired) && issues == IssueTexts(fired);
    if ContainsFullSolution(aiResponse, userMessage) {
      issues := issues + [IssueText(FullSolution)];
      score := score - Penalty(FullSolution);
    }
    fired := Extend(fired, FullSolution, ContainsFullSolution(aiResponse, userMessage));
    assert score == 10 - TotalPenalty(fired) && issues == IssueTexts(fired);
    if !IsFriendlyTone(aiResponse) {
      issues := issues + [IssueText(Unfriendly)];
      score := score - Penalty(Unfriendly);
    }
    fired := Extend(fired, Unfriendly, !IsFriendlyTone(aiResponse));
    assert score == 10 - TotalPenalty(fired) && issues == IssueTexts(fired);
    confidence := if score > 0 then score else 0;
  }

  /** `fired` followed by `rule` if it fires: the penalty sum grows by the
      rule's penalty and the issue list by its text. */
  ghost function Extend(fired: seq<Rule>, rule: Rule, fires: bool): (r: seq<Rule>)
    ensures r == fired + When(fires, rule)
    ensures fires ==> TotalPenalty(r) == TotalPenalty(fired) + Penalty(rule)
    ensures fires ==> IssueTexts(r) == IssueTexts(fired) + [IssueText(rule)]
    ensures !fires ==> r == fired
  {
    if fires then
      var r := fired + [rule];
      assert r[..|r| - 1] == fired;
      r
    else
      assert fired + [] == fired;
      fired
  }

  /** The penalty of two runs of rules is the sum of their penalties. */
  lemma {:induction false} TotalPenaltyAppend(a: seq<Rule>, b: seq<Rule>)
    ensures TotalPenalty(a + b) == TotalPenalty(a) + TotalPenalty(b)
  {
    if b == [] {
      assert a + b == a;
    } else {
      assert (a + b)[..|a + b| - 1] == a + b[..|b| - 1];
      TotalPenaltyAppend(a, b[..|b| - 1]);
    }
  }

  /** The issue at position `k` is the text of the `k`-th rule. */
  lemma {:induction false} IssueTextsAt(rules: seq<Rule>)
    ensures forall k :: 0 <= k < |rules| ==> IssueTexts(rules)[k] == IssueText(rules[k])
  {
    if rules != [] {
      IssueTextsAt(rules[..|rules| - 1]);
    }
  }

  /** A rule is among the fired rules exactly when it fires; at most the four
      rules fire, and their penalties add up to at most 1.0. */
  lemma FiredRulesMeans(userMessage: string, aiResponse: string, subject: string)
    ensures forall rule :: rule in FiredRules(userMessage, aiResponse, subject) <==> Fires(rule, userMessage, aiResponse, subject)
    ensures |FiredRules(userMessage, aiResponse, subject)| <= 4
    ensures TotalPenalty(FiredRules(userMessage, aiResponse, subject)) <= 10
  {
    var m, r, subj := userMessage, aiResponse, subject;
    var b0, b1, b2, b3 := |r| < 50, MathRuleFires(m, r, subj), ContainsFullSolution(r, m), !IsFriendlyTone(r);
    assert FiredRules(m, r, subj) == When(b0, TooShort) + When(b1, NoFormula) + When(b2, FullSolution) + When(b3, Unfriendly);
    FourMembers(b0, b1, b2, b3);
    FourPenalty(b0, b1, b2, b3);
    forall rule ensures rule in FiredRules(m, r, subj) <==> Fires(rule, m, r, subj) {
      match rule
      case TooShort => assert Fires(rule, m, r, subj) == b0;
      case NoFormula => assert Fires(rule, m, r, subj) == b1;
      case FullSolution => assert Fires(rule, m, r, subj) == b2;
      case Unfriendly => assert Fires(rule, m, r, subj) == b3;
    }
  }

  /** `When(fires, rule)` holds `rule` exactly when it fires, and nothing else. */
  lemma WhenFacts(fires: bool, rule: Rule)
    ensures TotalPenalty(When(fires, rule)) == if fires then Penalty(rule) else 0
    ensures |When(fires, rule)| <= 1
    ensures rule in When(fires, rule) <==> fires
    ensures forall x :: x in When(fires, rule) ==> x == rule
  {
    if fires {
      assert [rule][..0] == [];
    }
  }

  /** Each of the four rules is in the list exactly when its outcome is true. */
  lemma FourMembers(tooShort: bool, noFormula: bool, fullSolution: bool, unfriendly: bool)
    ensures var fired := When(tooShort, TooShort) + When(noFormula, NoFormula)
                         + When(fullSolution, FullSolution) + When(unfriendly, Unfriendly);
      && (TooShort in fired <==> tooShort) && (NoFormula in fired <==> noFormula)
      && (FullSolution in fired <==> fullSolution) && (Unfriendly in fired <==> unfriendly)
      && |fired| <= 4
  {
    WhenFacts(tooShort, TooShort);
    WhenFacts(noFormula, NoFormula);
    WhenFacts(fullSolution, FullSolution);
    WhenFacts(unfriendly, Unfriendly);
  }

  /** Whatever fires, the penalties add up to at most 1.0. */
  lemma FourPenalty(tooShort: bool, noFormula: bool, fullSolution: bool, unfriendly: bool)
    ensures TotalPenalty(When(tooShort, TooShort) + When(noFormula, NoFormula)
                         + When(fullSolution, FullSolution) + When(unfriendly, Unfriendly)) <= 10
  {
    var w0, w1, w2, w3 := When(tooShort, TooShort), When(noFormula, NoFormula),
                          When(fullSolution, FullSolution), When(unfriendly, Unfriendly);
    WhenFacts(tooShort, TooShort);
    WhenFacts(noFormula, NoFormula);
    WhenFacts(fullSolution, FullSolution);
    WhenFacts(unfriendly, Unfriendly);
    TotalPenaltyAppend(w0, w1);
    TotalPenaltyAppend(w0 + w1, w2);
    TotalPenaltyAppend(w0 + w1 + w2, w3);
  }

  /** Confidence stays within 0..1 and is exactly 1.0 minus the fired
      penalties (the floor at zero is never needed); a response is flagged
      for review exactly when those penalties add up to at least 0.4. */
  lemma ReviewIffPenaltyAtLeastFour(userMessage: string, aiResponse: string, subject: string)
    ensures ConfidenceOf(FiredRules(userMessage, aiResponse, subject)) + TotalPenalty(FiredRules(userMessage, aiResponse, subject)) == 10
    ensures NeedsReview(ConfidenceOf(FiredRules(userMessage, aiResponse, subject)))
        <==> TotalPenalty(FiredRules(userMessage, aiResponse, subject)) >= 4
  {
    FiredRulesMeans(userMessage, aiResponse, subject);
  }

  /** A response that gives away a full solution always needs review, whatever
      else fires. */
  lemma FullSolutionForcesReview(userMessage: string, aiResponse: string, subject: string)
    requires ContainsFullSolution(aiResponse, userMessage)
    ensures NeedsReview(ConfidenceOf(FiredRules(userMessage, aiResponse, subject)))
  {
    FiredRulesMeans(userMessage, aiResponse, subject);
    PenaltyAtLeastMember(FiredRules(userMessage, aiResponse, subject), FullSolution);
  }

  /** A rule in a run contributes its whole penalty to the run's sum. */
  lemma {:induction false} PenaltyAtLeastMember(rules: seq<Rule>, rule: Rule)
    requires rule in rules
    ensures TotalPenalty(rules) >= Penalty(rule)
  {
    if rules[|rules| - 1] != rule {
      assert rule in rules[..|rules| - 1] by {
        var k :| 0 <= k < |rules| && rules[k] == rule;
        assert rules[..|rules| - 1][k] == rule;
      }
      PenaltyAtLeastMember(rules[..|rules| - 1], rule);
    }
  }

  /** A rule's issue is reported exactly when the rule fires, and each issue
      text names one rule. */
  lemma OneIssuePerFiredRule(userMessage: string, aiResponse: string, subject: string)
    ensures var fired := FiredRules(userMessage, aiResponse, subject);
      && |IssueTexts(fired)| == |fired| <= 4
      && (forall rule :: Fires(rule, userMessage, aiResponse, subject) <==> IssueText(rule) in IssueTexts(fired))
  {
    var fired := FiredRules(userMessage, aiResponse, subject);
    FiredRulesMeans(userMessage, aiResponse, subject);
    IssueTextsAt(fired);
    forall rule ensures Fires(rule, userMessage, aiResponse, subject) <==> IssueText(rule) in IssueTexts(fired) {
      if IssueText(rule) in IssueTexts(fired) {
        var k :| 0 <= k < |fired| && IssueTexts(fired)[k] == IssueText(rule);
        IssueTextInjective(fired[k], rule);
        assert fired[k] in fired;
      }
      if Fires(rule, userMessage, aiResponse, subject) {
        var k :| 0 <= k < |fired| && fired[k] == rule;
        assert IssueTexts(fired)[k] == IssueText(rule);
      }
    }
  }

  lemma IssueTextInjective(a: Rule, b: Rule)
    requires IssueText(a) == IssueText(b)
    ensures a == b
  {
  }

  // ===========================================================================
  // System prompt
  // ===========================================================================

  /** The grade band whose instructions the prompt carries. */
  datatype AgeBand = PrimarySchool | MiddleSchool | HighSchool

  /** The subject block the prompt carries: one of the six subject-specific
      blocks, or the one-line generic instruction. */
  datatype SubjectGuide = MathGuide | RussianGuide | EnglishGuide | PhysicsGuide | ChemistryGuide | BiologyGuide | GenericGuide

  /** The closing output-format line: conversational (for voice) or structured. */
  datatype OutputFormat = Conversational | Structured

  /** The system prompt, block by block in the order they are concatenated:
      the base directive (naming the subject and the grade), the subject
      block, the grade band and the output-format line. */
  datatype SystemPrompt = SystemPrompt(subject: string, grade: int, guide: SubjectGuide, band: AgeBand, format: OutputFormat)

  /** `getAgeInstructions`: three grade bands, up to 4, 5 to 9, 10 and above. */
  function AgeInstructions(grade: int): (band: AgeBand)
    ensures band == PrimarySchool <==> grade <= 4
    ensures band == MiddleSchool <==> 5 <= grade <= 9
    ensures band == HighSchool <==> 10 <= grade
  {
    if grade <= 4 then PrimarySchool else if grade <= 9 then MiddleSchool else HighSchool
  }

  /** The subject blocks, keyed by the subject's Russian name. */
  const SubjectGuides: map<string, SubjectGuide> := map[
    "Математика" := MathGuide,
    "Русский язык" := RussianGuide,
    "Английский язык" := EnglishGuide,
    "Физика" := PhysicsGuide,
    "Химия" := ChemistryGuide,
    "Биология" := BiologyGuide]

  /** `getSubjectInstructions`: the subject's block, or the generic instruction
      for a subject the table does not name. */
  function SubjectInstructions(subject: string): (guide: SubjectGuide)
    ensures guide == GenericGuide <==> subject !in SubjectGuides
    ensures subject in SubjectGuides ==> guide == SubjectGuides[subject]
  {
    if subject in SubjectGuides then SubjectGuides[subject] else GenericGuide
  }

  /** `buildSystemPrompt`: only "voice" gets the conversational format line;
      "text", "both" and any other mode get the structured one. */
  function BuildSystemPrompt(subject: string, grade: int, outputMode: string): (p: SystemPrompt)
    ensures p.subject == subject && p.grade == grade
    ensures p.guide == SubjectInstructions(subject) && p.band == AgeInstructions(grade)
    ensures p.format == Conversational <==> outputMode == "voice"
  {
    SystemPrompt(subject, grade, SubjectInstructions(subject), AgeInstructions(grade),
                 if outputMode == "voice" then Conversational else Structured)
  }

  // ===========================================================================
  // One chat turn
  // ===========================================================================

  datatype Turn = Turn(role: string, content: string)

  /** What the provider returns: a failure, or its content blocks (the text is
      the first) and the token counts it reports, each possibly absent. */
  datatype ProviderReply =
    | ProviderFailed
    | Reply(content: seq<string>, inputTokens: Option<nat>, outputTokens: Option<nat>)

  datatype UsageSummary = UsageSummary(inputTokens: nat, outputTokens: nat, totalTokens: nat, remaining: int, percentUsed: nat)

  datatype ChatReply = ChatReply(text: string, confidence: nat, needsReview: bool, usage: UsageSummary)

  const ModelId := "claude-sonnet-4-20250514"
  const QuotaErrorPrefix := "QUOTA_EXCEEDED"
  const GenericAiError := "Не удалось получить ответ от AI"

  /** The error message thrown when the quota is used up. */
  function QuotaExceededMessage(percentUsed: nat, limit: nat): string {
    QuotaErrorPrefix + [':'] + (NatToString(percentUsed) + [':'] + NatToString(limit))
  }

  /** The turns sent to the provider: the history, then the new message. */
  function ProviderTurns(history: seq<Turn>, message: string): seq<Turn> {
    history + [Turn("user", message)]
  }

  /** Whether the provider produced a usable reply (a failure or an empty
      content list makes the turn fail). */
  predicate Answered(reply: ProviderReply) {
    reply.Reply? && |reply.content| > 0
  }

  /** `logInteraction`: appends the interaction, unless the store fails, in
      which case the failure is swallowed and nothing is written. */
  method LogInteraction(db: Database, record: Interaction, storeFails: bool)
    modifies db
    ensures db.tables == if storeFails then old(db.tables) else old(db.tables).(interactions := old(db.tables.interactions) + [record])
  {
    if !storeFails {
      db.tables := db.tables.(interactions := db.tables.interactions + [record]);
    }
  }

  /** The usage row a completed turn writes. */
  function TurnUsage(userId: UserId, reply: ProviderReply, subject: string, now: int, year: int, month: int): UsageRecord
    requires reply.Reply?
  {
    var input := reply.inputTokens.GetOr(0);
    var output := reply.outputTokens.GetOr(0);
    UsageRecord(userId, input, output, input + output, ModelId, subject, now, year, month)
  }

  /** The interaction row a completed turn logs. */
  function TurnInteraction(userId: UserId, message: string, text: string, subject: string, grade: int,
                           outputMode: string, now: int): Interaction
  {
    var confidence := ConfidenceOf(FiredRules(message, text, subject));
    Interaction(userId, subject, grade, message, text, confidence, NeedsReview(confidence), "text", outputMode, None, now)
  }

  /** The tables after the pre-check's lookup: the period's ledger row is
      created if it was missing. */
  function AfterLookup(t: Tables, key: Period): Tables {
    t.(quotas := LookedUp(t.quotas, t.subscriptions, key))
  }

  /** The tables after the part of a turn that follows the provider's answer:
      the usage write, then, if it completed, the interaction logged unless
      the store fails. */
  function AfterRecording(t: Tables, userId: UserId, message: string, subject: string, grade: int, outputMode: string,
                          reply: ProviderReply, now: int, year: int, month: int, logFails: bool, fault: StoreFault): Tables
    requires Answered(reply)
  {
    var written := UsageWritten(t, TurnUsage(userId, reply, subject, now, year, month), fault);
    if fault == UsageInsertFails || fault == UpsertFails then written
    else written.(interactions := t.interactions
      + (if logFails then [] else [TurnInteraction(userId, message, reply.content[0], subject, grade, outputMode, now)]))
  }

  /** The tables after an answered turn: the lookup, then the usage row
      appended and its total added to the period's row, then the interaction
      logged unless the store fails; a throwing write stops the turn there. */
  function AfterAnsweredTurn(t: Tables, userId: UserId, message: string, subject: string, grade: int, outputMode: string,
                             reply: ProviderReply, now: int, year: int, month: int, logFails: bool, fault: StoreFault): (r: Tables)
    requires Answered(reply)
    ensures Period(userId, year, month) in r.quotas
  {
    AfterRecording(AfterLookup(t, Period(userId, year, month)), userId, message, subject, grade, outputMode,
                   reply, now, year, month, logFails, fault)
  }

  /** An answered turn keeps every ledger row equal to the sum of its period's
      usage rows unless its upsert throws after the insert of a row with
      tokens in it. */
  lemma AnsweredTurnLedger(t: Tables, userId: UserId, message: string, subject: string, grade: int, outputMode: string,
                           reply: ProviderReply, now: int, year: int, month: int, logFails: bool, fault: StoreFault)
    requires Answered(reply)
    requires LedgerMatchesUsage(t.quotas, t.tokenUsage)
    ensures var after := AfterAnsweredTurn(t, userId, message, subject, grade, outputMode, reply, now, year, month, logFails, fault);
      LedgerMatchesUsage(after.quotas, after.tokenUsage) <==>
        (fault != UpsertFails || TurnUsage(userId, reply, subject, now, year, month).totalTokens == 0)
  {
    var usage := TurnUsage(userId, reply, subject, now, year, month);
    var looked := AfterLookup(t, Period(userId, year, month));
    TurnKeepsLedgerMatch(t.quotas, t.tokenUsage, t.subscriptions, usage, FreeTokenLimit);
    UsageWrittenLedger(looked, usage, fault);
  }

  /** The part of a turn after the provider answered: commit the usage,
      classify the answer, log the interaction (a failing store is swallowed)
      and report the ledger state after the commit. A throwing usage write or
      re-check becomes the generic error; the lookup has already succeeded. */
  method RecordAnsweredTurn(db: Database, userId: UserId, message: string, subject: string, grade: int,
                            outputMode: string, answer: ProviderReply, now: int, year: int, month: int,
                            logFails: bool, fault: StoreFault)
    returns (r: Result<ChatReply, string>)
    requires Answered(answer)
    requires fault != LookupFails
    modifies db
    ensures db.tables == AfterRecording(old(db.tables), userId, message, subject, grade, outputMode, answer, now, year, month, logFails, fault)
    ensures fault != NoFault ==> r == Failure(GenericAiError)
    ensures fault == NoFault ==>
      var usage := TurnUsage(userId, answer, subject, now, year, month);
      var confidence := ConfidenceOf(FiredRules(message, answer.content[0], subject));
      var after := QuotaReport(db.tables.quotas[Period(userId, year, month)]);
      r == Success(ChatReply(answer.content[0], confidence, NeedsReview(confidence),
                             UsageSummary(usage.inputTokens, usage.outputTokens, usage.totalTokens, after.remaining, after.percentUsed)))
  {
    var aiResponse := answer.content[0];
    var inputTokens := answer.inputTokens.GetOr(0);
    var outputTokens := answer.outputTokens.GetOr(0);
    var total := UpdateTokenUsage(db, userId, inputTokens, outputTokens, subject, ModelId, now, year, month, fault);
    ghost var written := UsageWritten(old(db.tables), TurnUsage(userId, answer, subject, now, year, month), fault);
    assert db.tables == written;
    if total.None? {
      return Failure(GenericAiError);
    }
    ghost var usageAfter, quotasAfter := db.tables.tokenUsage, db.tables.quotas;
    var confidence, issues := ValidateResponse(message, aiResponse, subject);
    ghost var logged := TurnInteraction(userId, message, aiResponse, subject, grade, outputMode, now);
    LogInteraction(db, Interaction(userId, subject, grade, message, aiResponse, confidence,
                                   NeedsReview(confidence), "text", outputMode, None, now), logFails);
    assert db.tables == written.(interactions := old(db.tables.interactions) + (if logFails then [] else [logged]));
    if fault == RecheckFails {
      return Failure(GenericAiError);
    }
    var updatedQuota := CheckQuota(db, userId, year, month);
    assert db.tables.quotas == quotasAfter && db.tables.tokenUsage == usageAfter;
    r := Success(ChatReply(aiResponse, confidence, NeedsReview(confidence),
                           UsageSummary(inputTokens, outputTokens, inputTokens + outputTokens,
                                        updatedQuota.remaining, updatedQuota.percentUsed)));
  }

  /** `chat`: quota pre-check, then the provider call, then the usage commit,
      then classification, then logging, then the re-check. A used-up quota
      throws `QUOTA_EXCEEDED:<percent>:<limit>` before the provider is called;
      any other throw (the lookup, the provider, the usage writes, the
      re-check) becomes the generic error, keeping whatever was written before
      it; once the provider has answered, its usage (missing counts read as 0)
      is committed whether or not logging succeeds. */
  method Chat(db: Database, userId: UserId, message: string, subject: string, grade: int,
              history: seq<Turn>, outputMode: string, provider: (SystemPrompt, seq<Turn>) -> ProviderReply,
              now: int, year: int, month: int, logFails: bool, fault: StoreFault)
    returns (r: Result<ChatReply, string>, ghost providerCalled: bool, ghost reply: ProviderReply)
    modifies db
    ensures db.tables.subscriptions == old(db.tables.subscriptions)
    ensures providerCalled == (fault != LookupFails
      && QuotaReport(CurrentRow(old(db.tables.quotas), db.tables.subscriptions, Period(userId, year, month))).hasQuota)
    ensures providerCalled ==> reply == provider(BuildSystemPrompt(subject, grade, outputMode), ProviderTurns(history, message))
    // The lookup throws: nothing is written.
    ensures fault == LookupFails ==> r == Failure(GenericAiError) && db.tables == old(db.tables)
    // Quota used up: the error carries the pre-check's percentage and cap.
    ensures fault != LookupFails && !providerCalled ==>
      var pre := QuotaReport(CurrentRow(old(db.tables.quotas), db.tables.subscriptions, Period(userId, year, month)));
      r == Failure(QuotaExceededMessage(pre.percentUsed, pre.limit))
    // Nothing but the lookup is written unless the provider answered.
    ensures fault != LookupFails && !(providerCalled && Answered(reply)) ==>
      db.tables == AfterLookup(old(db.tables), Period(userId, year, month))
    ensures providerCalled && !Answered(reply) ==> r == Failure(GenericAiError)
    // Answered: the usage is written, the interaction logged unless the store
    // fails, and the reply carries the classification and the ledger state
    // after the commit; a throwing write or re-check gives the generic error.
    ensures providerCalled && Answered(reply) ==>
      db.tables == AfterAnsweredTurn(old(db.tables), userId, message, subject, grade, outputMode, reply, now, year, month, logFails, fault)
    ensures providerCalled && Answered(reply) && fault != NoFault ==> r == Failure(GenericAiError)
    ensures providerCalled && Answered(reply) && fault == NoFault ==>
      var usage := TurnUsage(userId, reply, subject, now, year, month);
      var confidence := ConfidenceOf(FiredRules(message, reply.content[0], subject));
      var after := QuotaReport(db.tables.quotas[Period(userId, year, month)]);
      r == Success(ChatReply(reply.content[0], confidence, NeedsReview(confidence),
                             UsageSummary(usage.inputTokens, usage.outputTokens, usage.totalTokens, after.remaining, after.percentUsed)))
  {
    providerCalled := false;
    reply := ProviderFailed;
    if fault == LookupFails {
      r := Failure(GenericAiError);
      return;
    }
    var quotaCheck := CheckQuota(db, userId, year, month);
    if !quotaCheck.hasQuota {
      r := Failure(QuotaExceededMessage(quotaCheck.percentUsed, quotaCheck.limit));
      return;
    }
    var systemPrompt := BuildSystemPrompt(subject, grade, outputMode);
    var answer := provider(systemPrompt, ProviderTurns(history, message));
    providerCalled, reply := true, answer;
    if !Answered(answer) {
      r := Failure(GenericAiError);
      return;
    }
    r := RecordAnsweredTurn(db, userId, message, subject, grade, outputMode, answer, now, year, month, logFails, fault);
  }
}
