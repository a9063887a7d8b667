/** The rows of the tables the backend reads and writes through its ORM, and the
    `Database` object that holds them. Timestamps are integer milliseconds; a
    table without a natural key is a sequence in insertion order, a table keyed
    by a unique column is a map. Columns the modelled operations never look at
    are left out. */
module Tables {
  import opened Wrappers

  type UserId = string

  const MsPerDay: nat := 86400000

  datatype Role = Student | Parent | Admin

  /** The authenticated caller (`req.user`). */
  datatype Caller = Caller(id: UserId, role: Role)

  /** The key of a monthly ledger row: (userId, year, month). */
  datatype Period = Period(userId: UserId, year: int, month: int)

  /** A token cap. Every ledger row is created with a plan's cap, and every
      plan's cap is positive. */
  type Cap = n: nat | n > 0 witness 1

  /** `monthlyTokenQuota`: the tokens used in one period and the cap fixed when
      the row was created. */
  datatype QuotaRow = QuotaRow(tokensUsed: nat, tokenLimit: Cap)

  /** `tokenUsage`: one row per completed provider call. `year` and `month`
      are the period in which the row was written (the year and month of its
      creation time). */
  datatype UsageRecord = UsageRecord(
    userId: UserId, inputTokens: nat, outputTokens: nat, totalTokens: nat,
    model: string, subject: string, createdAt: int, year: int, month: int)

  /** `aIInteraction`: one logged chat turn; `confidence` in tenths. */
  datatype Interaction = Interaction(
    userId: UserId, subject: string, grade: int, userMessage: string,
    aiResponse: string, confidence: nat, needsReview: bool,
    inputMode: string, outputMode: string, timeSpent: Option<nat>, timestamp: int)

  datatype ConsentStatus = Pending | Approved | Declined

  /** `child`: a parent's monitoring link to a student account. The status
      column is nullable; `None` is a row written without one. */
  datatype ChildLink = ChildLink(
    id: nat, parentId: UserId, userId: UserId, name: string, grade: int,
    consentStatus: Option<ConsentStatus>, consentedAt: Option<int>,
    childNotified: bool, notifiedAt: Option<int>, createdAt: int)

  datatype SupportMessage = SupportMessage(userId: UserId, createdAt: int, escalated: bool)

  /** `supportTicket`; `conversationHistory` holds its JSON document as text. */
  datatype SupportTicket = SupportTicket(
    userId: UserId, userName: string, userEmail: string, problem: string,
    conversationHistory: string, status: string, createdAt: int)

  /** A row of a table that the model only knows by its owner
      (achievements, stats, progress, parent settings, profile). */
  datatype OwnedRow = OwnedRow(id: nat, userId: UserId)

  /** A support ticket with its name and e-mail replaced by `mark`, its
      problem text by `note` and its conversation by the empty JSON object. */
  function AnonymizedTicket(t: SupportTicket, mark: string, note: string): (a: SupportTicket)
    ensures a.userId == t.userId && a.status == t.status && a.createdAt == t.createdAt
    ensures a.userName == mark && a.userEmail == mark && a.problem == note && a.conversationHistory == "{}"
  {
    t.(userName := mark, userEmail := mark, problem := note, conversationHistory := "{}")
  }

  /** `supportTicket.updateMany` with the anonymising data: every matching
      ticket is anonymised in place, the others are left as they are. */
  function AnonymizeWhere(tickets: seq<SupportTicket>, matches: SupportTicket -> bool, mark: string, note: string)
    : (r: seq<SupportTicket>)
    ensures |r| == |tickets|
    ensures forall i :: 0 <= i < |r| ==>
      r[i] == if matches(tickets[i]) then AnonymizedTicket(tickets[i], mark, note) else tickets[i]
  {
    seq(|tickets|, i requires 0 <= i < |tickets| =>
      if matches(tickets[i]) then AnonymizedTicket(tickets[i], mark, note) else tickets[i])
  }

  function InteractionTime(i: Interaction): int { i.timestamp }
  function UsageTime(u: UsageRecord): int { u.createdAt }

  /** The contents of every table at one moment. */
  datatype Tables = Tables(
    users: map<UserId, Role>,
    subscriptions: map<UserId, string>,
    quotas: map<Period, QuotaRow>,
    tokenUsage: seq<UsageRecord>,
    interactions: seq<Interaction>,
    links: seq<ChildLink>,
    nextLinkId: nat,
    supportMessages: seq<SupportMessage>,
    supportTickets: seq<SupportTicket>,
    achievements: seq<OwnedRow>,
    stats: seq<OwnedRow>,
    progress: seq<OwnedRow>,
    parentSettings: seq<OwnedRow>,
    profiles: seq<OwnedRow>)

  const NoTables := Tables(map[], map[], map[], [], [], [], 0, [], [], [], [], [], [], [])

  /** The data store: every write replaces the tables with their new contents. */
  class Database {
    var tables: Tables

    constructor ()
      ensures tables == NoTables
    {
      tables := NoTables;
    }
  }
}
