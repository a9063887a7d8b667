/** The retention sweep (`runDataRetentionJob`): it deletes the chat log,
    the non-escalated support messages and the token-usage rows older than the
    retention period, and anonymises the resolved or closed support tickets
    older than twice that period.

    The four passes run one after the other against the store, outside any
    transaction: a pass that throws stops the sweep, the passes before it
    stay done, and the error reaches the caller. `failAt` names the pass that
    throws (numbered from 0 in the order they run). */
module DataRetention {
  import opened Wrappers
  import opened Text
  import opened Ordering
  import opened Tables

  const DefaultRetentionDays := "90"
  const AnonymizedLabel := "[Anonymized]"
  const AnonymizedNote := "[Data anonymized per retention policy]"

  /** The number of passes. */
  const Passes: nat := 4

  // ===========================================================================
  // The retention period and the cutoffs
  // ===========================================================================

  /** `parseInt(DATA_RETENTION_DAYS || '90')`: an unset or empty setting reads
      as 90; `None` is `NaN`. */
  function RetentionDays(setting: Option<string>): Option<int> {
    ParseInt(if setting.None? || setting.value == "" then DefaultRetentionDays else setting.value)
  }

  /** Without a setting the period is 90 days. */
  lemma RetentionDaysDefault(setting: Option<string>)
    ensures setting.None? || setting == Some("") ==> RetentionDays(setting) == Some(90)
  {
    assert NatToString(90) == DefaultRetentionDays by {
      assert NatToString(9) == "9";
    }
    ParseIntOfNatToString(90);
  }

  /** A setting whose first character is neither white space, a sign nor a
      digit gives `NaN`. */
  lemma NonNumericSettingIsNaN(setting: string)
    requires setting != [] && !IsWhitespace(setting[0]) && setting[0] != '-' && setting[0] != '+' && !IsDigit(setting[0])
    ensures RetentionDays(Some(setting)) == None
  {
    ParseIntNeedsDigit(setting);
  }

  /** Rows older than this instant are swept. */
  function Cutoff(now: int, days: int): int {
    now - days * MsPerDay
  }

  /** Tickets are kept twice as long. */
  function TicketCutoff(now: int, days: int): int {
    now - (days * 2) * MsPerDay
  }

  /** The largest distance from the epoch, in milliseconds, that a `Date`
      can hold: moving a date past it makes it invalid. */
  const MaxTimeValue: int := 8_640_000_000_000_000

  predicate ValidTime(t: int) {
    -MaxTimeValue <= t <= MaxTimeValue
  }

  /** Periods so long, or so far negative, that the cutoff leaves the range
      of a `Date`, and one whose cutoff is valid but whose doubled ticket
      cutoff is not. */
  lemma DateRangeLimits(now: int)
    requires 0 <= now <= 1_000_000_000_000_000
    ensures !ValidTime(Cutoff(now, 200_000_000)) && !ValidTime(Cutoff(now, -200_000_000))
    ensures ValidTime(Cutoff(now, 60_000_000)) && !ValidTime(TicketCutoff(now, 60_000_000))
  {
  }

  // ===========================================================================
  // The four `where` clauses
  // ===========================================================================

  predicate InteractionExpired(x: Interaction, cutoff: int) {
    x.timestamp < cutoff
  }

  /** Escalated messages are never swept. */
  predicate MessageExpired(m: SupportMessage, cutoff: int) {
    m.createdAt < cutoff && !m.escalated
  }

  predicate UsageExpired(u: UsageRecord, cutoff: int) {
    u.createdAt < cutoff
  }

  /** A ticket is due for anonymising once it is older than the ticket cutoff
      and RESOLVED or CLOSED; whether it was anonymised before plays no part. */
  predicate TicketDue(t: SupportTicket, ticketCutoff: int) {
    t.createdAt < ticketCutoff && (t.status == "RESOLVED" || t.status == "CLOSED")
  }

  // ===========================================================================
  // What each pass matches and what it leaves
  // ===========================================================================

  function ExpiredInteractions(xs: seq<Interaction>, cutoff: int): (r: seq<Interaction>)
    ensures forall x :: x in r <==> x in xs && InteractionExpired(x, cutoff)
  {
    var drop := (x: Interaction) => InteractionExpired(x, cutoff);
    FilterMembers(xs, drop);
    Filter(xs, drop)
  }

  /** The chat log after its pass; the pass's count is the number of rows it
      matched. */
  function KeptInteractions(xs: seq<Interaction>, cutoff: int): (r: seq<Interaction>)
    ensures forall x :: x in r <==> x in xs && !InteractionExpired(x, cutoff)
    ensures |xs| - |r| == |ExpiredInteractions(xs, cutoff)|
  {
    var keep := (x: Interaction) => !InteractionExpired(x, cutoff);
    FilterMembers(xs, keep);
    FilterSplits(xs, keep, (x: Interaction) => InteractionExpired(x, cutoff));
    Filter(xs, keep)
  }

  function ExpiredMessages(ms: seq<SupportMessage>, cutoff: int): (r: seq<SupportMessage>)
    ensures forall m :: m in r <==> m in ms && MessageExpired(m, cutoff)
  {
    var drop := (m: SupportMessage) => MessageExpired(m, cutoff);
    FilterMembers(ms, drop);
    Filter(ms, drop)
  }

  function KeptMessages(ms: seq<SupportMessage>, cutoff: int): (r: seq<SupportMessage>)
    ensures forall m :: m in r <==> m in ms && !MessageExpired(m, cutoff)
    ensures |ms| - |r| == |ExpiredMessages(ms, cutoff)|
  {
    var keep := (m: SupportMessage) => !MessageExpired(m, cutoff);
    FilterMembers(ms, keep);
    FilterSplits(ms, keep, (m: SupportMessage) => MessageExpired(m, cutoff));
    Filter(ms, keep)
  }

  function ExpiredUsage(us: seq<UsageRecord>, cutoff: int): (r: seq<UsageRecord>)
    ensures forall u :: u in r <==> u in us && UsageExpired(u, cutoff)
  {
    var drop := (u: UsageRecord) => UsageExpired(u, cutoff);
    FilterMembers(us, drop);
    Filter(us, drop)
  }

  function KeptUsage(us: seq<UsageRecord>, cutoff: int): (r: seq<UsageRecord>)
    ensures forall u :: u in r <==> u in us && !UsageExpired(u, cutoff)
    ensures |us| - |r| == |ExpiredUsage(us, cutoff)|
  {
    var keep := (u: UsageRecord) => !UsageExpired(u, cutoff);
    FilterMembers(us, keep);
    FilterSplits(us, keep, (u: UsageRecord) => UsageExpired(u, cutoff));
    Filter(us, keep)
  }

  /** The tickets the anonymising pass matches. */
  function DueTickets(ts: seq<SupportTicket>, ticketCutoff: int): (r: seq<SupportTicket>)
    ensures forall t :: t in r <==> t in ts && TicketDue(t, ticketCutoff)
  {
    var due := (t: SupportTicket) => TicketDue(t, ticketCutoff);
    FilterMembers(ts, due);
    Filter(ts, due)
  }

  /** The tickets after the anonymising pass. */
  function AnonymizedDue(ts: seq<SupportTicket>, ticketCutoff: int): seq<SupportTicket> {
    AnonymizeWhere(ts, (t: SupportTicket) => TicketDue(t, ticketCutoff), AnonymizedLabel, AnonymizedNote)
  }

  // ===========================================================================
  // The sweep
  // ===========================================================================

  /** The counts the job returns. */
  datatype RetentionCounts = RetentionCounts(
    deletedInteractions: nat, deletedMessages: nat, deletedTokenUsage: nat, anonymizedTickets: nat)

  datatype RetentionError =
    | InvalidRetentionDays  // `NaN` days, or a cutoff outside the range of a `Date`: building the log line throws before any pass
    | PassFailed(pass: nat)

  /** The tables after the first `k` passes. */
  function SweptUpTo(t: Tables, cutoff: int, ticketCutoff: int, k: nat): Tables {
    var t1 := if k > 0 then t.(interactions := KeptInteractions(t.interactions, cutoff)) else t;
    var t2 := if k > 1 then t1.(supportMessages := KeptMessages(t1.supportMessages, cutoff)) else t1;
    var t3 := if k > 2 then t2.(tokenUsage := KeptUsage(t2.tokenUsage, cutoff)) else t2;
    if k > 3 then t3.(supportTickets := AnonymizedDue(t3.supportTickets, ticketCutoff)) else t3
  }

  /** The rows each pass matches in `t`. */
  function CountsOf(t: Tables, cutoff: int, ticketCutoff: int): RetentionCounts {
    RetentionCounts(
      |ExpiredInteractions(t.interactions, cutoff)|,
      |ExpiredMessages(t.supportMessages, cutoff)|,
      |ExpiredUsage(t.tokenUsage, cutoff)|,
      |DueTickets(t.supportTickets, ticketCutoff)|)
  }

  /** `runDataRetentionJob`, given the period read at start-up (see
      `RetentionDays`). A `NaN` period, or one that moves the cutoff out of
      the range of a `Date`, fails before any pass. Otherwise
      the passes run in order; when pass `k` throws, passes `0 .. k-1` stay
      done and the error is passed on (a ticket cutoff out of range makes
      the fourth pass throw); when none throws, the counts of the
      rows each pass matched are returned. */
  method RunDataRetentionJob(db: Database, retentionDays: Option<int>, now: int, failAt: Option<nat>)
    returns (r: Result<RetentionCounts, RetentionError>)
    modifies db
    ensures retentionDays.None? || !ValidTime(Cutoff(now, retentionDays.value)) ==>
      r == Failure(InvalidRetentionDays) && db.tables == old(db.tables)
    ensures retentionDays.Some? && ValidTime(Cutoff(now, retentionDays.value)) ==>
      var days := retentionDays.value;
      var cutoff, ticketCutoff := Cutoff(now, days), TicketCutoff(now, days);
      if failAt.Some? && failAt.value < Passes then
        r == Failure(PassFailed(failAt.value)) && db.tables == SweptUpTo(old(db.tables), cutoff, ticketCutoff, failAt.value)
      else if !ValidTime(ticketCutoff) then
        r == Failure(PassFailed(3)) && db.tables == SweptUpTo(old(db.tables), cutoff, ticketCutoff, 3)
      else
        r == Success(CountsOf(old(db.tables), cutoff, ticketCutoff))
        && db.tables == SweptUpTo(old(db.tables), cutoff, ticketCutoff, Passes)
    // The counts are the rows each pass removed, and no ticket is removed.
    ensures r.Success? ==>
      && r.value.deletedInteractions == |old(db.tables.interactions)| - |db.tables.interactions|
      && r.value.deletedMessages == |old(db.tables.supportMessages)| - |db.tables.supportMessages|
      && r.value.deletedTokenUsage == |old(db.tables.tokenUsage)| - |db.tables.tokenUsage|
      && |db.tables.supportTickets| == |old(db.tables.supportTickets)|
  {
    if retentionDays.None? {
      return Failure(InvalidRetentionDays);
    }
    var days := retentionDays.value;
    var cutoff := Cutoff(now, days);
    if !ValidTime(cutoff) {
      return Failure(InvalidRetentionDays);
    }

    if failAt == Some(0) { return Failure(PassFailed(0)); }
    var deletedInteractions := |ExpiredInteractions(db.tables.interactions, cutoff)|;
    db.tables := db.tables.(interactions := KeptInteractions(db.tables.interactions, cutoff));

    if failAt == Some(1) { return Failure(PassFailed(1)); }
    var deletedMessages := |ExpiredMessages(db.tables.supportMessages, cutoff)|;
    db.tables := db.tables.(supportMessages := KeptMessages(db.tables.supportMessages, cutoff));

    if failAt == Some(2) { return Failure(PassFailed(2)); }
    var deletedTokenUsage := |ExpiredUsage(db.tables.tokenUsage, cutoff)|;
    db.tables := db.tables.(tokenUsage := KeptUsage(db.tables.tokenUsage, cutoff));

    var ticketCutoff := TicketCutoff(now, days);
    // An invalid ticket cutoff makes the fourth pass's query throw.
    if failAt == Some(3) || !ValidTime(ticketCutoff) { return Failure(PassFailed(3)); }
    var anonymizedTickets := |DueTickets(db.tables.supportTickets, ticketCutoff)|;
    db.tables := db.tables.(supportTickets := AnonymizedDue(db.tables.supportTickets, ticketCutoff));

    r := Success(RetentionCounts(deletedInteractions, deletedMessages, deletedTokenUsage, anonymizedTickets));
  }

  // ===========================================================================
  // Properties of the sweep
  // ===========================================================================

  /** A full sweep removes exactly the expired rows of the three swept tables
      (an escalated message is never among them), anonymises exactly the due
      tickets without removing any, and touches no other table. */
  lemma SweepIsExact(t: Tables, cutoff: int, ticketCutoff: int)
    ensures var s := SweptUpTo(t, cutoff, ticketCutoff, Passes);
      && (forall x :: x in s.interactions <==> x in t.interactions && x.timestamp >= cutoff)
      && (forall m :: m in s.supportMessages <==> m in t.supportMessages && (m.createdAt >= cutoff || m.escalated))
      && (forall u :: u in s.tokenUsage <==> u in t.tokenUsage && u.createdAt >= cutoff)
      && |s.supportTickets| == |t.supportTickets|
      && (forall i :: 0 <= i < |t.supportTickets| ==>
            s.supportTickets[i] == if TicketDue(t.supportTickets[i], ticketCutoff)
                                   then AnonymizedTicket(t.supportTickets[i], AnonymizedLabel, AnonymizedNote)
                                   else t.supportTickets[i])
      && s.(interactions := t.interactions, supportMessages := t.supportMessages,
            tokenUsage := t.tokenUsage, supportTickets := t.supportTickets) == t
  {
  }

  /** With the default period a row 91 days old is swept and rows 89 or exactly
      90 days old are kept. */
  lemma DefaultPeriodBoundary(now: int, x: Interaction)
    ensures RetentionDays(None) == Some(90)
    ensures x.timestamp == now - 91 * MsPerDay ==> InteractionExpired(x, Cutoff(now, 90))
    ensures x.timestamp == now - 90 * MsPerDay ==> !InteractionExpired(x, Cutoff(now, 90))
    ensures x.timestamp == now - 89 * MsPerDay ==> !InteractionExpired(x, Cutoff(now, 90))
  {
    RetentionDaysDefault(None);
  }

  /** Nothing that survived a pass matches it again. */
  lemma NothingLeftToDelete(t: Tables, cutoff: int)
    ensures ExpiredInteractions(KeptInteractions(t.interactions, cutoff), cutoff) == []
    ensures ExpiredMessages(KeptMessages(t.supportMessages, cutoff), cutoff) == []
    ensures ExpiredUsage(KeptUsage(t.tokenUsage, cutoff), cutoff) == []
  {
    var xs := KeptInteractions(t.interactions, cutoff);
    FilterNone(xs, (x: Interaction) => InteractionExpired(x, cutoff));
    var ms := KeptMessages(t.supportMessages, cutoff);
    FilterNone(ms, (m: SupportMessage) => MessageExpired(m, cutoff));
    var us := KeptUsage(t.tokenUsage, cutoff);
    FilterNone(us, (u: UsageRecord) => UsageExpired(u, cutoff));
  }

  /** Anonymising is idempotent: the due tickets stay due and an anonymised
      ticket anonymised again is unchanged. */
  lemma AnonymizedDueIdempotent(ts: seq<SupportTicket>, ticketCutoff: int)
    ensures AnonymizedDue(AnonymizedDue(ts, ticketCutoff), ticketCutoff) == AnonymizedDue(ts, ticketCutoff)
  {
    var once := AnonymizedDue(ts, ticketCutoff);
    var twice := AnonymizedDue(once, ticketCutoff);
    forall i | 0 <= i < |ts| ensures twice[i] == once[i] {
      assert TicketDue(once[i], ticketCutoff) == TicketDue(ts[i], ticketCutoff);
    }
  }

  /** The anonymising pass matches as many tickets after it ran as before:
      anonymising keeps a ticket's age and status. */
  lemma {:induction false} DueCountKept(ts: seq<SupportTicket>, ticketCutoff: int)
    ensures |DueTickets(AnonymizedDue(ts, ticketCutoff), ticketCutoff)| == |DueTickets(ts, ticketCutoff)|
  {
    if ts != [] {
      DueCountKept(ts[1..], ticketCutoff);
      var a := AnonymizedDue(ts, ticketCutoff);
      assert a[1..] == AnonymizedDue(ts[1..], ticketCutoff);
      assert TicketDue(a[0], ticketCutoff) == TicketDue(ts[0], ticketCutoff);
    }
  }

  /** Running the job again at the same instant deletes nothing and leaves the
      tickets as they are, yet reports the same number of anonymised tickets
      as the first run, since the match does not skip tickets already
      anonymised. */
  lemma RerunChangesNothing(t: Tables, cutoff: int, ticketCutoff: int)
    ensures var s := SweptUpTo(t, cutoff, ticketCutoff, Passes);
      && SweptUpTo(s, cutoff, ticketCutoff, Passes) == s
      && CountsOf(s, cutoff, ticketCutoff)
         == RetentionCounts(0, 0, 0, CountsOf(t, cutoff, ticketCutoff).anonymizedTickets)
  {
    var s := SweptUpTo(t, cutoff, ticketCutoff, Passes);
    NothingLeftToDelete(t, cutoff);
    FilterIdempotent(t.interactions, (x: Interaction) => !InteractionExpired(x, cutoff));
    FilterIdempotent(t.supportMessages, (m: SupportMessage) => !MessageExpired(m, cutoff));
    FilterIdempotent(t.tokenUsage, (u: UsageRecord) => !UsageExpired(u, cutoff));
    AnonymizedDueIdempotent(t.supportTickets, ticketCutoff);
    DueCountKept(t.supportTickets, ticketCutoff);
  }

  /** A resolved ticket past the ticket cutoff is counted again on every run. */
  lemma RerunStillCountsTickets(t: Tables, cutoff: int, ticketCutoff: int, ticket: SupportTicket)
    requires t.supportTickets == [ticket] && TicketDue(ticket, ticketCutoff)
    ensures CountsOf(SweptUpTo(t, cutoff, ticketCutoff, Passes), cutoff, ticketCutoff).anonymizedTickets == 1
  {
    RerunChangesNothing(t, cutoff, ticketCutoff);
    assert DueTickets([ticket], ticketCutoff) == [ticket];
  }
}
