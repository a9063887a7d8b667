/** The account routes: `DELETE /account`, which erases a user's data in one
    store transaction, and `/privacy-status`, which tells a student whether a
    parent monitors the account.

    A failing store call is an input: `failAt` names the step of the
    transaction that throws (the thirteen steps are numbered from 0 in the
    order they run), `storeDown` a store that throws at once. */
module UserRoutes {
  import opened Wrappers
  import opened Ordering
  import opened Tables
  import opened Http

  // ===========================================================================
  // DELETE /account
  // ===========================================================================

  const DeleteSteps: nat := 13
  const DeletedLabel := "[Deleted]"
  const DeletedNote := "[User data deleted per GDPR request]"

  /** `deleteMany({ where: { userId } })` on a table known only by its owner. */
  function RowsWithout(rows: seq<OwnedRow>, userId: UserId): (r: seq<OwnedRow>)
    ensures forall x :: x in r <==> x in rows && x.userId != userId
  {
    var keep := (x: OwnedRow) => x.userId != userId;
    FilterMembers(rows, keep);
    Filter(rows, keep)
  }

  function UsageWithout(usage: seq<UsageRecord>, userId: UserId): (r: seq<UsageRecord>)
    ensures forall x :: x in r <==> x in usage && x.userId != userId
  {
    var keep := (x: UsageRecord) => x.userId != userId;
    FilterMembers(usage, keep);
    Filter(usage, keep)
  }

  function InteractionsWithout(interactions: seq<Interaction>, userId: UserId): (r: seq<Interaction>)
    ensures forall x :: x in r <==> x in interactions && x.userId != userId
  {
    var keep := (x: Interaction) => x.userId != userId;
    FilterMembers(interactions, keep);
    Filter(interactions, keep)
  }

  function MessagesWithout(messages: seq<SupportMessage>, userId: UserId): (r: seq<SupportMessage>)
    ensures forall x :: x in r <==> x in messages && x.userId != userId
  {
    var keep := (x: SupportMessage) => x.userId != userId;
    FilterMembers(messages, keep);
    Filter(messages, keep)
  }

  /** `child.deleteMany({ where: { parentId: userId } })`: only the links in
      which the user is the parent. */
  function LinksWithoutParent(links: seq<ChildLink>, userId: UserId): (r: seq<ChildLink>)
    ensures forall l :: l in r <==> l in links && l.parentId != userId
  {
    var keep := (l: ChildLink) => l.parentId != userId;
    FilterMembers(links, keep);
    Filter(links, keep)
  }

  function QuotasWithout(quotas: map<Period, QuotaRow>, userId: UserId): (r: map<Period, QuotaRow>)
    ensures forall k :: k in r <==> k in quotas && k.userId != userId
    ensures forall k :: k in r ==> r[k] == quotas[k]
  {
    map k | k in quotas && k.userId != userId :: quotas[k]
  }

  /** The user's support tickets, kept but stripped of personal data. */
  function TicketsErased(tickets: seq<SupportTicket>, userId: UserId): seq<SupportTicket> {
    AnonymizeWhere(tickets, (t: SupportTicket) => t.userId == userId, DeletedLabel, DeletedNote)
  }

  /** The tables once the erasure has committed. */
  function Erased(t: Tables, userId: UserId): Tables {
    t.(
      achievements := RowsWithout(t.achievements, userId),
      stats := RowsWithout(t.stats, userId),
      tokenUsage := UsageWithout(t.tokenUsage, userId),
      quotas := QuotasWithout(t.quotas, userId),
      interactions := InteractionsWithout(t.interactions, userId),
      supportMessages := MessagesWithout(t.supportMessages, userId),
      supportTickets := TicketsErased(t.supportTickets, userId),
      progress := RowsWithout(t.progress, userId),
      links := LinksWithoutParent(t.links, userId),
      parentSettings := RowsWithout(t.parentSettings, userId),
      profiles := RowsWithout(t.profiles, userId),
      subscriptions := t.subscriptions - {userId},
      users := t.users - {userId})
  }

  /** No table keyed by user holds a row of `userId`, and no link names the
      user as its parent. Support tickets and child-side links are not keyed
      this way and are left out. */
  predicate NoRowsOf(t: Tables, userId: UserId) {
    && userId !in t.users && userId !in t.subscriptions
    && (forall k :: k in t.quotas ==> k.userId != userId)
    && (forall x :: x in t.tokenUsage ==> x.userId != userId)
    && (forall x :: x in t.interactions ==> x.userId != userId)
    && (forall x :: x in t.supportMessages ==> x.userId != userId)
    && (forall l :: l in t.links ==> l.parentId != userId)
    && (forall x :: x in t.achievements ==> x.userId != userId)
    && (forall x :: x in t.stats ==> x.userId != userId)
    && (forall x :: x in t.progress ==> x.userId != userId)
    && (forall x :: x in t.parentSettings ==> x.userId != userId)
    && (forall x :: x in t.profiles ==> x.userId != userId)
  }

  /** Runs the thirteen steps of the erasure, in the source's order, on the
      transaction's own copy of the tables: the user's rows go from every table
      keyed by user, the support tickets are anonymised, the links in which the
      user is the parent are deleted, and last the user row itself, whose
      delete throws when there is none. The copy is committed only when every
      step succeeded; a throwing step rolls everything back and the route
      answers 500. */
  method DeleteAccount(db: Database, userId: UserId, failAt: Option<nat>) returns (status: int)
    modifies db
    ensures status == Ok || status == ServerError
    ensures status == Ok <==> userId in old(db.tables.users) && (failAt.None? || failAt.value >= DeleteSteps)
    ensures status != Ok ==> db.tables == old(db.tables)
    ensures status == Ok ==> db.tables == Erased(old(db.tables), userId)
    ensures status == Ok ==> NoRowsOf(db.tables, userId)
  {
    // A step that throws, or the final delete of a missing user row, rolls
    // the transaction back: whatever the copy held is dropped.
    if (failAt.Some? && failAt.value < DeleteSteps) || userId !in db.tables.users {
      return ServerError;
    }
    var tx := db.tables;
    tx := tx.(achievements := RowsWithout(tx.achievements, userId));
    tx := tx.(stats := RowsWithout(tx.stats, userId));
    tx := tx.(tokenUsage := UsageWithout(tx.tokenUsage, userId));
    tx := tx.(quotas := QuotasWithout(tx.quotas, userId));
    tx := tx.(interactions := InteractionsWithout(tx.interactions, userId));
    tx := tx.(supportMessages := MessagesWithout(tx.supportMessages, userId));
    tx := tx.(supportTickets := TicketsErased(tx.supportTickets, userId));
    tx := tx.(progress := RowsWithout(tx.progress, userId));
    tx := tx.(links := LinksWithoutParent(tx.links, userId));
    tx := tx.(parentSettings := RowsWithout(tx.parentSettings, userId));
    tx := tx.(profiles := RowsWithout(tx.profiles, userId));
    tx := tx.(subscriptions := tx.subscriptions - {userId});
    tx := tx.(users := tx.users - {userId});
    // Every step succeeded: the transaction commits.
    db.tables := tx;
    ErasureIsExact(old(db.tables), userId);
    status := Ok;
  }

  /** The erasure is exact across the whole store: afterwards nothing keyed by
      the user is left, every row of every other user is still there with
      the same contents, no ticket is removed, and the link counter is
      untouched. */
  lemma ErasureIsExact(t: Tables, userId: UserId)
    ensures NoRowsOf(Erased(t, userId), userId)
    ensures var s := Erased(t, userId);
      && (forall u :: u in t.users && u != userId ==> u in s.users && s.users[u] == t.users[u])
      && (forall u :: u in t.subscriptions && u != userId ==> u in s.subscriptions && s.subscriptions[u] == t.subscriptions[u])
      && (forall k :: k in t.quotas && k.userId != userId ==> k in s.quotas && s.quotas[k] == t.quotas[k])
      && (forall x :: x in t.tokenUsage && x.userId != userId ==> x in s.tokenUsage)
      && (forall x :: x in t.interactions && x.userId != userId ==> x in s.interactions)
      && (forall x :: x in t.supportMessages && x.userId != userId ==> x in s.supportMessages)
      && (forall l :: l in t.links && l.parentId != userId ==> l in s.links)
      && (forall x :: x in t.achievements && x.userId != userId ==> x in s.achievements)
      && (forall x :: x in t.stats && x.userId != userId ==> x in s.stats)
      && (forall x :: x in t.progress && x.userId != userId ==> x in s.progress)
      && (forall x :: x in t.parentSettings && x.userId != userId ==> x in s.parentSettings)
      && (forall x :: x in t.profiles && x.userId != userId ==> x in s.profiles)
      && |s.supportTickets| == |t.supportTickets| && s.nextLinkId == t.nextLinkId
  {
    TicketsErasedMeans(t.supportTickets, userId);
  }

  /** The route's own `tx.child.deleteMany` removes only the links in
      which the user is the parent; links in which the user is the child are
      left to the store's foreign-key action on the final user delete. */
  lemma ChildSideLinksRemain(links: seq<ChildLink>, userId: UserId, k: nat)
    requires k < |links| && links[k].userId == userId && links[k].parentId != userId
    ensures links[k] in LinksWithoutParent(links, userId)
  {
  }

  /** The user's tickets are all anonymised; every other ticket is untouched;
      no ticket is removed. */
  lemma TicketsErasedMeans(tickets: seq<SupportTicket>, userId: UserId)
    ensures |TicketsErased(tickets, userId)| == |tickets|
    ensures forall i :: 0 <= i < |tickets| && tickets[i].userId == userId ==>
      var t := TicketsErased(tickets, userId)[i];
      t.userName == DeletedLabel && t.userEmail == DeletedLabel && t.problem == DeletedNote && t.conversationHistory == "{}"
    ensures forall i :: 0 <= i < |tickets| && tickets[i].userId != userId ==> TicketsErased(tickets, userId)[i] == tickets[i]
  {
  }

  // ===========================================================================
  // GET /privacy-status
  // ===========================================================================

  datatype Monitoring =
    | Monitored(linkedAt: int, parentId: UserId, consentStatus: ConsentStatus)
    | NotMonitored

  /** `child.findFirst({ where: { userId } })`: the first link naming the user
      as the child. */
  function FirstLinkAsChild(links: seq<ChildLink>, userId: UserId): Option<nat> {
    FirstIndex(links, (l: ChildLink) => l.userId == userId)
  }

  /** `monitoringStatus` is `None` (JSON `null`) for every role but STUDENT. */
  datatype PrivacyReport = PrivacyReport(userId: UserId, role: Role, monitoringStatus: Option<Monitoring>)

  /** A student sees the first link naming them as the child, with its consent
      state (a link without one reads as PENDING), or that nobody monitors them;
      other roles see no monitoring block. Only a student's request reads the
      store. */
  function PrivacyStatus(links: seq<ChildLink>, caller: Caller, storeDown: bool): (r: Result<PrivacyReport, int>)
    ensures r.Success? <==> caller.role != Student || !storeDown
    ensures r.Failure? ==> r.error == ServerError
    ensures r.Success? ==> r.value.userId == caller.id && r.value.role == caller.role
    ensures r.Success? ==> (r.value.monitoringStatus.None? <==> caller.role != Student)
    ensures r.Success? && caller.role == Student ==>
      (r.value.monitoringStatus.value.Monitored? <==> exists k :: 0 <= k < |links| && links[k].userId == caller.id)
    ensures r.Success? && caller.role == Student && r.value.monitoringStatus.value.Monitored? ==>
      var k := FirstLinkAsChild(links, caller.id).value;
      r.value.monitoringStatus.value == Monitored(links[k].createdAt, links[k].parentId, links[k].consentStatus.GetOr(Pending))
  {
    if caller.role != Student then Success(PrivacyReport(caller.id, caller.role, None))
    else if storeDown then Failure(ServerError)
    else
      var monitoring :=
        match FirstLinkAsChild(links, caller.id)
        case None => NotMonitored
        case Some(k) => Monitored(links[k].createdAt, links[k].parentId, links[k].consentStatus.GetOr(Pending));
      Success(PrivacyReport(caller.id, caller.role, Some(monitoring)))
  }
}
