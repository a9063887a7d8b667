/** The parent-monitoring routes over the `child` link table: a parent asks to
    monitor a student (the link starts PENDING), only the student answers
    (approve sets APPROVED, decline deletes the link), and a parent reads a
    linked child's recent activity.

    The routes that write (`/link-child`, `/consent/:childId`) are methods over
    the shared `Database`; the read-only routes are functions of the tables
    they read. `storeDown` stands for the store throwing at its first call,
    which every route answers with 500. */
module ParentRoutes {
  import opened Wrappers
  import opened Text
  import opened Ordering
  import opened Tables
  import opened Http

  const ActivityWindowDays: nat := 30
  const RecentActivityLimit: nat := 20
  const MaxNameLength: nat := 100

  // ===========================================================================
  // The link table
  // ===========================================================================

  /** Link ids are distinct and below the next id, and there is at most one
      link per (parent, child) pair. */
  ghost predicate LinkTableValid(links: seq<ChildLink>, nextId: nat) {
    && (forall i :: 0 <= i < |links| ==> links[i].id < nextId)
    && (forall i, j :: 0 <= i < j < |links| ==> links[i].id != links[j].id)
    && (forall i, j :: 0 <= i < j < |links| ==>
          links[i].parentId != links[j].parentId || links[i].userId != links[j].userId)
  }

  predicate IsLinkOf(link: ChildLink, childId: UserId, parentId: UserId) {
    link.userId == childId && link.parentId == parentId
  }

  predicate IsPendingFor(link: ChildLink, childId: UserId) {
    link.userId == childId && link.consentStatus == Some(Pending)
  }

  /** `child.findFirst({ userId: childId, parentId })`. */
  function FindLink(links: seq<ChildLink>, childId: UserId, parentId: UserId): (r: Option<ChildLink>)
    ensures r.Some? ==> r.value in links && IsLinkOf(r.value, childId, parentId)
    ensures r.None? <==> forall k :: 0 <= k < |links| ==> !IsLinkOf(links[k], childId, parentId)
  {
    match FirstIndex(links, l => IsLinkOf(l, childId, parentId))
    case None => None
    case Some(i) => Some(links[i])
  }

  /** The links still waiting for `childId`'s answer. */
  function PendingFor(links: seq<ChildLink>, childId: UserId): (r: seq<ChildLink>)
    ensures forall l :: l in r <==> l in links && IsPendingFor(l, childId)
  {
    var keep := l => IsPendingFor(l, childId);
    FilterMembers(links, keep);
    Filter(links, keep)
  }

  // ===========================================================================
  // GET /children
  // ===========================================================================

  /** A parent's links, in any consent state. */
  function Children(links: seq<ChildLink>, caller: Caller, storeDown: bool): (r: Result<seq<ChildLink>, int>)
    ensures r.Success? <==> caller.role == Parent && !storeDown
    ensures caller.role != Parent ==> r == Failure(Forbidden)
    ensures caller.role == Parent && storeDown ==> r == Failure(ServerError)
    ensures r.Success? ==> forall l :: l in r.value <==> l in links && l.parentId == caller.id
  {
    if caller.role != Parent then Failure(Forbidden)
    else if storeDown then Failure(ServerError)
    else
      var keep := (l: ChildLink) => l.parentId == caller.id;
      FilterMembers(links, keep);
      Success(Filter(links, keep))
  }

  // ===========================================================================
  // GET /activity/:childId
  // ===========================================================================

  datatype ActivityStats = ActivityStats(totalInteractions: nat, totalTime: nat, subjectsStudied: nat, subjects: seq<string>)

  datatype ActivityReport = ActivityReport(
    childId: UserId, name: string, grade: int, stats: ActivityStats,
    recentActivity: seq<Interaction>, progress: seq<OwnedRow>)

  predicate InWindow(x: Interaction, childId: UserId, since: int) {
    x.userId == childId && x.timestamp >= since
  }

  /** The child's interactions since `since`, newest first. */
  function ActivityWindow(interactions: seq<Interaction>, childId: UserId, since: int): seq<Interaction> {
    SortDesc(Filter(interactions, x => InWindow(x, childId, since)), InteractionTime)
  }

  /** `reduce((sum, x) => sum + (x.timeSpent || 0), 0)`. */
  function TotalTime(xs: seq<Interaction>): nat {
    if xs == [] then 0 else xs[0].timeSpent.GetOr(0) + TotalTime(xs[1..])
  }

  function SubjectsOf(xs: seq<Interaction>): (r: seq<string>)
    ensures |r| == |xs| && forall i :: 0 <= i < |xs| ==> r[i] == xs[i].subject
  {
    seq(|xs|, i requires 0 <= i < |xs| => xs[i].subject)
  }

  /** The parent's view of a linked child: the request is checked, the caller
      must be a parent, and some link between the two must exist, whatever its
      consent state. */
  function Activity(links: seq<ChildLink>, interactions: seq<Interaction>, progress: seq<OwnedRow>,
                    caller: Caller, childId: UserId, now: int, storeDown: bool): (r: Result<ActivityReport, int>)
    ensures !IsUuid(childId) ==> r == Failure(BadRequest)
    ensures IsUuid(childId) && caller.role != Parent ==> r == Failure(Forbidden)
    ensures IsUuid(childId) && caller.role == Parent && storeDown ==> r == Failure(ServerError)
    ensures IsUuid(childId) && caller.role == Parent && !storeDown && FindLink(links, childId, caller.id).None? ==>
      r == Failure(NotFound)
    ensures r.Success? <==>
      IsUuid(childId) && caller.role == Parent && !storeDown && FindLink(links, childId, caller.id).Some?
  {
    if !IsUuid(childId) then Failure(BadRequest)
    else if caller.role != Parent then Failure(Forbidden)
    else if storeDown then Failure(ServerError)
    else match FindLink(links, childId, caller.id)
      case None => Failure(NotFound)
      case Some(link) =>
        var window := ActivityWindow(interactions, childId, now - ActivityWindowDays * MsPerDay);
        var subjects := Distinct(SubjectsOf(window));
        Success(ActivityReport(
          link.userId, link.name, link.grade,
          ActivityStats(|window|, TotalTime(window), |subjects|, subjects),
          Take(window, RecentActivityLimit),
          Filter(progress, (row: OwnedRow) => row.userId == childId)))
  }

  /** The activity gate looks only for a link: a PENDING (or declined or
      status-less) link lets the parent read as much as an APPROVED one. */
  lemma ActivityGateIgnoresConsent(links: seq<ChildLink>, interactions: seq<Interaction>, progress: seq<OwnedRow>,
                                   caller: Caller, childId: UserId, now: int, k: nat)
    requires IsUuid(childId) && caller.role == Parent
    requires k < |links| && IsLinkOf(links[k], childId, caller.id)
    ensures Activity(links, interactions, progress, caller, childId, now, false).Success?
  {
  }

  /** The window holds exactly the child's interactions since `since`, each
      as often as in the table, newest first. */
  lemma WindowMeans(interactions: seq<Interaction>, childId: UserId, since: int)
    ensures var window := ActivityWindow(interactions, childId, since);
      && SortedDesc(window, InteractionTime)
      && multiset(window) == multiset(Filter(interactions, x => InWindow(x, childId, since)))
      && forall x :: x in window <==> x in interactions && InWindow(x, childId, since)
  {
    var inWindow := Filter(interactions, x => InWindow(x, childId, since));
    var window := ActivityWindow(interactions, childId, since);
    FilterMembers(interactions, x => InWindow(x, childId, since));
    assert multiset(window) == multiset(inWindow);
    forall x ensures x in window <==> x in inWindow {
      assert x in window <==> x in multiset(window);
      assert x in inWindow <==> x in multiset(inWindow);
    }
  }

  /** The first 20 rows of the window: newest first, only the child's
      interactions since `since`, and none left out is newer than one kept. */
  lemma RecentIsNewest(interactions: seq<Interaction>, childId: UserId, since: int)
    ensures var recent := Take(ActivityWindow(interactions, childId, since), RecentActivityLimit);
      && |recent| <= RecentActivityLimit
      && SortedDesc(recent, InteractionTime)
      && (forall x :: x in recent ==> x in interactions && InWindow(x, childId, since))
      && (forall x, i :: x in interactions && InWindow(x, childId, since) && x !in recent && 0 <= i < |recent| ==>
            InteractionTime(recent[i]) >= InteractionTime(x))
  {
    var inWindow := Filter(interactions, x => InWindow(x, childId, since));
    var window := ActivityWindow(interactions, childId, since);
    WindowMeans(interactions, childId, since);
    FilterMembers(interactions, x => InWindow(x, childId, since));
    TakeSortedIsTop(inWindow, InteractionTime, RecentActivityLimit);
    var recent := Take(window, RecentActivityLimit);
    forall i, j | 0 <= i < j < |recent| ensures InteractionTime(recent[i]) >= InteractionTime(recent[j]) {
      assert recent[i] == window[i] && recent[j] == window[j];
    }
  }

  /** What the activity report holds: the child, the count of the child's
      interactions of the last 30 days, and the first 20 of them newest
      first, so that no interaction of the window left out is newer than one
      kept. */
  lemma ActivityReportMeans(links: seq<ChildLink>, interactions: seq<Interaction>, progress: seq<OwnedRow>,
                            caller: Caller, childId: UserId, now: int)
    requires Activity(links, interactions, progress, caller, childId, now, false).Success?
    ensures var report := Activity(links, interactions, progress, caller, childId, now, false).value;
      var since := now - ActivityWindowDays * MsPerDay;
      && report.childId == childId
      && report.stats.totalInteractions == |Filter(interactions, x => InWindow(x, childId, since))|
      && report.recentActivity == Take(ActivityWindow(interactions, childId, since), RecentActivityLimit)
      && |report.recentActivity| <= RecentActivityLimit
      && SortedDesc(report.recentActivity, InteractionTime)
      && (forall x :: x in report.recentActivity ==> x in interactions && InWindow(x, childId, since))
      && (forall x, i ::
            (x in interactions && InWindow(x, childId, since) && x !in report.recentActivity && 0 <= i < |report.recentActivity|) ==>
            InteractionTime(report.recentActivity[i]) >= InteractionTime(x))
  {
    var since := now - ActivityWindowDays * MsPerDay;
    WindowMeans(interactions, childId, since);
    RecentIsNewest(interactions, childId, since);
    assert Activity(links, interactions, progress, caller, childId, now, false).value.recentActivity
      == Take(ActivityWindow(interactions, childId, since), RecentActivityLimit);
  }

  /** The report lists each subject the child studied in the window exactly
      once, and counts them. */
  lemma ActivitySubjectsMeans(links: seq<ChildLink>, interactions: seq<Interaction>, progress: seq<OwnedRow>,
                              caller: Caller, childId: UserId, now: int)
    requires Activity(links, interactions, progress, caller, childId, now, false).Success?
    ensures var stats := Activity(links, interactions, progress, caller, childId, now, false).value.stats;
      var since := now - ActivityWindowDays * MsPerDay;
      && (forall s :: s in stats.subjects <==> exists x :: x in interactions && InWindow(x, childId, since) && x.subject == s)
      && (forall i, j :: 0 <= i < j < |stats.subjects| ==> stats.subjects[i] != stats.subjects[j])
      && stats.subjectsStudied == |stats.subjects|
  {
    var since := now - ActivityWindowDays * MsPerDay;
    var window := ActivityWindow(interactions, childId, since);
    WindowMeans(interactions, childId, since);
    SubjectsOfMeans(window);
  }

  /** The distinct subjects of a list are exactly the subjects of its rows. */
  lemma SubjectsOfMeans(xs: seq<Interaction>)
    ensures forall s :: s in Distinct(SubjectsOf(xs)) <==> exists x :: x in xs && x.subject == s
  {
    var subjects := SubjectsOf(xs);
    forall s | s in Distinct(subjects) ensures exists x :: x in xs && x.subject == s {
      var i :| 0 <= i < |subjects| && subjects[i] == s;
      assert xs[i] in xs;
    }
    forall s | exists x :: x in xs && x.subject == s ensures s in Distinct(subjects) {
      var x :| x in xs && x.subject == s;
      var i :| 0 <= i < |xs| && xs[i] == x;
      assert subjects[i] == s;
    }
  }

  // ===========================================================================
  // POST /link-child
  // ===========================================================================

  /** The body checks: a UUID for the child, a name of 1 to 100 characters once
      trimmed, a grade from 1 to 11. */
  predicate LinkInputValid(childUserId: string, name: string, grade: int) {
    IsUuid(childUserId) && TrimmedLengthBetween(name, 1, MaxNameLength) && 1 <= grade <= 11
  }

  /** The row `/link-child` creates: PENDING, the child counted as notified at
      `now`, no consent time yet. The name is stored trimmed. */
  function PendingLink(id: nat, parentId: UserId, childId: UserId, name: string, grade: int, now: int): (l: ChildLink)
    ensures l.consentStatus == Some(Pending) && l.consentedAt == None
    ensures IsLinkOf(l, childId, parentId) && l.id == id
  {
    ChildLink(id, parentId, childId, Trim(name), grade, Some(Pending), None, true, Some(now), now)
  }

  /** The checks run in this order: request body (400), caller is a parent
      (403), the child account exists (404) and is a student (400), no link
      between the two yet in any state (409). Only then is one PENDING link
      added. */
  method LinkChild(db: Database, caller: Caller, childUserId: UserId, name: string, grade: int,
                   now: int, storeDown: bool)
    returns (r: Result<ChildLink, int>)
    modifies db
    ensures !LinkInputValid(childUserId, name, grade) ==> r == Failure(BadRequest)
    ensures LinkInputValid(childUserId, name, grade) && caller.role != Parent ==> r == Failure(Forbidden)
    ensures LinkInputValid(childUserId, name, grade) && caller.role == Parent && storeDown ==> r == Failure(ServerError)
    ensures LinkInputValid(childUserId, name, grade) && caller.role == Parent && !storeDown ==>
      var users := old(db.tables.users);
      && (childUserId !in users ==> r == Failure(NotFound))
      && (childUserId in users && users[childUserId] != Student ==> r == Failure(BadRequest))
      && (childUserId in users && users[childUserId] == Student && FindLink(old(db.tables.links), childUserId, caller.id).Some?
          ==> r == Failure(Conflict))
    ensures r.Success? <==>
      && LinkInputValid(childUserId, name, grade) && caller.role == Parent && !storeDown
      && childUserId in old(db.tables.users) && old(db.tables.users)[childUserId] == Student
      && FindLink(old(db.tables.links), childUserId, caller.id).None?
    ensures r.Failure? ==> db.tables == old(db.tables)
    ensures r.Success? ==>
      && r.value == PendingLink(old(db.tables.nextLinkId), caller.id, childUserId, name, grade, now)
      && db.tables == old(db.tables).(links := old(db.tables.links) + [r.value], nextLinkId := old(db.tables.nextLinkId) + 1)
    ensures LinkTableValid(old(db.tables.links), old(db.tables.nextLinkId)) ==> LinkTableValid(db.tables.links, db.tables.nextLinkId)
  {
    if !LinkInputValid(childUserId, name, grade) {
      return Failure(BadRequest);
    }
    if caller.role != Parent {
      return Failure(Forbidden);
    }
    if storeDown {
      return Failure(ServerError);
    }
    if childUserId !in db.tables.users {
      return Failure(NotFound);
    }
    if db.tables.users[childUserId] != Student {
      return Failure(BadRequest);
    }
    var existing := FindLink(db.tables.links, childUserId, caller.id);
    if existing.Some? {
      return Failure(Conflict);
    }
    var link := PendingLink(db.tables.nextLinkId, caller.id, childUserId, name, grade, now);
    if LinkTableValid(db.tables.links, db.tables.nextLinkId) {
      AddLinkKeepsValid(db.tables.links, db.tables.nextLinkId, link);
    }
    db.tables := db.tables.(links := db.tables.links + [link], nextLinkId := db.tables.nextLinkId + 1);
    r := Success(link);
  }

  /** Adding a link with the next id for a pair that has no link keeps the
      table valid. */
  lemma AddLinkKeepsValid(links: seq<ChildLink>, nextId: nat, link: ChildLink)
    requires LinkTableValid(links, nextId)
    requires link.id == nextId
    requires forall k :: 0 <= k < |links| ==> !IsLinkOf(links[k], link.userId, link.parentId)
    ensures LinkTableValid(links + [link], nextId + 1)
  {
    var s := links + [link];
    forall i, j | 0 <= i < j < |s|
      ensures s[i].id != s[j].id
      ensures s[i].parentId != s[j].parentId || s[i].userId != s[j].userId
    {
      if j == |links| {
        assert s[i] == links[i] && !IsLinkOf(links[i], link.userId, link.parentId);
      }
    }
  }

  // ===========================================================================
  // POST /consent/:childId
  // ===========================================================================

  datatype ConsentAnswer = Approve | Decline

  /** The link after the child approves it. */
  function ApprovedLink(link: ChildLink, now: int): (l: ChildLink)
    ensures l.consentStatus == Some(Approved) && l.consentedAt == Some(now)
    ensures l.id == link.id && IsLinkOf(l, link.userId, link.parentId)
  {
    link.(consentStatus := Some(Approved), consentedAt := Some(now))
  }

  /** The first PENDING link for `childId`, in table order (`findFirst`). */
  function FirstPending(links: seq<ChildLink>, childId: UserId): Option<nat> {
    FirstIndex(links, l => IsPendingFor(l, childId))
  }

  /** The answer is checked (400), then a PENDING link for the child must exist
      (404) before the caller is compared with the child (403); so a caller
      who is not the child learns whether a request is pending. Approve
      updates that one link, decline deletes it; no other link changes. */
  method Consent(db: Database, caller: Caller, childId: UserId, consent: string, now: int, storeDown: bool)
    returns (r: Result<ConsentAnswer, int>)
    modifies db
    ensures !(IsUuid(childId) && (consent == "approve" || consent == "decline")) ==> r == Failure(BadRequest)
    ensures IsUuid(childId) && (consent == "approve" || consent == "decline") ==>
      && (storeDown ==> r == Failure(ServerError))
      && (!storeDown && FirstPending(old(db.tables.links), childId).None? ==> r == Failure(NotFound))
      && (!storeDown && FirstPending(old(db.tables.links), childId).Some? && caller.id != childId ==> r == Failure(Forbidden))
    ensures r.Success? <==>
      IsUuid(childId) && (consent == "approve" || consent == "decline") && !storeDown
      && FirstPending(old(db.tables.links), childId).Some? && caller.id == childId
    ensures r.Failure? ==> db.tables == old(db.tables)
    ensures r.Success? ==>
      var links := old(db.tables.links);
      var i := FirstPending(links, childId).value;
      && (consent == "approve" ==> r.value == Approve && db.tables == old(db.tables).(links := links[i := ApprovedLink(links[i], now)]))
      && (consent == "decline" ==> r.value == Decline && db.tables == old(db.tables).(links := RemoveAt(links, i)))
    ensures LinkTableValid(old(db.tables.links), db.tables.nextLinkId) ==> LinkTableValid(db.tables.links, db.tables.nextLinkId)
  {
    if !(IsUuid(childId) && (consent == "approve" || consent == "decline")) {
      return Failure(BadRequest);
    }
    if storeDown {
      return Failure(ServerError);
    }
    var found := FirstPending(db.tables.links, childId);
    if found.None? {
      return Failure(NotFound);
    }
    if caller.id != childId {
      return Failure(Forbidden);
    }
    var i := found.value;
    if consent == "approve" {
      if LinkTableValid(db.tables.links, db.tables.nextLinkId) {
        ApproveKeepsValid(db.tables.links, db.tables.nextLinkId, i, now);
      }
      db.tables := db.tables.(links := db.tables.links[i := ApprovedLink(db.tables.links[i], now)]);
      r := Success(Approve);
    } else {
      if LinkTableValid(db.tables.links, db.tables.nextLinkId) {
        RemoveKeepsValid(db.tables.links, db.tables.nextLinkId, i);
      }
      db.tables := db.tables.(links := RemoveAt(db.tables.links, i));
      r := Success(Decline);
    }
  }

  lemma ApproveKeepsValid(links: seq<ChildLink>, nextId: nat, i: nat, now: int)
    requires LinkTableValid(links, nextId) && i < |links|
    ensures LinkTableValid(links[i := ApprovedLink(links[i], now)], nextId)
  {
    var s := links[i := ApprovedLink(links[i], now)];
    assert forall k :: 0 <= k < |s| ==> s[k].id == links[k].id && s[k].parentId == links[k].parentId && s[k].userId == links[k].userId;
  }

  lemma RemoveKeepsValid(links: seq<ChildLink>, nextId: nat, i: nat)
    requires LinkTableValid(links, nextId) && i < |links|
    ensures LinkTableValid(RemoveAt(links, i), nextId)
  {
    var s := RemoveAt(links, i);
    forall a, b | 0 <= a < b < |s|
      ensures s[a].id != s[b].id
      ensures s[a].parentId != s[b].parentId || s[a].userId != s[b].userId
    {
      var a', b' := if a < i then a else a + 1, if b < i then b else b + 1;
      assert s[a] == links[a'] && s[b] == links[b'] && a' < b';
    }
  }

  /** Each approve or decline uses up exactly one of the child's pending
      requests. */
  lemma AnswerConsumesOnePending(links: seq<ChildLink>, childId: UserId, now: int)
    requires FirstPending(links, childId).Some?
    ensures var i := FirstPending(links, childId).value;
      && |PendingFor(links[i := ApprovedLink(links[i], now)], childId)| == |PendingFor(links, childId)| - 1
      && |PendingFor(RemoveAt(links, i), childId)| == |PendingFor(links, childId)| - 1
  {
    var i := FirstPending(links, childId).value;
    FilterUpdateDrops(links, i, ApprovedLink(links[i], now), l => IsPendingFor(l, childId));
    FilterRemoveDrops(links, i, l => IsPendingFor(l, childId));
  }

  /** A pending request is found exactly when the child has one; once all are
      answered, another answer gets 404. */
  lemma NoPendingNotFound(links: seq<ChildLink>, childId: UserId)
    ensures FirstPending(links, childId).None? <==> |PendingFor(links, childId)| == 0
  {
    var pending := PendingFor(links, childId);
    if |pending| > 0 {
      PendingIsInTable(links, childId, pending[0]);
    }
    if FirstPending(links, childId).Some? {
      assert links[FirstPending(links, childId).value] in pending;
    }
  }

  lemma PendingIsInTable(links: seq<ChildLink>, childId: UserId, l: ChildLink)
    requires l in PendingFor(links, childId)
    ensures exists k :: 0 <= k < |links| && IsPendingFor(links[k], childId)
  {
    var k :| 0 <= k < |links| && links[k] == l;
  }

  // ===========================================================================
  // GET /pending-consents
  // ===========================================================================

  datatype PendingRequest = PendingRequest(id: nat, parentId: UserId, requestedAt: int)

  function RequestOf(link: ChildLink): PendingRequest {
    PendingRequest(link.id, link.parentId, link.createdAt)
  }

  /** The caller's pending requests, whatever the caller's role. */
  function PendingConsents(links: seq<ChildLink>, caller: Caller, storeDown: bool): (r: Result<seq<PendingRequest>, int>)
    ensures r.Success? <==> !storeDown
    ensures r.Success? ==> |r.value| == |PendingFor(links, caller.id)|
    ensures r.Success? ==> forall k :: 0 <= k < |r.value| ==> r.value[k] == RequestOf(PendingFor(links, caller.id)[k])
  {
    if storeDown then Failure(ServerError)
    else
      var pending := PendingFor(links, caller.id);
      Success(seq(|pending|, k requires 0 <= k < |pending| => RequestOf(pending[k])))
  }

  /** A link is listed exactly when it is the caller's and still PENDING. */
  lemma PendingConsentsExact(links: seq<ChildLink>, caller: Caller)
    ensures var requests := PendingConsents(links, caller, false).value;
      && (forall l :: l in links && IsPendingFor(l, caller.id) ==> RequestOf(l) in requests)
      && (forall q :: q in requests ==> exists l :: l in links && IsPendingFor(l, caller.id) && q == RequestOf(l))
  {
    var pending := PendingFor(links, caller.id);
    var requests := PendingConsents(links, caller, false).value;
    forall l | l in links && IsPendingFor(l, caller.id) ensures RequestOf(l) in requests {
      assert l in pending;
      var k :| 0 <= k < |pending| && pending[k] == l;
      assert requests[k] == RequestOf(l);
    }
    forall q | q in requests ensures exists l :: l in links && IsPendingFor(l, caller.id) && q == RequestOf(l) {
      var k :| 0 <= k < |requests| && requests[k] == q;
      assert pending[k] in pending;
    }
  }
}
