# Tutoring backend: quota ledger, consent workflow, retention sweep

This project models the Node backend of an AI-tutoring product in Dafny and
proves properties of the model. Students chat with a language-model tutor.
Each chat turn is metered against a monthly token quota that depends on the
student's plan. A parent can ask to monitor a student's activity, and only the
student can approve or decline the request. A student can erase the account.
A retention job deletes old chat logs, support messages and usage rows, and it
anonymises old resolved support tickets. A start-up check validates the
environment.

The modules follow the source files:

| module | file | what it holds |
|---|---|---|
| `Wrappers` | `wrappers.dfy` | `Option` and `Result` |
| `Text` | `text.dfy` | the JavaScript string operations used (`trim`, `toLowerCase`, `includes`, `split`, `parseInt`, `String(n)`) |
| `Ordering` | `ordering.dfy` | the store's read operations (`where`, `orderBy … desc`, `take`, `findFirst`), `reverse` and `[...new Set(xs)]` |
| `Tables` | `tables.dfy` | the rows of every table the core touches, and the `Database` class that holds them |
| `Http` | `http.dfy` | status codes and the `express-validator` checks (`isUUID`, `trim().isLength`) |
| `AiService` | `ai_service.dfy` | the tutoring service: plan caps, the monthly ledger, the quota check, the usage commit, the response classifier, the prompt selectors, and the order of one chat turn |
| `ParentRoutes` | `parent_routes.dfy` | the parent/child consent state machine and the activity view |
| `UserRoutes` | `user_routes.dfy` | account erasure and the privacy status |
| `DataRetention` | `data_retention.dfy` | the retention sweep |
| `AiRoutes` | `ai_routes.dfy` | the newer `/chat` and `/usage` routes: validation, the history window, the 429 mapping of a used-up quota, and per-day usage aggregation |
| `LegacyAiRoutes` | `legacy_ai_routes.dfy` | the older `/chat` route, where every error becomes a 500, and `/history/:subject` |
| `EnvConfig` | `env_config.dfy` | the start-up validation of the environment |

Modelling choices:

- **The store.** The whole store is one `Database` object with a single field of type `Tables`. Every route or service step that writes to the store is a method with `modifies db`, and its postcondition states the complete new `Tables` value.
- **Outside effects.** The language-model provider is a function value from (system prompt, turns) to a reply. Failing store calls are inputs: a flag, the index of the step that throws, or the step of a chat turn whose store access throws. Times are integer milliseconds. The current year and month are parameters.
- **Confidence.** The classifier's confidence is counted in tenths: 10 stands for 1.0. `needsReview` holds when the confidence is below 7.

Where the system's design description and the code disagree, the model follows the code:

- **Activity gate.** The activity view (`ParentRoutes.Activity`) asks only for some link between the parent and the child. It does not require an approved one (`ParentRoutes.ActivityGateIgnoresConsent`).
- **Consent check order.** A consent answer first looks for a pending request for the child and answers 404 when there is none. Only after that does it compare the caller with the child (403).
- **Retention passes.** The retention job runs its four passes in sequence with no isolation between them. A pass that throws stops the passes after it (`DataRetention.RunDataRetentionJob`).
- **Retention re-runs.** A second retention run deletes nothing more. It still reports the old tickets as anonymised again (`DataRetention.RerunChangesNothing`).
- **Subject keys.** The routes accept English subject ids (`math`, …), while the service's subject table and its mathematics rule are keyed by Russian names. For every accepted subject, the generic subject text is therefore chosen and the formula rule never fires (`AiRoutes.RouteSubjectsMissTheServiceTable`).
- **Quota overshoot.** The quota is checked before the provider call and committed after it, so one turn can take the ledger past its cap (`AiService.CommitOvershootsCap`).
- **Ledger drift.** The usage row and the ledger increment are two writes outside any transaction. An upsert that throws after the insert leaves a usage row the ledger does not count, and the client gets the generic 500 (`AiService.UsageWrittenLedger`, `AiService.AnsweredTurnLedger`).

## Model

| member | source | states |
|---|---|---|
| AiService.UserTokenLimit | repetitor-mvp/repetitor-mvp/backend/src/services/ai.service.js:25-32 | the cap for any plan is at least the FREE cap |
| AiService.UserTokenLimitByPlan | repetitor-mvp/repetitor-mvp/backend/src/services/ai.service.js:8-31 | FREE, STARTER, STANDARD and PREMIUM get 50000, 200000, 500000 and 2000000 tokens; no subscription or an unknown plan gets the FREE cap |
| AiService.CurrentRow | repetitor-mvp/repetitor-mvp/backend/src/services/ai.service.js:44-60 | an existing period row is returned as stored; a missing one reads as 0 used with the plan's cap |
| AiService.GetOrCreateMonthlyQuota | repetitor-mvp/repetitor-mvp/backend/src/services/ai.service.js:37-63 | returns the period's row and creates it only when it was missing; an existing row leaves the store unchanged |
| AiService.RoundedPercentIsNearest | repetitor-mvp/repetitor-mvp/backend/src/services/ai.service.js:77 | the percentage is the nearest integer to the exact value of used/limit·100, with halves rounded up |
| AiService.QuotaReport | repetitor-mvp/repetitor-mvp/backend/src/services/ai.service.js:68-79 | remaining + used = limit, quota is left exactly when used < limit, and the percentage is the nearest integer to used/limit·100, halves rounded up |
| AiService.CheckQuota | repetitor-mvp/repetitor-mvp/backend/src/services/ai.service.js:68-79 | after the call the period's row exists, only that lookup is written, and the report describes that row |
| AiService.CommitOnlyGrows | repetitor-mvp/repetitor-mvp/backend/src/services/ai.service.js:103-119 | the upsert adds the key, raises its usage by exactly the total, never lowers another row's usage or changes a cap, and leaves other periods alone |
| AiService.UpdateTokenUsage | repetitor-mvp/repetitor-mvp/backend/src/services/ai.service.js:84-122 | appends one usage row and then, in a separate write, increments (or creates) the period's ledger row by input + output, returning that total; a throwing insert writes nothing, a throwing upsert leaves the usage row without its increment, and neither returns a total |
| AiService.UsageWrittenLedger | repetitor-mvp/repetitor-mvp/backend/src/services/ai.service.js:90-119 | after the usage write every ledger row still equals the sum of its period's usage rows, except exactly when the upsert throws after inserting a row that adds tokens or whose period has no ledger row |
| AiService.FreshRowKeepsLedgerMatch | repetitor-mvp/repetitor-mvp/backend/src/services/ai.service.js:50-60 | creating a missing period row at 0 keeps every ledger row equal to the sum of its period's usage rows |
| AiService.CommitKeepsLedgerMatch | repetitor-mvp/repetitor-mvp/backend/src/services/ai.service.js:91-119 | appending a usage row and committing its total keeps every ledger row equal to the sum of its period's usage rows |
| AiService.TurnKeepsLedgerMatch | repetitor-mvp/repetitor-mvp/backend/src/services/ai.service.js:127-168 | the lookup and the commit of one turn both keep the ledger equal to the usage rows |
| AiService.CommitOvershootsCap | repetitor-mvp/repetitor-mvp/backend/src/services/ai.service.js:127-168 | committing a 110-token turn to a row at 49900 of 50000 leaves it at 50010, with no quota left and −10 remaining |
| AiService.AnswerTailGreedy | repetitor-mvp/repetitor-mvp/backend/src/services/ai.service.js:344 | a whitespace run followed by a digit or dot exists exactly when the first non-space after the colon is a digit or dot |
| AiService.FindAnswerMeans | repetitor-mvp/repetitor-mvp/backend/src/services/ai.service.js:344 | the scan succeeds exactly when `ответ:` followed by optional spaces and a digit or dot occurs at some position |
| AiService.ContainsFullSolutionMeans | repetitor-mvp/repetitor-mvp/backend/src/services/ai.service.js:342-347 | a full solution is flagged exactly when the lower-cased question contains `реши` and the lower-cased answer matches the answer pattern |
| AiService.IsFriendlyToneMeans | repetitor-mvp/repetitor-mvp/backend/src/services/ai.service.js:349-352 | the tone is friendly exactly when the lower-cased text contains one of the seven friendly words |
| AiService.ValidateResponse | repetitor-mvp/repetitor-mvp/backend/src/services/ai.service.js:308-340 | the issues are the texts of the fired rules in check order, and the confidence is 10 minus their penalties, floored at 0 |
| AiService.FiredRulesMeans | repetitor-mvp/repetitor-mvp/backend/src/services/ai.service.js:308-340 | a rule is among the fired ones exactly when its condition holds; at most four fire, with a total penalty of at most 10 |
| AiService.ReviewIffPenaltyAtLeastFour | repetitor-mvp/repetitor-mvp/backend/src/services/ai.service.js:181 | confidence + penalties = 10, and review is needed exactly when the penalties reach 0.4 |
| AiService.FullSolutionForcesReview | repetitor-mvp/repetitor-mvp/backend/src/services/ai.service.js:328-331 | an answer flagged as a full solution always needs review |
| AiService.OneIssuePerFiredRule | repetitor-mvp/repetitor-mvp/backend/src/services/ai.service.js:308-340 | one issue text per fired rule, and a rule's text is listed exactly when the rule fires |
| AiService.IssueTextInjective | repetitor-mvp/repetitor-mvp/backend/src/services/ai.service.js:312-337 | distinct rules have distinct issue texts |
| AiService.AgeInstructions | repetitor-mvp/repetitor-mvp/backend/src/services/ai.service.js:285-306 | primary school exactly for grades ≤ 4, middle school for 5..9, high school for ≥ 10 |
| AiService.SubjectInstructions | repetitor-mvp/repetitor-mvp/backend/src/services/ai.service.js:243-283 | the generic text is chosen exactly for subjects outside the table; a listed subject gets its own entry |
| AiService.BuildSystemPrompt | repetitor-mvp/repetitor-mvp/backend/src/services/ai.service.js:213-241 | the prompt carries the subject, the grade, the subject and age texts, and the conversational format exactly for `voice` |
| AiService.LogInteraction | repetitor-mvp/repetitor-mvp/backend/src/services/ai.service.js:354-375 | the record is appended, or nothing changes when the store fails; the failure is not passed on |
| AiService.RecordAnsweredTurn | repetitor-mvp/repetitor-mvp/backend/src/services/ai.service.js:155-209 | the usage (missing counts read as 0) is written; when both writes complete the interaction is logged unless logging fails; a throwing usage write or re-check gives the generic error, keeping what was written; otherwise the reply carries the classification and the ledger state after the commit |
| AiService.Chat | repetitor-mvp/repetitor-mvp/backend/src/services/ai.service.js:124-211 | a throwing lookup fails with the generic error and writes nothing; otherwise the provider is called exactly when the pre-check finds quota; a used-up quota fails with `QUOTA_EXCEEDED:<percent>:<limit>` and writes only the lookup; an unusable provider reply fails with the generic error and writes only the lookup; an answered turn writes its usage, logs and replies with the classification and the ledger after the commit, or, when a usage write or the re-check throws, fails with the generic error keeping the writes made before the throw |
| AiService.AnsweredTurnLedger | repetitor-mvp/repetitor-mvp/backend/src/services/ai.service.js:124-209 | an answered turn keeps every ledger row equal to the sum of its period's usage rows exactly unless its upsert throws after inserting a usage row with tokens in it |
| ParentRoutes.FindLink | repetitor-mvp/repetitor-mvp/backend/src/routes/parent.routes.js:58-63 | a found link is in the table and joins the two accounts; none is found exactly when no row joins them |
| ParentRoutes.PendingFor | repetitor-mvp/repetitor-mvp/backend/src/routes/parent.routes.js:263-267 | exactly the table's PENDING links naming the child |
| ParentRoutes.Children | repetitor-mvp/repetitor-mvp/backend/src/routes/parent.routes.js:11-38 | only a parent gets a list (403 otherwise, 500 on a store failure), and the list holds exactly the links whose parent is the caller |
| ParentRoutes.Activity | repetitor-mvp/repetitor-mvp/backend/src/routes/parent.routes.js:41-119 | 400 for a malformed id, then 403 for a non-parent, then 500 on a store failure, then 404 when no link joins parent and child; a report comes back exactly when some link joins them |
| ParentRoutes.ActivityGateIgnoresConsent | repetitor-mvp/repetitor-mvp/backend/src/routes/parent.routes.js:58-67 | any link between parent and child, whatever its consent state, opens the activity view |
| ParentRoutes.WindowMeans | repetitor-mvp/repetitor-mvp/backend/src/routes/parent.routes.js:70-79 | the window is newest first and holds exactly the child's interactions of the last 30 days, each as often as stored |
| ParentRoutes.RecentIsNewest | repetitor-mvp/repetitor-mvp/backend/src/routes/parent.routes.js:108 | the first 20 rows of the window are newest first, all the child's and all recent, and no interaction of the window left out is newer than one kept |
| ParentRoutes.ActivityReportMeans | repetitor-mvp/repetitor-mvp/backend/src/routes/parent.routes.js:92-110 | the report names the child, counts every interaction in the window and lists exactly the window's first 20, newest first, so that no left-out interaction of the window is newer than a listed one |
| ParentRoutes.ActivitySubjectsMeans | repetitor-mvp/repetitor-mvp/backend/src/routes/parent.routes.js:94-106 | each subject studied in the window is listed exactly once |
| ParentRoutes.SubjectsOfMeans | repetitor-mvp/repetitor-mvp/backend/src/routes/parent.routes.js:94 | the distinct subjects of a list are exactly the subjects of its rows |
| ParentRoutes.PendingLink | repetitor-mvp/repetitor-mvp/backend/src/routes/parent.routes.js:168-178 | a new link is PENDING, not yet consented, and joins the parent and the child under the next id |
| ParentRoutes.LinkChild | repetitor-mvp/repetitor-mvp/backend/src/routes/parent.routes.js:122-195 | the checks answer 400, 403, 500, 404, 400 and 409 in the source's order; success adds exactly one PENDING link and nothing else; the link table invariant is kept |
| ParentRoutes.AddLinkKeepsValid | repetitor-mvp/repetitor-mvp/backend/src/routes/parent.routes.js:155-178 | adding a link with the next id for a pair that has none keeps ids distinct and at most one link per pair |
| ParentRoutes.ApprovedLink | repetitor-mvp/repetitor-mvp/backend/src/routes/parent.routes.js:233-239 | an approved link is APPROVED with the consent time, and keeps its id and its two accounts |
| ParentRoutes.Consent | repetitor-mvp/repetitor-mvp/backend/src/routes/parent.routes.js:198-255 | 400 for bad input, 500 on a store failure, 404 without a pending request, then 403 unless the caller is the child; approve updates the first pending link and decline deletes it, with nothing else changed; the link table invariant is kept |
| ParentRoutes.ApproveKeepsValid | repetitor-mvp/repetitor-mvp/backend/src/routes/parent.routes.js:232-239 | approving a link keeps the link table invariant |
| ParentRoutes.RemoveKeepsValid | repetitor-mvp/repetitor-mvp/backend/src/routes/parent.routes.js:241-244 | deleting a link keeps the link table invariant |
| ParentRoutes.AnswerConsumesOnePending | repetitor-mvp/repetitor-mvp/backend/src/routes/parent.routes.js:232-246 | approving or declining removes exactly one of the child's pending requests, so a second answer cannot reuse it |
| ParentRoutes.NoPendingNotFound | repetitor-mvp/repetitor-mvp/backend/src/routes/parent.routes.js:216-225 | the lookup finds nothing exactly when the child has no pending request |
| ParentRoutes.PendingIsInTable | repetitor-mvp/repetitor-mvp/backend/src/routes/parent.routes.js:216-221 | a pending request of the child is a row of the table |
| ParentRoutes.PendingConsents | repetitor-mvp/repetitor-mvp/backend/src/routes/parent.routes.js:258-299 | succeeds unless the store fails, and lists one request per pending link of the caller, in table order |
| ParentRoutes.PendingConsentsExact | repetitor-mvp/repetitor-mvp/backend/src/routes/parent.routes.js:263-291 | a request is listed exactly when it comes from a PENDING link naming the caller as the child |
| UserRoutes.RowsWithout | repetitor-mvp/repetitor-mvp/backend/src/routes/user.routes.js:106 | the rows left are exactly those of other users |
| UserRoutes.UsageWithout | repetitor-mvp/repetitor-mvp/backend/src/routes/user.routes.js:112 | the usage rows left are exactly those of other users |
| UserRoutes.QuotasWithout | repetitor-mvp/repetitor-mvp/backend/src/routes/user.routes.js:113 | the ledger keeps exactly the other users' periods, unchanged |
| UserRoutes.InteractionsWithout | repetitor-mvp/repetitor-mvp/backend/src/routes/user.routes.js:116 | the chat log keeps exactly the other users' rows |
| UserRoutes.MessagesWithout | repetitor-mvp/repetitor-mvp/backend/src/routes/user.routes.js:119 | the support messages left are exactly those of other users |
| UserRoutes.LinksWithoutParent | repetitor-mvp/repetitor-mvp/backend/src/routes/user.routes.js:134 | the links left are exactly those whose parent is someone else |
| UserRoutes.DeleteAccount | repetitor-mvp/repetitor-mvp/backend/src/routes/user.routes.js:98-160 | 200 exactly when the user exists and no step throws; then the store holds no row keyed by the user, every per-user table loses the user's rows, tickets are anonymised, parent-side links go and the user row last; otherwise nothing changes (rollback) and 500 |
| UserRoutes.ErasureIsExact | repetitor-mvp/repetitor-mvp/backend/src/routes/user.routes.js:104-147 | the committed store holds no row keyed by the user in any table and no link with the user as parent, keeps every other user's rows (and their ledger and role values), removes no ticket and leaves the link counter alone |
| UserRoutes.ChildSideLinksRemain | repetitor-mvp/repetitor-mvp/backend/src/routes/user.routes.js:134 | the route's own link delete keeps a link in which the erased user is the child (the store's foreign-key action on the final user delete is not modelled) |
| UserRoutes.TicketsErasedMeans | repetitor-mvp/repetitor-mvp/backend/src/routes/user.routes.js:120-128 | no ticket is removed; the user's tickets carry `[Deleted]`, the GDPR note and an empty conversation; others are unchanged |
| UserRoutes.PrivacyStatus | repetitor-mvp/repetitor-mvp/backend/src/routes/user.routes.js:163-229 | only a student's request can fail (500); non-students get no monitoring block; a student is monitored exactly when some link names them, reported from the first such link with a missing consent state read as PENDING |
| DataRetention.RetentionDaysDefault | repetitor-mvp/repetitor-mvp/backend/src/jobs/data-retention.job.js:9 | an unset or empty setting gives 90 days |
| DataRetention.NonNumericSettingIsNaN | repetitor-mvp/repetitor-mvp/backend/src/jobs/data-retention.job.js:9 | a setting whose first character is neither whitespace, a sign nor a digit gives `NaN` |
| DataRetention.ExpiredInteractions | repetitor-mvp/repetitor-mvp/backend/src/jobs/data-retention.job.js:19-23 | exactly the chat rows older than the cutoff |
| DataRetention.KeptInteractions | repetitor-mvp/repetitor-mvp/backend/src/jobs/data-retention.job.js:19-23 | exactly the chat rows not older than the cutoff remain, and the count is the number removed |
| DataRetention.ExpiredMessages | repetitor-mvp/repetitor-mvp/backend/src/jobs/data-retention.job.js:27-32 | exactly the non-escalated messages older than the cutoff |
| DataRetention.KeptMessages | repetitor-mvp/repetitor-mvp/backend/src/jobs/data-retention.job.js:27-32 | the messages left are the recent or escalated ones, and the count is the number removed |
| DataRetention.ExpiredUsage | repetitor-mvp/repetitor-mvp/backend/src/jobs/data-retention.job.js:36-40 | exactly the usage rows older than the cutoff |
| DataRetention.KeptUsage | repetitor-mvp/repetitor-mvp/backend/src/jobs/data-retention.job.js:36-40 | the usage rows left are the recent ones, and the count is the number removed |
| DataRetention.DueTickets | repetitor-mvp/repetitor-mvp/backend/src/jobs/data-retention.job.js:47-51 | exactly the resolved or closed tickets older than twice the period |
| DataRetention.RunDataRetentionJob | repetitor-mvp/repetitor-mvp/backend/src/jobs/data-retention.job.js:11-74 | a `NaN` period, or one that moves the cutoff out of a `Date`'s range, fails before any pass and writes nothing; a ticket cutoff out of range makes the fourth pass throw; a throwing pass keeps the passes before it and passes the error on; a full run returns the four counts, each the number of rows its pass removed, and removes no ticket |
| DataRetention.DateRangeLimits | repetitor-mvp/repetitor-mvp/backend/src/jobs/data-retention.job.js:12-15 | for a present-day clock, periods of 200000000 and -200000000 days put the cutoff outside a `Date`'s range, and 60000000 days keeps the cutoff valid but not the doubled ticket cutoff |
| DataRetention.SweepIsExact | repetitor-mvp/repetitor-mvp/backend/src/jobs/data-retention.job.js:17-58 | a full sweep keeps exactly the recent rows (and escalated messages), anonymises exactly the due tickets and touches no other table |
| DataRetention.DefaultPeriodBoundary | repetitor-mvp/repetitor-mvp/backend/src/jobs/data-retention.job.js:9-23 | with 90 days, a row 91 days old is swept and rows 90 or 89 days old are kept |
| DataRetention.NothingLeftToDelete | repetitor-mvp/repetitor-mvp/backend/src/jobs/data-retention.job.js:19-40 | nothing that survived a pass matches it again |
| DataRetention.AnonymizedDueIdempotent | repetitor-mvp/repetitor-mvp/backend/src/jobs/data-retention.job.js:47-58 | anonymising twice gives the same tickets as once |
| DataRetention.DueCountKept | repetitor-mvp/repetitor-mvp/backend/src/jobs/data-retention.job.js:47-51 | after the anonymising pass the same number of tickets still match it |
| DataRetention.RerunChangesNothing | repetitor-mvp/repetitor-mvp/backend/src/jobs/data-retention.job.js:11-68 | a second run at the same instant changes nothing and deletes nothing, yet reports the same anonymised count |
| DataRetention.RerunStillCountsTickets | repetitor-mvp/repetitor-mvp/backend/src/jobs/data-retention.job.js:47-59 | one due ticket is counted again on a re-run |
| AiRoutes.FailingFields | backend/src/routes/ai.routes.js:14-25 | a field is reported exactly when its check fails; the list is empty exactly when all pass |
| AiRoutes.ValidateChatBody | backend/src/routes/ai.routes.js:14-27 | the body is accepted exactly when every check passes, otherwise rejected with the failing fields; an accepted request has a trimmed message of 1..2000 characters, a listed subject, a grade in 0..11 and an output mode defaulting to `text` |
| AiRoutes.ForSubject | backend/src/routes/ai.routes.js:34-38 | exactly the caller's interactions in the subject |
| AiRoutes.RecentInteractionsAreLatest | backend/src/routes/ai.routes.js:34-41 | min(n, m) rows, all the caller's in the subject and none repeated beyond its count there, newest first, and none left out is newer than one kept |
| AiRoutes.Expand | backend/src/routes/ai.routes.js:43-46 | each interaction becomes a user turn with its message followed by an assistant turn with its answer |
| AiRoutes.HistoryWindowMeans | backend/src/routes/ai.routes.js:34-46 | the history has two turns for each of the latest ten interactions, oldest first |
| AiRoutes.StatusOf | backend/src/routes/ai.routes.js:22-81 | 200, 400, 429 and 500 correspond exactly to a reply, a rejected body, a used-up quota and any other failure |
| AiRoutes.ChatErrorResponse | backend/src/routes/ai.routes.js:65-82 | an error is a quota error exactly when it starts with `QUOTA_EXCEEDED`, and then its second and third `:`-parts are parsed; any other error is the generic 500 |
| AiRoutes.QuotaErrorRoundTrip | backend/src/routes/ai.routes.js:67-73 | the service's quota error is read back as 429 with the same percentage and cap |
| AiRoutes.GenericErrorIsServerError | backend/src/routes/ai.routes.js:78-81 | the service's generic error becomes the 500 |
| AiRoutes.ChatRoute | backend/src/routes/ai.routes.js:20-83 | a bad body is rejected and nothing is written; a failing history read is a 500; otherwise the service's turn runs on the latest ten interactions and its outcome maps to 200 with the service's whole reply (text, confidence, review flag, usage block), 429 (with the pre-check's figures) or 500 (a throwing lookup, usage write or re-check included), with exactly the service's writes |
| AiRoutes.RouteSubjectsMissTheServiceTable | backend/src/routes/ai.routes.js:9 | no subject the route accepts is a key of the service's subject table, so the generic text is used and the formula rule never fires |
| AiRoutes.UsageSince | backend/src/routes/ai.routes.js:155-159 | exactly the caller's usage rows from the cutoff on |
| AiRoutes.UsageWindowIsLatest | backend/src/routes/ai.routes.js:148-162 | at most 100 of the caller's rows of the last 30 days, none repeated beyond its count there, newest first, none left out newer than one kept |
| AiRoutes.OnDay | backend/src/routes/ai.routes.js:167-168 | exactly the records whose UTC day is the given one |
| AiRoutes.AggregateMeans | backend/src/routes/ai.routes.js:164-175 | one entry per day that has records, no day twice, each entry holding that day's sums and record count, and the counts adding up to the number of records |
| AiRoutes.AggregateDaily | backend/src/routes/ai.routes.js:164-179 | the loop builds the per-day summary specified by `Aggregate`, and its request counts add up to the number of records |
| AiRoutes.UsageRoute | backend/src/routes/ai.routes.js:141-190 | a throwing quota lookup is a 500 and writes nothing; otherwise only the quota lookup is written, and a failing usage read is a 500; otherwise the report holds the quota, the daily totals of the window and its size, at most 100 |
| LegacyAiRoutes.LegacyStatus | repetitor-mvp/repetitor-mvp/backend/src/routes/ai.routes.js:58-69 | 200, 400 and 500 correspond exactly to a reply, a rejected body and any failure |
| LegacyAiRoutes.LegacyChatRoute | repetitor-mvp/repetitor-mvp/backend/src/routes/ai.routes.js:12-71 | same validation and history window as the newer route; a reply exactly when quota remains, the provider answers and no store step of the turn throws; every failure, a used-up quota included, is the 500; the same writes as the service's turn |
| LegacyAiRoutes.History | repetitor-mvp/repetitor-mvp/backend/src/routes/ai.routes.js:91-125 | an unlisted subject is rejected, a failing read is a 500; otherwise the latest min(50, m) interactions of the caller in the subject, none repeated beyond its count there, newest first, none left out newer than one kept |
| EnvConfig.OrDefault | repetitor-mvp/repetitor-mvp/backend/src/config/env.config.js:65-68 | a set value wins, otherwise the fallback |
| EnvConfig.UnsetOf | repetitor-mvp/repetitor-mvp/backend/src/config/env.config.js:23-27 | exactly the listed names that are unset or empty |
| EnvConfig.DependentWarnings | repetitor-mvp/repetitor-mvp/backend/src/config/env.config.js:44-48 | one warning per unset dependent, and no other |
| EnvConfig.CollectMissing | repetitor-mvp/repetitor-mvp/backend/src/config/env.config.js:22-27 | the loop collects the unset names in list order |
| EnvConfig.CollectWarnings | repetitor-mvp/repetitor-mvp/backend/src/config/env.config.js:40-51 | the nested loops collect the warnings of the set options with dependents |
| EnvConfig.MissingRequiredExact | repetitor-mvp/repetitor-mvp/backend/src/config/env.config.js:4-27 | the missing list is exactly the unset ones of JWT_SECRET, ANTHROPIC_API_KEY and DATABASE_URL, in that order |
| EnvConfig.ValidateEnvironment | repetitor-mvp/repetitor-mvp/backend/src/config/env.config.js:18-70 | start-up fails exactly when a required variable is unset, reporting the missing ones; otherwise it returns the configuration and the warnings |
| EnvConfig.ConfigDefaults | repetitor-mvp/repetitor-mvp/backend/src/config/env.config.js:59-69 | required values pass through; unset options default to 12 rounds, `development`, port 4000 and the local web address; a set number is parsed |
| EnvConfig.NoDependentsNoWarnings | repetitor-mvp/repetitor-mvp/backend/src/config/env.config.js:42-43 | options without dependents add no warnings |
| EnvConfig.WarningsExact | repetitor-mvp/repetitor-mvp/backend/src/config/env.config.js:10-16 | the only possible warning is that TELEGRAM_BOT_TOKEN is set while ADMIN_TELEGRAM_ID is not |
| Text.Trim | backend/src/routes/ai.routes.js:15 | the result of `trim()` is a slice of the text that neither starts nor ends with whitespace, with only whitespace cut off on either side |
| Text.ToLower | repetitor-mvp/repetitor-mvp/backend/src/services/ai.service.js:343 | `toLowerCase()` maps character by character and keeps the length |
| Text.ContainsMeans | repetitor-mvp/repetitor-mvp/backend/src/services/ai.service.js:321 | `includes` holds exactly when the text occurs at some position |
| Text.ParseIntOfNatToString | backend/src/routes/ai.routes.js:72-73 | `parseInt` reads back any number written in decimal |
| Text.SplitThree | backend/src/routes/ai.routes.js:68 | `split(':')` of three colon-free parts joined by colons gives the three parts |
| Ordering.SortDesc | backend/src/routes/ai.routes.js:39 | `orderBy … desc` returns a permutation of the rows with non-increasing keys |
| Ordering.TakeSortedIsTop | backend/src/routes/ai.routes.js:39-40 | `orderBy … desc` followed by `take` keeps rows of the table, no row more often than the table holds it, and none left out has a larger key |
| Ordering.Distinct | repetitor-mvp/repetitor-mvp/backend/src/routes/parent.routes.js:94 | `[...new Set(xs)]` holds every element of `xs` once and nothing else |
| Ordering.DistinctInOrder | repetitor-mvp/repetitor-mvp/backend/src/routes/parent.routes.js:94 | `[...new Set(xs)]` lists the elements in order of first occurrence in `xs` |
| Ordering.FilterMembers | repetitor-mvp/repetitor-mvp/backend/src/routes/user.routes.js:106 | a `where` keeps exactly the rows that satisfy it |
| Ordering.FirstIndex | repetitor-mvp/repetitor-mvp/backend/src/routes/parent.routes.js:216-221 | `findFirst` (without `orderBy`, with table order standing for the store's order) returns the first row in table order that matches, or none exactly when no row matches |

## Left out

- Prompt wording: the fixed and per-subject prompt texts are represented by tags (`SubjectGuide`, `AgeBand`, `Format`), not by their Russian text.
- The language-model provider is a function parameter. Its network call, its model name and `max_tokens` are not modelled.
- Concurrency: every request runs alone against the store. Two concurrent turns that both pass the pre-check are not modelled; a single turn's overshoot is (`AiService.CommitOvershootsCap`).
- Floating point: confidence is an integer number of tenths.
- AiService.QuotaReport: the percentage is the exact quotient rounded half up, computed on integers; the source rounds the floating-point product `used / limit * 100`, which falls just below a half at some exact halves (7250 of 50000 gives 14 in the source and 15 here; so do 14250 of 50000 and 57000 of 200000, 28 against 29).
- `parseInt` is modelled for decimal text with an optional sign and leading whitespace; hexadecimal prefixes and other radices are not modelled.
- `toLowerCase` is modelled for ASCII letters, the basic Cyrillic alphabet and Ё; other scripts are left unchanged.
- String lengths count characters; JavaScript's UTF-16 code units differ only outside the Basic Multilingual Plane.
- `isUUID` checks the 8-4-4-4-12 hexadecimal shape only, not the version digit.
- Dates: the 30-day windows and the retention cutoff are `30 · MsPerDay` (and `days · MsPerDay`) before now; `setDate` in local time across a daylight-saving change is not modelled. The ISO date of a usage row is its day number since the epoch.
- The `/usage` daily list is produced in order of first appearance in the window, as `Object.entries` does for non-numeric keys; the day is a number rather than an ISO string.
- `grade` in the chat body is read through its decimal text; non-string body fields are treated as absent.
- Plan caps: the model's cap type is positive, so the division in the percentage is always defined; a zero cap, which no plan has, is not modelled.
- Store failures are inputs: a flag (such as the throwing quota lookup of `/usage`), the index of the throwing step, or, for a chat turn, the step whose store access throws (`StoreFault`). The store's own errors, timeouts and retries are not modelled.
- AiService.Chat: one (year, month) serves the pre-check, the usage commit and the re-check; the source reads the clock separately in each (`ai.service.js` lines 38 and 86), so a turn that crosses a month boundary can check one month's row and commit to the next one's. The reads and the create inside one lookup throw as one step.
- UserRoutes.DeleteAccount: the schema's foreign-key actions are not part of this model (the source says only that most tables cascade); the final user delete removes the user row alone, so links in which the user is the child stay, whereas a cascading action would remove them and a restricting one would roll the transaction back to a 500.
- Ordering.FirstIndex: table order stands for the store's order. A `findFirst` without `orderBy` (`parent.routes.js` lines 57 and 215, `user.routes.js` line 172) may return any matching row, so which parent's pending link a consent acts on and which link `/privacy-status` reports are modelled as the first in table order.
- UserRoutes.DeleteAccount: the outcome of a throwing step is decided once, up front, from `failAt` and whether the user row exists; the transaction's copy of the tables is then built and committed. The rollback makes this the same observable result as running each step and aborting.
- DataRetention.RunDataRetentionJob: `RETENTION_DAYS` is read once at module load; the model takes it as a parameter (`RetentionDays` gives its value from the setting). The job reads the clock twice (data-retention.job.js:12 and :44); the model takes one `now` for both cutoffs, and computes them in UTC milliseconds where the source moves the calendar day in local time.
- Console logging (start-up errors, warnings, development-mode errors, the retention log lines) is left out. `process.exit(1)` on missing variables is the `Failure` result.
- `GET /export-data` reads every table and writes nothing; it is not modelled.
- `GET /subjects` returns a constant list; it is not modelled.
- The `include: { parent: … }` joins of the parent routes are not modelled; requests carry the link's ids instead of the parent's name and e-mail.
- The newer backend's own `services/ai.service.js` is not part of this model; both route files are modelled against the service in `repetitor-mvp`.
- The newer backend's `GET /history/:subject` (`backend/src/routes/ai.routes.js:103-138`) is the same code as the older one and is covered by `LegacyAiRoutes.History`.
- Authentication middleware is not modelled: the caller's id and role are inputs.
