# Campus Crush, modelled in Dafny

Campus Crush is an anonymous rating app for college students. Verified students of one college
browse profiles of the opposite gender and rate them from 1 to 10. Rater identities are stored
only as salted hashes. A weekly leaderboard ranks each college's best-rated students. The server
is an Express application over PostgreSQL; the client is written in React.

This project models the logic of that system that can be stated exactly, and proves properties
of the model. It covers:

- the storage layer: discovery filters, duplicate-rating prevention, rating statistics,
  leaderboard computation and lookup, the per-action rate-limit counter, profile updates,
  appeals and feedback;
- the decision rules of the HTTP routes, and the zod input schemas with their column defaults;
- the in-memory TTL cache and its key generators;
- the monitoring service's two capped logs and its windowed statistics;
- the client's registration and onboarding wizards, the leaderboard view, the rating dialog and
  the feedback dialog.

Modules, one per source file or component:

- `Wrappers`: `Option` and `Result`.
- `Seqs`: order-preserving filter, `LIMIT`, and a stable insertion sort that stands for
  `ORDER BY` and for JavaScript's stable `sort`.
- `Text`: JavaScript `trim`, `endsWith`, `includes`, ASCII lower-casing, string order, `parseInt`.
- `Json`: request bodies, property access and truthiness.
- `Schema`, `Storage`, `Routes`, `Cache`, `Monitoring`: the server.
- `Gauge`: the row of marks shared by the wizard progress bars and the feedback stars.
- `Registration`, `Onboarding`, `LeaderboardView`, `RatingView`, `FeedbackDialogView`: the client.

Where the source mutates state, the model does too:

- the cache (`Cache.SimpleCache`), the monitoring service (`Monitoring.MonitoringService`) and the
  database (`Storage.Database`) are classes whose methods update their fields;
- so are the wizards and dialogs, whose React state becomes fields.

Every such method is tied to a pure function of the old state, and the properties are proved
about those functions. Read-only queries and route decisions are pure functions.

Some things outside the logic become parameters or abstractions:

- the clock becomes a `now` parameter, in milliseconds;
- SHA-256 is the injective constructor `Schema.Sha256`;
- the `RATING_SALT` environment variable becomes an `Option<string>` parameter;
- database-generated uuids come from a `nextId` counter;
- request `ip` and `user-agent` headers, and the client's `isSubmitting` flag and
  `navigator.userAgent`, are parameters.

Further modelling choices:

- SQL `NULL`: comparisons with it never hold, and `ORDER BY ... DESC` puts it first.
- A negative `LIMIT` makes the query fail, whatever the rows.
- `averageScore` is stored as an integer number of hundredths.

## Model

| member | source | states |
|---|---|---|
| Cache.Lookup | server/cache.ts:10-20 | a value is served iff its key is present and its expiry is not before `now` (still served at the expiry instant), and it is the stored value |
| Cache.AfterGet | server/cache.ts:14-17 | a read removes the key exactly when its entry has expired; every other key and every kept value is unchanged |
| Cache.Swept | server/cache.ts:31-38 | the sweep keeps exactly the unexpired entries, with their values |
| Cache.SimpleCache.constructor | server/cache.ts:3 | the cache starts empty |
| Cache.SimpleCache.Set | server/cache.ts:5-8 | stores the value under the key with expiry `now + ttl`, default ttl 300000 ms; nothing else changes |
| Cache.SimpleCache.Get | server/cache.ts:10-20 | returns the lookup of the old map and leaves the map as the lazy eviction leaves it |
| Cache.SimpleCache.Delete | server/cache.ts:22-24 | removes exactly that key |
| Cache.SimpleCache.Clear | server/cache.ts:26-28 | leaves the cache empty |
| Cache.SimpleCache.Cleanup | server/cache.ts:31-38 | the loop over a snapshot of the entries leaves exactly the swept map |
| Cache.SetThenGet | server/cache.ts:5-19 | after a set at time t, a get at any time up to t + ttl returns the value |
| Cache.SetThenGetAfterExpiry | server/cache.ts:14-17 | after the expiry instant a get misses and deletes the key, leaving the rest of the map |
| Cache.OtherKeysUntouched | server/cache.ts:7-24 | set, delete and an evicting get leave every other key's presence and entry unchanged |
| Cache.SweepPreservesLookup | server/cache.ts:31-38 | the sweep never changes what a get at the same instant returns |
| Cache.SweepIdempotent | server/cache.ts:31-38 | sweeping twice at the same instant equals sweeping once |
| Cache.ClearedMisses | server/cache.ts:26-28 | after a clear every get misses |
| Cache.UserKey | server/cache.ts:45 | the key is "user:" followed by the id |
| Cache.LeaderboardKey | server/cache.ts:47 | the key is "leaderboard:", the college id, ':' and the period |
| Cache.KeyFamiliesDisjoint | server/cache.ts:44-48 | user, colleges and leaderboard keys never collide |
| Cache.UserKeyInjective | server/cache.ts:45 | distinct user ids give distinct keys |
| Cache.LeaderboardKeyInjective | server/cache.ts:47 | for college ids without ':' distinct (college, period) pairs give distinct keys |
| Cache.LeaderboardKeyCollision | server/cache.ts:47 | with a ':' inside the college id two different pairs give the same key |
| Monitoring.Latest | server/monitoring.ts:88-100 | the capped log is the last min(cap, n) entries of everything ever added, in insertion order |
| Monitoring.PushShiftKeepsLatest | server/monitoring.ts:89-91 | push then shift-when-over-cap keeps the log equal to the latest entries |
| Monitoring.MonitoringService.constructor | server/monitoring.ts:23-26 | both logs and their histories start empty |
| Monitoring.MonitoringService.AddMetric | server/monitoring.ts:88-93 | the metrics log holds at most 1000 entries, is the latest of its history and ends with the new metric; the error log is unchanged |
| Monitoring.MonitoringService.AddError | server/monitoring.ts:95-100 | the error log holds at most 500 entries, is the latest of its history and ends with the new error; the metrics log is unchanged |
| Monitoring.MonitoringService.GetEndpointStats | server/monitoring.ts:149-176 | the map-building loop returns exactly the endpoint report of the logged metrics |
| Monitoring.Recent | server/monitoring.ts:105-107 | the window is exactly the logged metrics newer than one hour |
| Monitoring.PerformanceStats | server/monitoring.ts:103-131 | total equals the window size; error and slow counts are at most the total; an empty window gives all zeros |
| Monitoring.StaleMetricIgnored | server/monitoring.ts:107 | a metric outside the window changes no statistic |
| Monitoring.FreshMetricCounted | server/monitoring.ts:118-122 | a metric inside the window adds one request, one error iff its status is at least 400, one slow request iff it took over 1000 ms |
| Monitoring.RecentErrors | server/monitoring.ts:134-146 | the result has as many entries as `slice(-limit)` keeps |
| Monitoring.RecentErrorsNewestFirst | server/monitoring.ts:134-146 | for a limit of at least 1 the result is the last min(limit, n) errors, newest first; the default limit is 10 |
| Monitoring.RecentErrorsZeroLimit | server/monitoring.ts:136 | `slice(-0)` keeps the whole log, so a limit of 0 returns every error, newest first |
| Monitoring.Grouped | server/monitoring.ts:156-167 | every endpoint row has at least one request and no more errors than requests |
| Monitoring.GroupedKeys | server/monitoring.ts:157-166 | the rows' keys are exactly the "method endpoint" keys seen |
| Monitoring.GroupedDistinct | server/monitoring.ts:157-166 | no two rows share a key |
| Monitoring.GroupedTotal | server/monitoring.ts:160 | the request counts sum to the number of metrics grouped |
| Monitoring.EndpointReportProperties | server/monitoring.ts:149-176 | one row per distinct key of the window, counts summing to the window size, errors at most requests, sorted by request count descending |
| Storage.Salt | server/storage.ts:72-75 | the salt is `RATING_SALT` when it is set and non-empty, otherwise the built-in default |
| Storage.HashRaterIdInjective | server/storage.ts:72-75 | distinct raters get distinct hashes under the same salt |
| Storage.HashRaterIdSalted | server/storage.ts:72-75 | the stored hash is never the unsalted hash of the raw rater id |
| Storage.FindUser | server/storage.ts:151 | the row found has the id asked for; none is found iff no row has it |
| Storage.OppositeGender | server/storage.ts:154-158 | male gives female, female gives male, anything else gives nothing |
| Storage.OppositeGenderInvolutive | server/storage.ts:154-158 | the opposite of the opposite is the original gender, and differs from it |
| Storage.Candidates | server/storage.ts:150-176 | a user is a candidate iff the requester exists with a match gender and the user shares the college, has that gender, is verified and is someone else |
| Storage.CandidatesFiltered | server/storage.ts:161-173 | every candidate shares the requester's college, has the opposite gender, is verified and is not the requester |
| Storage.NoCandidatesWithoutMatch | server/storage.ts:151-158 | an unknown requester, or one of gender other or none, gets no candidates |
| Storage.RandomProfiles | server/storage.ts:150-176 | an unknown requester or one without a match gender gets no profiles; otherwise a negative limit fails and any other limit gives a prefix of the candidates of length min(limit, candidates), all of them when they fit; default limit 10 |
| Storage.Matching | server/storage.ts:194-204 | exactly the candidates whose first, last or display name contains the query, ignoring case |
| Storage.SearchProfiles | server/storage.ts:179-210 | returns min(limit, matches) matching candidates, all of them when they fit, default limit 20; a negative limit fails exactly for a known requester with a match gender |
| Storage.NameLeIsTotalPreorder | server/storage.ts:206 | ordering by first name then last name, NULLs last, is total and transitive |
| Storage.SearchProfilesSorted | server/storage.ts:206-207 | the results are ordered by first name, then last name |
| Storage.SearchProfilesTop | server/storage.ts:206-207 | the results are the first matches in name order: no match left out comes before one kept |
| Storage.CheckDuplicateRating | server/storage.ts:245-258 | true iff a rating with this rater's salted hash for this target exists |
| Storage.OtherRaterNotDuplicate | server/storage.ts:245-258 | another rater's rating never makes a rating a duplicate |
| Storage.RatingsFor | server/storage.ts:270-276 | exactly the ratings targeting the user |
| Storage.ScoreSumBounds | server/storage.ts:270-276 | with scores in 1..10 the sum lies between the count and ten times the count |
| Storage.AverageAsWritten | server/storage.ts:273 | the `numeric(3,2)` cast succeeds only for means that round to at most 9.99, and then yields the rounded mean; it fails with a numeric overflow otherwise |
| Storage.AverageBelowCapSucceeds | server/storage.ts:273 | every non-negative mean below 9.995 passes the cast and yields the rounded mean |
| Storage.PerfectTenOverflows | server/storage.ts:273 | a single rating of 10 overflows the cast |
| Storage.HighAverageOverflows | server/storage.ts:273 | every mean of at least 9.995 overflows the cast |
| Storage.Average | server/storage.ts:273 | the stored mean is the score mean rounded half-up to hundredths |
| Storage.AverageBounds | server/storage.ts:273 | with scores in 1..10 the stored mean lies in 1.00..10.00 |
| Storage.StatsApplied | server/storage.ts:268-290 | only the target's row changes, and nothing changes when it has no ratings |
| Storage.WithStats | server/storage.ts:279-288 | the target's row takes the new count, mean and update time; every other row is unchanged |
| Storage.StatsCountRatings | server/storage.ts:268-290 | after the update the target's count is the number of ratings targeting them and the mean lies in 1.00..10.00 |
| Storage.StatsAsWritten | server/storage.ts:268-290 | the statistics update as written either fails with a numeric overflow or writes exactly the corrected statistics |
| Storage.StatsAsWrittenBelowCap | server/storage.ts:268-290 | with scores in 1..10 and a mean below 9.995 the update as written succeeds with the corrected statistics |
| Storage.FirstPerfectTenFails | server/storage.ts:268-290 | a user's first rating, when it is a 10, makes the update as written fail |
| Storage.EligibleUsers | server/storage.ts:340-347 | exactly the verified users of the college with at least five ratings |
| Storage.RankedEligible | server/storage.ts:334-349 | exactly the eligible users, as many as there are |
| Storage.TopUsers | server/storage.ts:334-349 | min(10, eligible) users, each eligible, and every eligible user when there are at most 10 |
| Storage.TopUsersAreTop | server/storage.ts:346-349 | the top users are in descending mean order and none left out ranks above one kept |
| Storage.LeaderboardRows | server/storage.ts:361-375 | one weekly row per top user with rank i + 1, that user's mean and count and the week's bounds; no rows when a user lacks a mean or count |
| Storage.KeptEntries | server/storage.ts:352-358 | the delete keeps exactly the rows that are not this college's weekly rows |
| Storage.LeaderboardRowsRanked | server/storage.ts:328-376 | at most 10 rows, ranks exactly 1..n, means descending, each for an eligible user |
| Storage.ComputeReplacesOnlyWeekly | server/storage.ts:352-375 | recomputing replaces this college's weekly rows and keeps every other row |
| Storage.PeriodRankLeIsTotalPreorder | server/storage.ts:307 | ordering by period start descending, then rank, is total and transitive |
| Storage.SelectedEntries | server/storage.ts:302-306 | exactly the rows of the college and period asked for |
| Storage.LatestEntries | server/storage.ts:298-308 | min(10, selected) rows, all of the college and period asked for, and every selected row when there are at most 10 |
| Storage.LatestEntriesSorted | server/storage.ts:307-308 | the rows are ordered by period start descending, then rank |
| Storage.LatestEntriesTop | server/storage.ts:307-308 | the rows are the first in that order: no selected row left out comes before one kept |
| Storage.GetLeaderboard | server/storage.ts:293-326 | each entry is joined to the user with its user id, or to none exactly when no such user exists |
| Storage.CheckRateLimit | server/storage.ts:399-416 | blocks iff the (user, action) pair has an unexpired row with a count of at least 10 |
| Storage.Recorded | server/storage.ts:418-439 | records the pair and leaves every other pair's row unchanged |
| Storage.FirstActionRecorded | server/storage.ts:422-431 | a first action creates count 1 expiring a minute later, which does not block |
| Storage.LaterActionCounted | server/storage.ts:432-437 | a later action adds one to the count and refreshes the expiry, never resetting the count |
| Storage.TenthActionBlocks | server/storage.ts:403-437 | from the tenth action on, the pair is blocked until the expiry |
| Storage.BelowThresholdAllows | server/storage.ts:403-437 | a count below 9 stays unblocked after one more action, at any time |
| Storage.ExpiredRowAllows | server/storage.ts:403-415 | an expired row never blocks |
| Storage.RecordedAsWritten | server/storage.ts:418-439 | the upsert fails exactly when no unique constraint is its conflict target (user, action); otherwise it records the action |
| Storage.RecordActionAlwaysFails | shared/schema.ts:123-135 | with the table's only unique key, the primary key, every `recordAction` fails |
| Storage.EmptyLimitsNeverBlock | server/storage.ts:399-416 | with no rate-limit rows the check never blocks |
| Storage.BlockedAgainAfterExpiry | server/storage.ts:403-437 | a count of 9 or more blocks again at once after one more action, even after its expiry |
| Storage.Patched | server/storage.ts:105-112 | a profile update sets exactly the given columns and the update time |
| Storage.ApplyPatch | server/storage.ts:105-112 | only the row with that id is patched |
| Storage.PatchedRowReturned | server/storage.ts:105-112 | `returning()` yields the patched row, and yields one iff the user exists |
| Storage.AppealRow | server/storage.ts:379-388 | the new appeal is pending and unreviewed, with the given reason and description |
| Storage.FeedbackRow | server/storage.ts:442-451 | the new feedback is open, of medium priority, with the given fields; a non-integral rating fails the integer column |
| Storage.Database.constructor | shared/schema.ts:37-177 | all tables but users start empty |
| Storage.Database.UpdateUserStats | server/storage.ts:268-290 | users become the statistics-applied table; nothing else changes |
| Storage.RatingRefusal | server/storage.ts:219-238 | a duplicate is refused first, then a non-integral score, then a missing target, and the row goes in iff none applies |
| Storage.Database.CreateRating | server/storage.ts:213-243 | a duplicate, a non-integral score or a missing target fails and changes nothing; success appends one row with the salted hash and updates the target's statistics |
| Storage.Database.CreateRatingAsWritten | server/storage.ts:213-243 | a refused rating changes nothing; otherwise the row is appended, and when the mean overflows the call fails with the row kept and the statistics untouched |
| Storage.Database.UpdateUserStatsAsWritten | server/storage.ts:268-290 | the update as written either stores exactly the corrected statistics or fails with a numeric overflow leaving users unchanged; nothing else changes |
| Storage.Database.InsertRating | server/storage.ts:230-238 | appends exactly one rating row with a fresh id |
| Storage.Database.ComputeLeaderboard | server/storage.ts:328-376 | the board becomes the kept rows plus the new weekly rows; it fails with a NOT NULL violation after the delete when a top user lacks a mean |
| Storage.Database.RecordAction | server/storage.ts:418-439 | the rate-limit table becomes the recorded one; nothing else changes |
| Storage.Database.UpdateUserProfile | server/storage.ts:105-112 | users become the patched table and the patched row is returned |
| Storage.Database.CreateAppeal | server/storage.ts:379-388 | an unknown user fails and changes nothing; otherwise exactly the appeal row is appended |
| Storage.Database.CreateFeedback | server/storage.ts:442-451 | an unknown user or a non-integral rating fails and changes nothing; otherwise exactly the feedback row is appended |
| Storage.KeptIdsFresh | server/storage.ts:352-358 | ids stay below the id counter after the delete |
| Storage.RowsIdsFresh | server/storage.ts:361-375 | ids stay below the counter after the insert |
| Schema.NonEmptyText | server/routes.ts:92-93 | a text value is kept exactly when it is a non-empty string, the reading of `displayName \|\| undefined` and of `z.string().min(1)` |
| Routes.ProfileSetup | server/routes.ts:79-96 | 400 when the college id is not a non-empty string or the gender is not male, female or other; otherwise a verified, stamped patch of exactly the given fields |
| Routes.EmptyDisplayFieldsUnset | server/routes.ts:92-93 | an empty display name or bio is left unset |
| Routes.SetupVerifies | server/routes.ts:89-96 | after setup the user is verified with the new college and gender, and the rating statistics are kept |
| Routes.SetupOutcome | server/routes.ts:98-101 | a successful update answers 200 with the row; a failure answers 500 "Failed to setup profile" |
| Routes.RandomLimit | server/routes.ts:120 | the parsed limit, or 10 when it is missing, unparseable or 0, never 0 |
| Routes.RandomLimitPositive | server/routes.ts:120 | a positive decimal limit is used as given |
| Routes.RandomLimitZero | server/routes.ts:120 | "0" falls back to 10 |
| Routes.RandomLimitNegative | server/routes.ts:120 | a negative limit is passed through to the query |
| Routes.RandomProfilesRoute | server/routes.ts:117-134 | 400 iff the requester lacks a college or gender; 200 carries exactly the storage result; 500 iff the limit is negative and the requester has a match gender |
| Routes.OtherGenderSeesNobody | server/routes.ts:124-129 | a requester of gender other gets 200 with no profiles |
| Routes.IsOppositeGenderProperties | server/routes.ts:171-173 | the test is symmetric and irreflexive, fails whenever either side is other or unset, and agrees with the storage mapping |
| Routes.Metadata | server/routes.ts:180-192 | ip and device hashes exist iff those headers are non-empty, and the college is passed iff the requester has one |
| Routes.RatingRoute | server/routes.ts:137-193 | an invalid body, one with a college id that is not a uuid included, answers 400; the rating reaches storage iff every guard passes, with a score in 1..10 and the request's metadata |
| Routes.RatingGuardOrder | server/routes.ts:153-177 | self-rating 400, missing target 404, other college 403, same gender 403, in that order |
| Routes.SubmittedRaterExists | server/routes.ts:158-177 | a submitted rating has a known rater of the target's college and opposite gender, and is not a self-rating |
| Routes.RatingOutcome | server/routes.ts:195-198 | a stored rating answers 200; any storage failure, a duplicate included, answers 500 "Failed to submit rating" |
| Routes.LeaderboardRoute | server/routes.ts:203-219 | 400 iff the requester has no college; otherwise 200 with exactly the storage leaderboard of that college and the requested period, default weekly |
| Routes.ComputeRoute | server/routes.ts:223-232 | 400 "User not found" iff the requester has no college; otherwise compute for that college |
| Routes.ComputeOutcome | server/routes.ts:233-236 | success answers 200, failure 500 |
| Schema.DefaultsDocumented | shared/schema.ts:49-53 | the default verification status and period type are documented values; counts default to 0 and 1 |
| Schema.NewUser | shared/schema.ts:37-63 | a new user is unverified with 0 ratings and no college, gender or mean |
| Schema.IsUuid | shared/schema.ts:79 | a uuid column accepts 36 characters: hexadecimal groups of 8, 4, 4, 4 and 12 joined by '-' |
| Schema.UuidExamples | shared/schema.ts:79 | a lower-case uuid passes the check and "not-a-uuid" does not |
| Schema.ParseRating | shared/schema.ts:257-266 | an accepted body is an object with a non-empty target id, a score in 1..10 and, in the current schema, a college id that is absent, null or a uuid |
| Schema.RatingRoundTrip | shared/schema.ts:257-266 | every valid rating input, uuid college id included, parses back from its encoding |
| Schema.RatingBoundsRejected | shared/schema.ts:264-265 | an empty target id or a score outside 1..10 is refused |
| Schema.RatingIgnoresOtherKeys | shared/schema.ts:257-262 | only the schema's keys matter; id, createdAt, raterIdHash, ipHash and deviceHash are not among them |
| Schema.RatingSchemasAgree | schema.ts:155-164 | the legacy schema accepts whatever the current one does; they agree on bodies without a status whose college id is not a non-uuid string; the current schema refuses a non-uuid college id |
| Schema.RatingSchemasDisagree | schema.ts:80 | a body with the college id "not-a-uuid" is accepted by the legacy varchar column's schema and refused by the current one |
| Schema.ParseAppeal | shared/schema.ts:269-278 | an accepted appeal has a uuid user id, a rating id absent, null or a uuid, a listed reason and a description of 10..500 characters |
| Schema.AppealNonUuidRejected | shared/schema.ts:109-110 | an appeal whose user id or rating id is a string that is not a uuid is refused |
| Schema.AppealRoundTrip | shared/schema.ts:269-278 | every valid appeal, uuid ids included, parses back from its encoding |
| Schema.AppealIgnoresOtherKeys | shared/schema.ts:269-275 | status, reviewedBy and reviewedAt cannot be set by the client |
| Schema.ParseFeedback | shared/schema.ts:280-294 | accepted feedback has a listed type, a 5..100 character title, a 10..1000 character description and a rating absent or in 1..5 |
| Schema.FeedbackRoundTrip | shared/schema.ts:280-294 | every valid feedback input parses back from its encoding |
| Schema.FeedbackNullRejected | shared/schema.ts:289-292 | a null rating or category is refused |
| Schema.FeedbackIgnoresOtherKeys | shared/schema.ts:280-287 | userId, status and priority cannot be set by the client |
| Text.TrimEmptyIff | client/src/components/FeedbackDialog.tsx:74 | a string trims to empty iff it is all whitespace |
| Text.ParseIntRoundTrip | server/routes.ts:120 | `parseInt` reads back every decimal numeral |
| Text.ParseIntNegativeRoundTrip | server/routes.ts:120 | `parseInt` reads back every negative numeral |
| Gauge.Marks | client/src/components/RegistrationFlow.tsx:141-146 | mark s of n is lit iff s is at most the level |
| Gauge.MarksShowLevel | client/src/components/RegistrationFlow.tsx:141-146 | the number of lit marks is the level clamped to 0..n |
| Registration.GenderChoicesMatchSchema | client/src/components/RegistrationFlow.tsx:253-256 | the wizard offers exactly the genders the server accepts |
| Registration.RegistrationFlow.constructor | client/src/components/RegistrationFlow.tsx:25-33 | the wizard opens at step 1 with an empty form |
| Registration.RegistrationFlow.Progress | client/src/components/RegistrationFlow.tsx:139-147 | four segments, segment s highlighted iff s is at most the step, so exactly `step` are lit |
| Registration.RegistrationFlow.Next | client/src/components/RegistrationFlow.tsx:87-125 | gates in order: college, details, email ending "@sggs.ac.in", gender; a blocked press keeps the step; only step 4 submits; the form never changes |
| Registration.RegistrationFlow.Back | client/src/components/RegistrationFlow.tsx:335-340 | goes back one step from above 1, keeping the form |
| Registration.RegistrationFlow.SelectCollege | client/src/components/RegistrationFlow.tsx:168 | sets only the college |
| Registration.RegistrationFlow.EditFirstName | client/src/components/RegistrationFlow.tsx:206 | sets only the first name |
| Registration.RegistrationFlow.EditDisplayName | client/src/components/RegistrationFlow.tsx:216 | sets only the display name |
| Registration.RegistrationFlow.EditEmail | client/src/components/RegistrationFlow.tsx:228 | sets only the email |
| Registration.RegistrationFlow.SelectGender | client/src/components/RegistrationFlow.tsx:253-256 | sets only the gender, to one of the offered values |
| Registration.RegistrationFlow.SetPhoto | client/src/components/RegistrationFlow.tsx:296-320 | sets or clears only the photo, which no gate requires |
| Onboarding.GenderChoicesMatchSchema | client/src/components/OnboardingFlow.tsx:159-162 | the wizard offers exactly the genders the server accepts |
| Onboarding.OnboardingFlow.constructor | client/src/components/OnboardingFlow.tsx:26-32 | the wizard opens at step 1 with an empty form |
| Onboarding.OnboardingFlow.Progress | client/src/components/OnboardingFlow.tsx:99-108 | three segments, segment s highlighted iff s is at most the step |
| Onboarding.OnboardingFlow.Next | client/src/components/OnboardingFlow.tsx:72-94 | college gate at step 1, gender gate at step 2, step 3 submits the form unconditionally; the form never changes |
| Onboarding.OnboardingFlow.Back | client/src/components/OnboardingFlow.tsx:226-231 | goes back one step from above 1, keeping the form |
| Onboarding.OnboardingFlow.SelectCollege | client/src/components/OnboardingFlow.tsx:128 | sets only the college |
| Onboarding.OnboardingFlow.SelectGender | client/src/components/OnboardingFlow.tsx:159-162 | sets only the gender |
| Onboarding.OnboardingFlow.EditDisplayName | client/src/components/OnboardingFlow.tsx:200 | sets only the display name |
| Onboarding.OnboardingFlow.EditBio | client/src/components/OnboardingFlow.tsx:212 | sets only the bio |
| LeaderboardView.PodiumThenListIsTopTen | client/src/components/Leaderboard.tsx:17-18 | the podium then the list is the first min(10, n) entries, at most 3 then at most 7 |
| LeaderboardView.EmptyStateIffNothingShown | client/src/components/Leaderboard.tsx:153 | the empty state shows iff neither podium nor list has an entry |
| LeaderboardView.TooltipIffAbsent | client/src/components/Leaderboard.tsx:21-34 | the tooltip shows iff a user is logged in and no entry has their id |
| LeaderboardView.DisplayName | client/src/components/Leaderboard.tsx:23-26 | never empty: the display name if set, else the trimmed "first last" when it is non-empty, else "Anonymous" |
| LeaderboardView.BlankFullName | client/src/components/Leaderboard.tsx:25 | blank first and last names trim to empty |
| RatingView.ScoresAreOneToTen | client/src/components/RatingInterface.tsx:64 | the selectable scores are exactly 1..10 |
| RatingView.RatingInterface.constructor | client/src/components/RatingInterface.tsx:14-15 | no score is selected and the title uses the display-name fallback |
| RatingView.RatingInterface.PressScore | client/src/components/RatingInterface.tsx:64-77 | a press selects the score unless submitting |
| RatingView.RatingInterface.HandleSubmit | client/src/components/RatingInterface.tsx:17-21 | submits exactly the selected score, and nothing without a selection |
| RatingView.RatingInterface.PressSubmit | client/src/components/RatingInterface.tsx:86-90 | the button submits iff a score is selected and nothing is in flight; the score is a valid integer in 1..10 |
| RatingView.RatingInterface.PressClose | client/src/components/RatingInterface.tsx:28-32 | closing works iff nothing is in flight |
| FeedbackDialogView.TypeOptionsMatchSchema | client/src/components/FeedbackDialog.tsx:108-111 | the type selector offers exactly the types the schema accepts |
| FeedbackDialogView.Submission | client/src/components/FeedbackDialog.tsx:72-83 | nothing is sent iff the title or description is blank; otherwise the form as it is |
| FeedbackDialogView.Stars | client/src/components/FeedbackDialog.tsx:141-155 | five stars, star i filled iff i is at most the rating, so `rating` are filled |
| FeedbackDialogView.ServerRejectsOnlyShortText | client/src/components/FeedbackDialog.tsx:33-41 | a sent form passes the feedback schema iff its title has at least 5 and its description at least 10 characters |
| FeedbackDialogView.ShortTitleSentButRefused | client/src/components/FeedbackDialog.tsx:72-83 | a four-letter title is sent by the dialog and refused by the schema |
| FeedbackDialogView.FeedbackDialog.constructor | client/src/components/FeedbackDialog.tsx:22-28 | closed, with type improvement, empty texts and rating 5 |
| FeedbackDialogView.FeedbackDialog.SetOpen | client/src/components/FeedbackDialog.tsx:86 | opens or closes without touching the form |
| FeedbackDialogView.FeedbackDialog.SelectType | client/src/components/FeedbackDialog.tsx:100-111 | sets only the type |
| FeedbackDialogView.FeedbackDialog.EditTitle | client/src/components/FeedbackDialog.tsx:118-124 | sets only the title, at most 100 characters |
| FeedbackDialogView.FeedbackDialog.EditDescription | client/src/components/FeedbackDialog.tsx:129-136 | sets only the description, at most 1000 characters |
| FeedbackDialogView.FeedbackDialog.PressStar | client/src/components/FeedbackDialog.tsx:141-155 | sets only the rating, to 1..5 |
| FeedbackDialogView.FeedbackDialog.OnSuccess | client/src/components/FeedbackDialog.tsx:49-60 | closes the dialog and resets the form to its initial value |

## Left out

- Floating point and rounding: the monitoring averages and error rates are `Math.round` of floats, and the client uses `toFixed`. The model states integer counts and sums only. Stored means are exact hundredths rounded half-up.
- String lengths count code points, not UTF-16 units.
- The search's lower-casing is ASCII only.
- `%` and `_` inside a search query are matched as plain characters, not as LIKE wildcards.
- `ORDER BY RANDOM()` is modelled by table order, which is one admissible answer.
- Rows that tie in a sort keep table order; the database leaves their order unspecified.
- Database-generated uuids and timestamps come from a counter and the `now` parameter.
- The leaderboard's week start is `now` minus seven days in milliseconds; calendar and daylight-saving effects of `setDate` are not modelled.
- `saveProfileImage` writes to the file system and is not part of this model. The registration mutation's multipart upload, its toasts and its query invalidation are not modelled either.
- Timers, event callbacks and middleware are not modelled: the cache's `setInterval` sweep, `performanceMiddleware`, `errorMiddleware` and the express-rate-limit limiters.
- The colleges table and its foreign keys are not modelled. The appeals' rating foreign key is not modelled either.
- Users columns unused by the core, such as the profile image, verification method and hashes, are not modelled.
- `getUser`, `upsertUser`, `getAllColleges`, `getUserRatings` and `getUserAppeals` are plain reads or upserts; only `FindUser` (the `getUser` read) is modelled.
- Storage.Database.UpdateUserProfile: the patch covers only the columns the setup route writes.
- Routes.ProfileSetup: the setup route passes any truthy display name or bio through; the model keeps only non-empty strings, because the column is text.
- Routes.RandomLimit: `parseInt` is exact here; no 53-bit precision loss. A query parameter given twice, which Express passes as an array, is not modelled.
- Routes.RatingRoute: the 400 answer's zod error list is not modelled, only the message.
- Database connection errors do not appear; storage failures are the modelled ones: duplicate, integer cast, foreign key, NOT NULL, negative limit, and the numeric overflow and missing unique constraint below.
- Storage.NameLe: the name order compares code points, the C collation; a database with another collation may order names differently.
- Routes.RatingRoute: ids are uuid columns. The body's college id is checked for uuid form, but its target id is a plain non-empty string by the schema's override. A target id that is not a uuid makes the lookup throw, so the source answers 500 where the model answers 404. Likewise a college id that is not a uuid makes the setup update fail (500), which Routes.ProfileSetup does not refuse.
- Schema.IsUuid: the uuid form is the generic 8-4-4-4-12 hexadecimal one; version and variant digits, which some zod releases also check, are not modelled.
- The legacy schema.ts declares the users mean as `decimal(3,2)`, and the current shared/schema.ts declares it `real`. The model stores hundredths for both.
- The wizards' buttons are also disabled while their mutation is pending; this is not modelled.
- RatingView.RatingInterface.PressSubmit: `isSubmitting` is a parameter, because the parent component owns it.
- No route in server/routes.ts accepts the feedback dialog's `POST /api/feedback`. FeedbackDialogView.ServerRejectsOnlyShortText relates the dialog to the feedback schema instead.

## Findings

| source | as written | input that shows it | evidently intended | confidence | as-written member | corrected member |
|---|---|---|---|---|---|---|
| server/storage.ts:273 | `avg(score)::numeric(3,2)` holds at most 9.99, so `updateUserStats` fails for any mean that rounds to 10.00. The rating row is already inserted, and the route answers 500 "Failed to submit rating". | a user's first rating has score 10 (mean 10.00), or any set of ratings with mean at least 9.995 | store means up to 10.00, the top of the 1..10 scale | not executed | Storage.Database.CreateRatingAsWritten, Storage.AverageAsWritten (Storage.FirstPerfectTenFails, Storage.PerfectTenOverflows, Storage.HighAverageOverflows) | Storage.Database.CreateRating with Storage.Average (Storage.AverageBounds, Storage.StatsCountRatings) |
| server/storage.ts:432-437 | `onConflictDoUpdate` targets (user_id, action), but rate_limits has only a plain index on those columns and a unique key on `id` (shared/schema.ts:123-135). PostgreSQL refuses an ON CONFLICT without a matching unique constraint, so `recordAction` always fails. | any call of `recordAction` | one counter row per (user, action), created at 1 and incremented | not executed | Storage.RecordedAsWritten (Storage.RecordActionAlwaysFails) | Storage.Database.RecordAction with Storage.Recorded (Storage.TenthActionBlocks, Storage.BelowThresholdAllows) |
