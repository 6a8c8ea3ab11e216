# Dinan Film Network — the rules under the route handlers and pages

Dinan Film Network is a community platform for film makers: members keep
a profile (role, skills, interests), are matched with mentors or mentees,
connect with each other, apply to team projects, schedule mentorship
sessions, join discussion groups, trade on a marketplace and browse
funding, festivals and resources. Most of it is database plumbing; this
project models the rules underneath, with every table an in-memory
sequence held by a class and every page computation a pure function:

- `common.dfy` — the shared vocabulary (`Option`, the route outcome
  `Ok | Unauthorized | NotFound | BadRequest`, the `users` row, the
  profile lookup by identity subject) and order-preserving filtering.
- `text.dfy` — ASCII lower-casing, substring search, ECMAScript `trim`, and
  the comma-separated list format used for skills, interests and required
  roles: `split(',')`, `trim`, drop empty pieces; rendered with `join(', ')`.
- `matching.dfy` — compatibility scoring, clamping, and the ranking (an
  in-place insertion sort over an array, then the first ten).
- `analytics.dfy` — the reporting window and the achievement engine that
  inserts each badge type at most once.
- `applications.dfy`, `connections.dfy` — guarded inserts that keep one
  application per (project, applicant) and one connection per directed pair.
- `mentorship.dfy` — mentor/mentee slot choice, the session listing with
  `isMentor` and the participants' names, and the status changes the page offers.
- `groups.dfy` — group listing with category filter and membership flag,
  group creation with the creator as admin.
- `marketplace.dfy` — euro to cents conversion, active listings, the page's
  filter and price display.
- `profile.dfy`, `teams.dfy`, `integrations.dfy`, `resources.dfy` — the
  pages' form handling, labels, filters and empty states.

The identity subject of the signed-in member (`None` when nobody is signed
in), the clock and the counts the database would compute are parameters.

## Model

| member | source | states |
|---|---|---|
| Platform.FindFirst | src/app/api/matching/route.ts:15-19 | a row is found exactly when some row passes the condition; it is the first such row |
| Platform.FindByClerkId | src/app/api/matching/route.ts:15-19 | a profile is found exactly when some `users` row has the subject's clerk id, and it is such a row |
| Platform.CurrentProfile | src/app/api/matching/route.ts:9-23 | nobody signed in gives no profile; otherwise the lookup by subject |
| Platform.TextOrEmpty | src/app/profile/page.tsx:37 | a null text column fills the form field with the empty text, any other value as stored |
| Seqs.Filter | src/app/api/matching/route.ts:44-46 | the result keeps exactly the elements that pass, in order, and never grows |
| Seqs.FilterCounts | src/app/api/matching/route.ts:44-46 | each passing element is kept as often as it occurs in the input, and no other element is kept |
| Seqs.FilterIsSubsequence | src/app/resources/page.tsx:47-52 | filtering keeps the relative order of what it keeps |
| Seqs.FilterConcat | src/app/api/marketplace/route.ts:32 | filtering a concatenation is the concatenation of the filtered parts |
| Seqs.FilterKeepsAll | src/app/integrations/page.tsx:68-77 | a filter that rejects nothing returns its input unchanged |
| Seqs.FilterCongruent | src/app/marketplace/page.tsx:63-68 | filters that agree on every element agree on the result |
| Text.Lower | src/app/marketplace/page.tsx:65-66 | same length; every upper-case ASCII letter is mapped to its lower-case letter, nothing else changes |
| Text.ContainsEmpty | src/app/resources/page.tsx:49-50 | every text contains the empty search term |
| Text.Trim | src/app/profile/page.tsx:57 | `trim()`: never longer than its input; `TrimResult` states that no white space is left at either end and only white space is cut off |
| Text.TrimResult | src/app/profile/page.tsx:57 | the trimmed text is a slice of the input with no white space at either end, and everything cut off on either side is white space |
| Text.TrimFixedPoint | src/app/profile/page.tsx:57 | trimming a trimmed text changes nothing |
| Text.TrimAfterSpace | src/app/profile/page.tsx:57 | leading white space in front of a trimmed entry is removed by trim |
| CommaList.Split | src/app/profile/page.tsx:57 | `split(',')` yields at least one piece and no piece holds a comma |
| CommaList.JoinSplit | src/app/profile/page.tsx:57 | joining the pieces of a split with the separator gives the text back |
| CommaList.Parse | src/app/profile/page.tsx:57-58 | `split(',').map(trim).filter(s => s)`: no empty entry and at most one entry per piece; `ParseKeepsPieces`, `ParseClean`, `ParseKeepsOrder` and `ParseRender` state the rest |
| CommaList.Render | src/app/profile/page.tsx:39-40 | `list ? list.join(', ') : ''`: null or empty renders as the empty text, otherwise it starts with the first entry; `SplitRendered` and `ParseRender` state the rest |
| CommaList.SplitRendered | src/app/profile/page.tsx:39 | splitting a `join(', ')` rendering gives each entry with a leading space after the first |
| CommaList.ParseRender | src/app/profile/page.tsx:39-58 | for entries that are non-empty, trimmed and comma-free, parsing the rendering gives the list back |
| CommaList.ParseClean | src/app/profile/page.tsx:57-58 | no parsed entry is empty, has white space at an end or holds a comma |
| CommaList.ParseKeepsPieces | src/app/profile/page.tsx:57-58 | every non-empty trimmed piece is kept as often as it occurs, and nothing else is kept |
| CommaList.ParseKeepsOrder | src/app/profile/page.tsx:57-58 | parsed entries keep the order of the pieces they come from |
| CommaList.ParseIdempotent | src/app/profile/page.tsx:39-58 | rendering a parsed list and parsing again gives the same list |
| CommaList.ParseEmpty | src/app/profile/page.tsx:57-58 | parsing an empty or blank text gives the empty list |
| Matching.OppositeRole | src/app/api/matching/route.ts:28 | a mentor is matched against mentees, any other role against mentors |
| Matching.Compatibility | src/app/api/matching/route.ts:35-68 | the accumulated score is min(role bonus + 10 × shared interests + 5 × complementary skills, 100), in [0,100] |
| Matching.SharedIsFilter | src/app/api/matching/route.ts:43-47 | the length of `filter(includes)` is the number of requester interests the candidate has, duplicates counted |
| Matching.MissingIsFilter | src/app/api/matching/route.ts:51-55 | the length of `filter(!includes)` is the number of requester skills the candidate lacks |
| Matching.SharedPlusMissing | src/app/api/matching/route.ts:43-56 | shared and missing entries together are the whole requester list |
| Matching.SharedIsIntersection | src/app/api/matching/route.ts:43-47 | for a duplicate-free list the shared count is the size of the set intersection |
| Matching.MissingIsDifference | src/app/api/matching/route.ts:51-55 | for a duplicate-free list the missing count is the size of the set difference |
| Matching.RoleBonusIff | src/app/api/matching/route.ts:28-40 | +50 exactly when the candidate's role is `mentee` for a mentor requester and `mentor` for any other role |
| Matching.SameRoleNoBonus | src/app/api/matching/route.ts:28-40 | members with the same role get no role bonus from each other |
| Matching.OppositeRolesOnly | src/app/api/matching/route.ts:35-68 | opposite roles with nothing shared and nothing complementary score exactly 50 |
| Matching.NullListsScoreNothing | src/app/api/matching/route.ts:43-56 | a null interest list on either side adds no interest points, a null skill list on either side adds no skill points, and with both null only the role bonus is left |
| Matching.Candidates | src/app/api/matching/route.ts:29-32 | every member except the requester, and only them |
| Matching.ScoreAll | src/app/api/matching/route.ts:35-69 | every candidate paired with its own score, in table order |
| Matching.InsertIntoPrefix | src/app/api/matching/route.ts:72-73 | one insertion step extends the sorted prefix and permutes the array |
| Matching.SortByCompatibility | src/app/api/matching/route.ts:72-73 | the array ends sorted by non-increasing score and is a permutation of its start |
| Matching.TopOfSorted | src/app/api/matching/route.ts:72-74 | the first k entries of a sorted permutation score at least as much as every entry left out |
| Matching.GetMatches | src/app/api/matching/route.ts:9-76 | 401 without subject, [] without profile; otherwise min(10, #candidates) entries, sorted, drawn from the scored candidates, the best ones, never the requester, each with its own score in [0,100] |
| Analytics.PeriodOrDefault | src/app/api/analytics/route.ts:15 | an absent or empty selector means `monthly`, any other is kept |
| Analytics.WindowDays | src/app/api/analytics/route.ts:34-46 | 7 days exactly for `weekly`, 365 exactly for `yearly`, 30 for anything else |
| Analytics.WindowStart | src/app/api/analytics/route.ts:34-46 | the window starts between 7 and 365 days before now |
| Analytics.WindowLengths | src/app/api/analytics/route.ts:15-46 | missing period is monthly; weekly/monthly/yearly are 7/30/365 days; the window start is now − days × 86 400 000 ms |
| Analytics.UnknownPeriodIsMonthly | src/app/api/analytics/route.ts:44-45 | any other period string gives the monthly window |
| Analytics.WindowsNest | src/app/api/analytics/route.ts:34-46 | the weekly window starts after the monthly one, which starts after the yearly one |
| Analytics.CountOrZero | src/app/api/analytics/route.ts:107-110 | a missing count row counts as 0, otherwise its count |
| Analytics.Earned | src/app/api/analytics/route.ts:138-176 | only the four badge types can be earned; `EarnedIff` gives each threshold |
| Analytics.EarnedIff | src/app/api/analytics/route.ts:138-176 | each type is earned exactly when its threshold is crossed (project views > 0, sessions ≥ 5, connections ≥ 10, profile views ≥ 50) |
| Analytics.EarnedMonotone | src/app/api/analytics/route.ts:130-177 | larger counters never earn fewer types |
| Analytics.TypeList | src/app/api/analytics/route.ts:131-136 | the listed types are exactly the member's existing types |
| Analytics.RecordsOf | src/app/api/analytics/route.ts:87-91 | the member's records and only them |
| Analytics.NewRecords | src/app/api/analytics/route.ts:138-176 | at most four records, all for the member at the current instant, none of a type already held |
| Analytics.NewRecordsTypes | src/app/api/analytics/route.ts:138-176 | one run appends at most four records, all for the member, whose types are the earned types not already held |
| Analytics.NewRecordsDistinct | src/app/api/analytics/route.ts:138-176 | one run adds each type at most once |
| Analytics.AwardTypes | src/app/api/analytics/route.ts:130-177 | after a run the member's type set is the old set ∪ the earned types |
| Analytics.AwardIdempotent | src/app/api/analytics/route.ts:130-177 | a second run with the same counters inserts nothing |
| Analytics.AwardKeepsAtMostOne | src/app/api/analytics/route.ts:130-177 | a run keeps at most one record per member and type |
| Analytics.FirstProjectScenario | src/app/api/analytics/route.ts:139-146 | one project view and no badge gives exactly `Premier projet` |
| Analytics.AllThresholdsScenario | src/app/api/analytics/route.ts:138-176 | all thresholds and no badge give the four types in source order |
| Analytics.AchievementStore.CheckAndAward | src/app/api/analytics/route.ts:130-177 | appends the new records after the old ones; the type set grows by the earned types; one-per-type is preserved |
| Analytics.AchievementStore.GetAnalytics | src/app/api/analytics/route.ts:7-128 | 401/404 change nothing; otherwise counters defaulted to 0, applications 0, achievements read before the award, and the award run |
| Applications.FindProject | src/app/api/team-applications/route.ts:29-33 | a project is found exactly when one has the id |
| Applications.FindApplication | src/app/api/team-applications/route.ts:44-53 | an application is found exactly when the (project, applicant) pair has one |
| Applications.StoredMessage | src/app/api/team-applications/route.ts:64 | an absent or empty message is stored as null, any other as given |
| Applications.AppendKeepsOnePerPair | src/app/api/team-applications/route.ts:44-66 | appending for a pair without an application keeps one application per pair |
| Applications.AppliedAfterAppend | src/app/api/team-applications/route.ts:44-57 | after an application is stored, the same pair is a duplicate |
| Applications.ApplicationTable.Apply | src/app/api/team-applications/route.ts:7-68 | 401, 404 no profile, 404 no project, 400 not recruiting, 400 duplicate, each with the table unchanged; otherwise exactly one pending row appended; one-per-pair preserved |
| Connections.FindConnection | src/app/api/connections/route.ts:31-40 | a row is found exactly when the directed pair has one |
| Connections.AppendKeepsOnePerDirectedPair | src/app/api/connections/route.ts:31-51 | appending for a new directed pair keeps one row per directed pair |
| Connections.ReverseRowIgnored | src/app/api/connections/route.ts:35-38 | a row b → a neither creates nor removes a duplicate of a → b |
| Connections.ConnectedAfterAppend | src/app/api/connections/route.ts:31-51 | once a → b is stored, asking again is a duplicate |
| Connections.ConnectionTable.Connect | src/app/api/connections/route.ts:7-53 | 401, 404, 400 on an existing directed pair with the table unchanged; otherwise one pending row (user, connected user) appended; uniqueness preserved |
| MentorshipRoute.Slots | src/app/api/mentorship/route.ts:85-86 | mentor → (user, other); mentee → (other, user); any other role → (other, other) |
| MentorshipRoute.RequesterTakesPart | src/app/api/mentorship/route.ts:85-86 | the requester occupies a slot iff their role is mentor or mentee or they named themselves |
| MentorshipRoute.NameOf | src/app/api/mentorship/route.ts:35-42 | the joined name of a member id: found exactly when some member has the id, and it is that member's name |
| MentorshipRoute.Enrich | src/app/api/mentorship/route.ts:27-52 | same sessions in the same order; `isMentor` iff mentorId is the viewer; `mentorName` and `menteeName` are the names of the mentor and of the mentee (the corrected join, see Findings) |
| MentorshipRoute.SessionsOf | src/app/api/mentorship/route.ts:43-46 | exactly the sessions in which the member is mentor or mentee, in table order |
| MentorshipRoute.NotMentorMeansMentee | src/app/api/mentorship/route.ts:43-52 | a listed session whose `isMentor` is false has the viewer as mentee |
| MentorshipRoute.SessionTable.List | src/app/api/mentorship/route.ts:7-54 | 401 without subject; [] without profile; otherwise the member's sessions enriched in table order, every session of the member once, with a correct `isMentor` and each participant's own name (the corrected join, see Findings) |
| MentorshipRoute.SessionTable.Schedule | src/app/api/mentorship/route.ts:61-96 | 401, 404 with the table unchanged; otherwise one pending session with the role-dependent slots appended |
| MentorshipRoute.ScheduledIsListed | src/app/api/mentorship/route.ts:85-94 | a session a mentor or mentee just scheduled is listed for them with `isMentor` matching their role |
| MentorshipRoute.Participants | src/app/api/mentorship/route.ts:39-42 | the members the join condition pairs with a session: exactly those whose id is its mentor or mentee id |
| MentorshipRoute.JoinedRows | src/app/api/mentorship/route.ts:27-46 | as written: one row per joined participant (one null-named row when none), with `mentorName` equal to `menteeName` on every row |
| MentorshipRoute.ListAsWritten | src/app/api/mentorship/route.ts:27-52 | as written: at least one row per session of the member, only sessions of the member |
| MentorshipPage.Counterpart | src/app/mentorship/page.tsx:157 | menteeName when the viewer is the mentor, mentorName otherwise, a null name shown as nothing |
| MentorshipPage.CounterpartIsOtherParticipant | src/app/mentorship/page.tsx:157 | with the corrected join, the title is the name of the mentee when the viewer is the mentor, otherwise of the mentor, the viewer then being the mentee; when the two participants differ it is never the viewer's own id |
| MentorshipPage.ViewerSeesOwnName | src/app/api/mentorship/route.ts:35-42 | with the join as written, a mentor Ann sharing a session with Bob sees it twice, the first card titled Ann; the corrected listing shows it once, titled Bob |
| MentorshipPage.OfferedStatuses | src/app/mentorship/page.tsx:165-188 | at most two buttons; `AcceptRefuseOffered`, `CompleteOffered` and `OffersFollowLifecycle` state which |
| MentorshipPage.AcceptRefuseOffered | src/app/mentorship/page.tsx:165-180 | confirm and cancel are offered iff the session is pending and the viewer is the mentor |
| MentorshipPage.CompleteOffered | src/app/mentorship/page.tsx:181-188 | completion is offered iff the session is confirmed, to either participant |
| MentorshipPage.NoneFromTerminal | src/app/mentorship/page.tsx:165-188 | nothing is offered from completed or cancelled; a mentee never confirms a pending session |
| MentorshipPage.OffersFollowLifecycle | src/app/mentorship/page.tsx:165-188 | every offered change is a lifecycle step, and each step is offered to those allowed to take it |
| Groups.CategoryOrAll | src/app/api/groups/route.ts:10 | a missing or empty category means `all` |
| Groups.InCategory | src/app/api/groups/route.ts:13-16 | `all` keeps every group; otherwise exactly the groups of that category, in order |
| Groups.Flag | src/app/api/groups/route.ts:49-54 | every group kept with its fields, flagged iff its id is in the set |
| Groups.ListGroups | src/app/api/groups/route.ts:7-71 | the category's groups in order, each flagged iff there is a profile and a membership row of that member for that group |
| Groups.AnonymousIsMemberOfNothing | src/app/api/groups/route.ts:35-64 | without a signed-in member or a profile no group is flagged |
| Groups.AllCategoriesListsEverything | src/app/api/groups/route.ts:10-16 | no category, empty or `all` lists every group in table order |
| Groups.AppendFreshId | src/app/api/groups/route.ts:97-104 | a group stored under the next id keeps group ids distinct |
| Groups.CreatorListedAsMember | src/app/api/groups/route.ts:106-111 | once the admin row is stored the creator is flagged a member of the group |
| Groups.GroupDirectory.Create | src/app/api/groups/route.ts:73-113 | 401, 404 change nothing; otherwise one group (memberCount 1, isPrivate default false, created by the member) and one admin row for it |
| MarketplaceRoute.ToCents | src/app/api/marketplace/route.ts:84 | absent or 0 is stored as null; otherwise price × 100, never 0 |
| MarketplaceRoute.ToCentsInjective | src/app/api/marketplace/route.ts:84 | distinct non-zero prices are stored as distinct amounts |
| MarketplaceRoute.ActiveListings | src/app/api/marketplace/route.ts:7-35 | exactly the active listings, in table order |
| MarketplaceRoute.ListingTable.Post | src/app/api/marketplace/route.ts:42-95 | 401, 404 change nothing; otherwise one listing, active, not featured, price in cents; it joins the active listing |
| MarketplacePage.FilteredListings | src/app/marketplace/page.tsx:63-68 | kept iff category matches, the lower-cased term occurs in title or description, and active; order kept |
| MarketplacePage.InitialFilterShowsActive | src/app/marketplace/page.tsx:63-68 | category `all` with an empty search shows exactly the active listings |
| MarketplacePage.SearchIgnoresCase | src/app/marketplace/page.tsx:65-66 | searching with a term or its lower-case form gives the same listings |
| MarketplacePage.Suffix | src/app/marketplace/page.tsx:79-88 | `€/heure` for hourly, `€/jour` for daily, `€` for anything else |
| MarketplacePage.DisplayPrice | src/app/marketplace/page.tsx:75-89 | negotiable iff the price is null or 0; otherwise the amount is cents / 100 |
| MarketplacePage.PriceRoundTrip | src/app/api/marketplace/route.ts:84 | a listing created with a non-zero integer price p displays p; none or 0 displays as negotiable |
| IntegrationsPage.FilteredFunding | src/app/integrations/page.tsx:68-72 | kept iff category is `all` or equal and region is `all` or equal; order kept |
| IntegrationsPage.FilteredFestivals | src/app/integrations/page.tsx:74-77 | kept iff region is `all` or the lower-cased location contains it; order kept |
| IntegrationsPage.NullFundingColumnsExcluded | src/app/integrations/page.tsx:69-70 | a null category or region never matches a selected value |
| IntegrationsPage.NullLocationExcluded | src/app/integrations/page.tsx:75 | a festival without location is shown iff the region is `all` |
| IntegrationsPage.FestivalsIgnoreCategory | src/app/integrations/page.tsx:74-77 | the category selection never changes the festival list |
| IntegrationsPage.AllAllKeepsEverything | src/app/integrations/page.tsx:68-77 | `all`/`all` keeps both lists whole |
| ResourcesPage.FilteredResources | src/app/resources/page.tsx:47-52 | kept iff category is `Tous` or equal and the term occurs case-insensitively in title or description; order kept |
| ResourcesPage.EmptyMessageIff | src/app/resources/page.tsx:105 | the message shows iff no resource passes the filter |
| ResourcesPage.InitialStateKeepsAll | src/app/resources/page.tsx:47-52 | `Tous` with an empty search keeps every resource in order |
| ProfilePage.RoleOrDefault | src/app/profile/page.tsx:38 | an absent or empty role shows as `mentee`, any other as stored |
| ProfilePage.InitialForm | src/app/profile/page.tsx:22-28 | the form starts with role `mentee` and every other field empty |
| ProfilePage.FormFromProfile | src/app/profile/page.tsx:36-42 | bio and experience as stored, null as empty text; lists rendered with `join(', ')`, null as empty text; role defaulted |
| ProfilePage.Submission | src/app/profile/page.tsx:49-59 | the skills and interests sent are the parsed text fields, so every entry is clean; the other fields are sent as typed |
| ProfilePage.ListRoundTrip | src/app/profile/page.tsx:39-58 | a clean stored list survives render then parse; null becomes empty |
| ProfilePage.UnchangedEditKeepsProfile | src/app/profile/page.tsx:36-59 | saving the editor unchanged sends the stored clean lists back, null as empty, the role defaulted |
| ProfilePage.InitialSubmission | src/app/profile/page.tsx:22-28 | submitting the initial form sends role `mentee` and empty lists |
| TeamsPage.ResetForm | src/app/teams/page.tsx:103-114 | projectType `court_metrage`, every other field empty |
| TeamsPage.DatePart | src/app/teams/page.tsx:124 | `split('T')[0]`: the prefix that holds no `T` and ends at the first `T` or at the end of the text |
| TeamsPage.DatePartOfTimestamp | src/app/teams/page.tsx:124 | the date part of `date` + `T` + `time` is `date` |
| TeamsPage.StartEdit | src/app/teams/page.tsx:116-129 | title and type kept, roles rendered with `join(', ')` (null as empty), deadline cut to its date part, null as empty |
| TeamsPage.Submit | src/app/teams/page.tsx:84-88 | an empty budget is null; the required roles sent are the parsed text field, clean and in order |
| TeamsPage.ResetSubmission | src/app/teams/page.tsx:103-114 | a reset form sends no budget and no roles |
| TeamsPage.UnchangedEditKeepsRoles | src/app/teams/page.tsx:87-126 | saving an unchanged edit sends the clean roles back, null as empty |
| TeamsPage.StatusLabel | src/app/teams/page.tsx:348-349 | `Recrute` iff recruiting, `En cours` iff in progress, `Terminé` iff anything else |
| TeamsPage.RolesSummary | src/app/teams/page.tsx:385-397 | no block for null or empty roles; otherwise the first min(3, n) roles and a `+N` badge iff n > 3, with chips + N = n |
| TeamsPage.EmptyStateOf | src/app/teams/page.tsx:483-505 | the empty state shows iff the active tab's list is empty; only the member's own tab offers to create a project |
| TeamsPage.EmptyStateIgnoresOtherTab | src/app/teams/page.tsx:483 | the empty state of a tab does not depend on the other tab's list |

## Findings

| source | as written | input that shows it | evidently intended | confidence | as-written member | corrected member |
|---|---|---|---|---|---|---|
| src/app/api/mentorship/route.ts:35-42 | `mentorName` and `menteeName` both select `users.name` of one row joined on mentor or mentee id, so a session comes back once per participant found | a session with mentor Ann (id 1) and mentee Bob (id 2), listed for Ann: two rows, one of them titled `Session avec Ann` | one row per session, `mentorName` from the mentor's row and `menteeName` from the mentee's, so the title names the other participant | high, not executed | MentorshipPage.ViewerSeesOwnName | MentorshipPage.CounterpartIsOtherParticipant |

## Left out

- HTTP transport, JSON bodies, response shapes and the 500 paths of the `catch` blocks: routes return an `Outcome` and their data.
- Authentication: the signed-in member's identity subject is a parameter (`None` when nobody is signed in).
- Database queries become scans of in-memory tables; `count(*)` rows are parameters of `Analytics.AchievementStore.GetAnalytics`; the creator and seller name joins, `orderBy` and column defaults such as creation instants are not modelled.
- MentorshipRoute.SessionTable.List: lists each session once with the mentor's and the mentee's own names, the corrected join; the join as written (`MentorshipRoute.ListAsWritten`, see Findings) is modelled beside it, and `MentorshipPage.Counterpart` titles the cards of the corrected listing.
- The six-month trend in the analytics route uses random numbers and locale dates; it is not modelled.
- Analytics.AchievementStore.GetAnalytics: the achievements are returned in table order, standing in for `orderBy(unlockedAt)`.
- Matching.GetMatches: states sorted, permutation-drawn and best-first, not the stability of `Array.prototype.sort` among equal scores.
- Non-integer euro prices and the text form of numbers (`price / 100` is a real amount in `MarketplacePage.DisplayPrice`, not a formatted string).
- `parseInt` of project ids, budgets and connected-user ids; `new Date` of deadlines and session instants; `toLocaleString` formatting. Ids are integers, the budget is passed on as the text handed to `parseInt`, and a deadline is taken as an ISO timestamp.
- `toLowerCase` is ASCII-only; `trim` uses the ECMAScript white-space set without Unicode normalisation.
- Concurrency: the check-then-insert races of the achievement, application and connection routes; calls are sequential.
- Request fields the rules do not read (subcategory, location, images, notes, descriptions of groups) are carried only where a rule touches them.
- The seed-data routes, thin CRUD routes and presentation-only pages (navigation, layout, dashboard, portfolio, groups page colours, analytics advice banners, matching page) are not part of this model.
