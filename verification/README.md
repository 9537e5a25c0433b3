# Community portal — a Dafny model of its data rules

The community portal lets citizens report civic issues (potholes, garbage, broken
street lights and so on): each report has a photo, a location, a type, a status, a
priority and a criticality. Users earn points and badges. Department administrators see
the issues of their own department. A small "corrected label" log records cases where
the image classifier's prediction was wrong. Around this the application has
notifications, a leaderboard, per-area analytics and a few client-side pages.

This project models that core in Dafny:

- **Document models** (`issue_model.dfy`, `user_model.dfy`, `notification_model.dfy`,
  `corrected_model.dfy`). Each model is a datatype plus the function Mongoose runs on
  `create`: it casts the fields, applies the schema defaults and validates `required`
  and `enum` paths. A validation failure is an `Err` result.
- **Route handlers** (`corrected_route.dfy`, `issue_collection.dfy`,
  `issue_queries.dfy`, `user_routes.dfy`, `notification_routes.dfy`,
  `user_analytics.dfy`). Each handler is a function or method returning a `Reply`: an
  HTTP status with either a value or an error message.
  - A collection that a handler changes is a class holding a `seq` of documents, with
    `modifies` on the handler. A query is a function of that sequence.
  - `find(filter).sort(...)` is a stable descending insertion sort over the matching
    documents. MongoDB leaves the order of equal keys open; the model fixes it to the
    stored order. `limit(n)` takes a prefix.
- **Client rules**, as pure functions or small classes:
  - `post_auth.dfy`: the redirect after sign-in;
  - `profile.dfy`: the badge;
  - `dashboard.dfy`: likes, search and filters;
  - `add_issue.dfy`: the three-image cap;
  - `my_issue.dfy`: the points share per issue;
  - `analytics_dashboard.dfy`: chart tallies, stat cards and the category table.
- **Shared pieces**:
  - `text.dfy` has the JavaScript string operations that are used: `trim`,
    ASCII `toLowerCase`, `replace(/\s+/g, "_")`, `startsWith`, `indexOf` and `includes`.
  - `seqs.dfy` has filter, count, stable sort, prefix and first-occurrence
    de-duplication (the key order of a JavaScript object built by insertion).
  - `wrappers.dfy` has `Option`, `Result`, JavaScript truthiness of an optional string,
    and the HTTP statuses.

Where the code and its design description differ, the model follows the code. Several
differences matter:

- The dashboard's status buttons offer `"in_progress"`, but the schema's value is
  `"inprogress"`.
- The first analytics effect tallies `issue.category`, a field issues never have.
- The my-issue page reads `{points, issues}`, but GET /api/my-issues answers with a
  bare array.
- The admin issues route imports a `models/Issue` module and filters on `department`.
  The model uses the Issue document of `models/Issues.js`, with `department` as an
  optional attribute that nothing writes.

Each of these is modelled as written.

## Model

| member | source | states |
|---|---|---|
| IssueModel.TypeNameRoundTrip | models/Issues.js:5-18 | parsing the name of an issue type gives that type back: the eight enum names and the type datatype are in one-to-one correspondence |
| IssueModel.CastIssue | models/Issues.js:3-52 | `Issue.create` succeeds exactly when issueType is a listed name, image and usermail are non-empty, latitude and longitude are given, and each given status/priority/criticality is a listed name; the created issue carries the given fields, with defaults "open", "low" and "Normal" for the missing enums |
| IssueModel.CastIgnoresOtherMembers | app/api/issues/route.js:11-31 | members of the request body other than the eight destructured ones do not affect the created issue |
| UserModel.RoleName | models/User.js:9-13 | every role maps to one of "user", "admin", "department" |
| UserModel.DepartmentName | models/User.js:15-19 | every department maps to one of the three department codes |
| UserModel.NewUser | models/User.js:3-23 | a user created from id, name and email gets role "user", no department and 0 points, and keeps the given fields |
| NotificationModel.NewNotification | models/Notification.js:3-13 | creation succeeds exactly when usermail and message are non-empty; a new notification is unread and carries the given fields |
| CorrectedModel.NewCorrected | models/Corrected.js:3-21 | creation succeeds exactly when image is non-empty and both labels are non-empty after trimming; the stored labels are the trimmed ones |
| CorrectedRoute.NormalizeLabel | app/api/corrected/route.js:5-8 | a missing or empty label becomes ""; a normalised label has no white space and no upper-case letter (what it keeps is NormalizeLabelKeepsContent) |
| CorrectedRoute.NormalizeLabelKeepsContent | app/api/corrected/route.js:5-8 | a given label keeps every character of its trimmed, lower-cased form other than white space and `_`, in order; a label without inner white space becomes exactly its trimmed, lower-cased form |
| CorrectedRoute.NormalizeLabelIgnoresCaseAndPadding | app/api/corrected/route.js:5-8 | labels that differ only in letter case or in the white space around them normalise alike |
| CorrectedRoute.NormalizeLabelIdempotent | app/api/corrected/route.js:5-8 | normalising a normalised label changes nothing |
| CorrectedRoute.ExtractBase64 | app/api/corrected/route.js:11-19 | a missing value gives ""; a trimmed data URL that contains a comma gives exactly what follows its first comma; anything else gives the trimmed value |
| CorrectedRoute.AppendKeepsAllValid | models/Corrected.js:3-21 | appending a valid record with the next id keeps every stored record valid, with ids below the counter |
| CorrectedRoute.CorrectedStore.Post | app/api/corrected/route.js:21-57 | 400 "Missing fields" when a field is falsy; 400 "Prediction matches actual, not saving." when the normalised labels are equal; otherwise one valid record is appended (201) exactly when the record passes validation, else 500 with the store unchanged |
| CorrectedRoute.ListNewestFirst | app/api/corrected/route.js:59-63 | GET lists every record once, newest first |
| IssueCollection.FindIndex | app/api/update-issue/route.js:28-30 | the lookup finds the first issue with that id, or reports -1 exactly when there is none |
| IssueCollection.FindIndexOfUnique | app/api/update-issue/route.js:28-30 | with unique ids, looking up the id at position k finds k |
| IssueCollection.PatchIssue | app/api/update-issue/route.js:20-26 | the update writes description when given and location.landmark when given; every other field is unchanged |
| IssueCollection.UpdateById | app/api/update-issue/route.js:28-30 | only the issue with that id changes, by the patch; every issue keeps its id |
| IssueCollection.UpdateByIdIdempotent | app/api/update-issue/route.js:28-30 | sending the same update twice gives the same store as sending it once |
| IssueCollection.DeleteById | app/api/delete-issue/route.js:18 | deleting removes the issue found by id, and only it; an unknown id leaves the store alone |
| IssueCollection.DeleteRemovesExactlyOne | app/api/delete-issue/route.js:18-25 | deleting an existing id removes exactly one issue (by multiset), keeps ids unique and leaves no issue with that id |
| IssueCollection.IssueStore.Create | app/api/issues/route.js:6-44 | a body that passes validation is appended with a fresh id and answered 201; otherwise 500 with the store unchanged |
| IssueCollection.IssueStore.Update | app/api/update-issue/route.js:6-46 | 400 without an id; 404 when no issue has it; otherwise 200 with the patched issue, and the store is the update of the old one |
| IssueCollection.IssueStore.Delete | app/api/delete-issue/route.js:6-37 | 400 without an id; 404 when no issue has it; otherwise 200, and the store is the old one without that issue |
| IssueCollection.DeleteTwice | app/api/delete-issue/route.js:18-25 | deleting an existing issue twice answers 200 then 404 |
| IssueQueries.NewestFirst | app/api/issues/route.js:50 | the sort keeps exactly the same issues and orders them by descending creation time |
| IssueQueries.ListIssues | app/api/issues/route.js:47-58 | GET /api/issues answers 200 with every issue, newest first |
| IssueQueries.MyIssues | app/api/my-issues/route.js:14-26 | 400 exactly when the email is missing; otherwise every issue of that email (all copies) and nothing else, newest first |
| IssueQueries.AdminIssues | app/api/admin/issues/route.js:8-27 | 401 exactly when no one is signed in; 403 exactly when the role is not "department_admin"; otherwise exactly the issues of the user's department, newest first |
| NotificationRoutes.ListFor | app/api/notifications/route.js:12-20 | an empty email answers "Email required" (status 200); otherwise exactly the notifications of that email, newest first |
| NotificationRoutes.MarkRead | app/api/notifications/read-all/route.js:15-18 | every notification of the email becomes read; the others are unchanged; nothing but `isRead` changes |
| NotificationRoutes.MarkReadIdempotent | app/api/notifications/read-all/route.js:15-18 | marking all read twice is the same as once |
| NotificationRoutes.UnreadCount | app/api/notifications/unread-count/route.js:12-21 | 0 without an email; otherwise the number of unread notifications of that email, which is at most the number of its notifications |
| NotificationRoutes.UnreadCountAfterMarkRead | app/api/notifications/unread-count/route.js:16-19 | right after read-all for an email, its unread count is 0 |
| NotificationRoutes.NotificationStore.MarkAllRead | app/api/notifications/read-all/route.js:9-20 | an empty email answers "Email required" and changes nothing; otherwise the store becomes MarkRead of the old one |
| UserRoutes.FindUser | app/api/users/route.js:16-17 | finds the first user with that `_id`, or -1 exactly when there is none |
| UserRoutes.UpsertUser | app/api/users/route.js:16-20 | an existing user is left untouched; a new id inserts one default user |
| UserRoutes.UpsertUserIdempotent | app/api/users/route.js:16-20 | a second upsert with the same id, at any time and with any name or email, changes nothing, and ids stay unique |
| UserRoutes.UserStore.Upsert | app/api/users/route.js:6-22 | 401 without a session; otherwise 200 with the user whose id is the session's, the store being the upsert of the old one |
| UserRoutes.FindByEmail | app/api/points/route.js:20 | finds the first user with that email, or -1 exactly when there is none |
| UserRoutes.Points | app/api/points/route.js:13-25 | 400 exactly when the email is missing; 404 exactly when no user has it; otherwise the points of a user with that email |
| UserRoutes.Entries | app/api/leaderboard/route.js:14 | the selection projects every user, in order |
| UserRoutes.TopUsers | app/api/leaderboard/route.js:11-13 | at most three users, all taken from the store, in descending order of points |
| UserRoutes.LeftOutHaveNoMorePoints | app/api/leaderboard/route.js:11-13 | a user not on the board has no more points than the third one on it, and the board is then full |
| UserRoutes.Leaderboard | app/api/leaderboard/route.js:11-16 | 200 with the projections of TopUsers: min(3, users) entries in descending order of points, each the projection of a stored user; a user without an entry means the board is full and that user has no more points than the last entry |
| UserAnalytics.PlanQuery | app/api/user-analytics/route.js:11-27 | 400 exactly when latitude, longitude or radiusKm is missing or 0; otherwise a query centred on the given point with radius radiusKm * 1000 metres |
| UserAnalytics.TypesOf | app/api/user-analytics/route.js:29 | the issue type of every found issue, in order |
| UserAnalytics.ResolvedOfType | app/api/user-analytics/route.js:35-36 | exactly the issues of that type that have a closing time, each as often as found |
| UserAnalytics.MeanHours | app/api/user-analytics/route.js:38-45 | 0 when no issue of the type is resolved; otherwise the mean of closedOn - createdAt over them, in hours |
| UserAnalytics.Aggregate | app/api/user-analytics/route.js:29-49 | the key order is the distinct types in first-seen order; the two maps have as keys exactly those types; each count is the number of issues of that type, and each average is MeanHours |
| UserAnalytics.Post | app/api/user-analytics/route.js:5-55 | a refused plan answers 400 with its message; otherwise 200 with, for the issues found near the point, a count and a mean resolution time for each occurring type and for no other, keyed in first-seen order |
| UserAnalytics.SumCountsAllTypes | app/api/user-analytics/route.js:34-49 | summed over all eight types, the per-type counts equal the number of issues |
| UserAnalytics.CountTypeAbsent | app/api/user-analytics/route.js:29-34 | a type that no found issue has counts 0 |
| UserAnalytics.IssueCountsSumToFound | app/api/user-analytics/route.js:48 | any count map keyed by the occurring types, holding their counts, sums to the number of issues found |
| PostAuth.AdminEmailIsNormal | app/post-auth/page.jsx:7 | the administrator's address is already trimmed and lower-case |
| PostAuth.Decide | app/post-auth/page.jsx:9-30 | /login without a session or without a stored user; otherwise the admin dashboard exactly when the stored email, trimmed and lower-cased, is the administrator's, else the user dashboard |
| PostAuth.NoEmailMeansUserDashboard | app/post-auth/page.jsx:24-29 | a stored user without an email goes to the user dashboard |
| PostAuth.AdminMatchIgnoresCaseAndPadding | app/post-auth/page.jsx:23-24 | an address that lower-cases to the administrator's, padded with white space on either side, is recognised as the administrator's |
| Profile.GetBadge | app/profile/page.js:1-6 | City Hero exactly from 500 points; Gold Guardian exactly for 201-499; Silver Watchdog exactly for 51-200; Bronze Reporter exactly below 51 |
| Profile.BadgeIsMonotone | app/profile/page.js:1-6 | more points never give a lower badge |
| Dashboard.ToggleLike | app/dashboard/page.jsx:51-55 | a liked id is removed and the rest kept in order; an unliked id is appended; only that id's membership changes |
| Dashboard.ToggleTwiceRestores | app/dashboard/page.jsx:51-55 | liking then unliking an id that was not liked restores the list |
| Dashboard.ToggleKeepsNoDuplicates | app/dashboard/page.jsx:51-55 | toggling keeps a duplicate-free list duplicate-free |
| Dashboard.HandleFilterChange | app/dashboard/page.jsx:75-77 | sets one filter field and keeps the other two |
| Dashboard.FilteredIssues | app/dashboard/page.jsx:58-73 | an order-preserving selection: each shown issue matches the search on landmark or type and equals every non-empty filter, and every matching issue is shown |
| Dashboard.NoFiltersShowEverything | app/dashboard/page.jsx:79-81 | after reset and with an empty search, every issue is shown in order |
| Dashboard.InProgressButtonMatchesNothing | app/dashboard/page.jsx:94-97 | the "in_progress" status button selects no issue, since no status has that name |
| AddIssue.AddIssuePage.HandleImageChange | app/dashboard/add-issue/page.jsx:9-16 | more than three images in total alerts and keeps the list; otherwise the files are appended |
| AddIssue.AddIssuePage.HandlePost | app/dashboard/add-issue/page.jsx:18-25 | alerts "at least 1 image" exactly when there is none, otherwise "posted successfully" |
| MyIssuePage.FloorDivision | app/dashboard/my-issue/page.jsx:28 | `Math.floor(total / n)` for n > 0 is the largest q with q * n <= total, and lies between 0 and total when total is non-negative |
| MyIssuePage.PointsPerIssue | app/dashboard/my-issue/page.jsx:28 | 0 without issues; otherwise an equal share whose n copies do not exceed the total, and one more copy would |
| MyIssuePage.WithUserPoints | app/dashboard/my-issue/page.jsx:29-34 | every issue, in order, with `userPoints` set to the share |
| MyIssuePage.Load | app/dashboard/my-issue/page.jsx:24-37 | a bare array (what the route sends) makes the mapping throw, the error is caught and the list is unchanged; a `{points, issues}` payload shows every issue with the share |
| AnalyticsDashboard.Tally | components/AnalyticsDashboard.jsx:91-94 | the keys are the distinct labels in first-seen order, each count is the number of occurrences, and the counts add up to the number of issues |
| AnalyticsDashboard.TotalOfRows | components/AnalyticsDashboard.jsx:95-100 | the rows' values add up to the sum of the counts over the keys |
| AnalyticsDashboard.ChartRows | components/AnalyticsDashboard.jsx:95-100 | one row per distinct label, in first-seen order, holding its number of occurrences |
| AnalyticsDashboard.StatusLabels | components/AnalyticsDashboard.jsx:92 | the status name of every issue, in order |
| AnalyticsDashboard.OrOther | components/AnalyticsDashboard.jsx:127 | a missing or empty label becomes "Other" |
| AnalyticsDashboard.CategoryLabels | components/AnalyticsDashboard.jsx:127 | the type name of every issue, in order |
| AnalyticsDashboard.LegacyCategoryLabels | components/AnalyticsDashboard.jsx:104 | every issue falls into "Other" |
| AnalyticsDashboard.ChartsEffect | components/AnalyticsDashboard.jsx:59-114 | no issues clears both charts; otherwise the status chart tallies the statuses and the category chart tallies the "Other" labels |
| AnalyticsDashboard.LegacyCategoriesAreAllOther | components/AnalyticsDashboard.jsx:103-113 | that category chart is one "Other" slice holding every issue |
| AnalyticsDashboard.CategoryEffect | components/AnalyticsDashboard.jsx:124-139 | with issues, the category chart tallies issue types; without them it is kept |
| AnalyticsDashboard.OnIssuesChanged | components/AnalyticsDashboard.jsx:59-139 | after both effects, the charts tally statuses and issue types, or are both empty |
| AnalyticsDashboard.OpenAndClosedWithinTotal | components/AnalyticsDashboard.jsx:117-119 | the open and closed cards never add up to more than the total card |
| AnalyticsDashboard.CategoryTable | components/AnalyticsDashboard.jsx:266-267 | the table shows the same rows in descending order of count; rows with the same count keep their order (the sort is stable) |
| AnalyticsDashboard.TiedCategoriesKeepTheirOrder | components/AnalyticsDashboard.jsx:266-267 | two categories with the same count stay in first-seen order |
| Text.TrimIdempotent | models/Corrected.js:9-18 | trimming a trimmed string changes nothing, so stored labels are trim-stable |
| Text.TrimStripsPadding | app/post-auth/page.jsx:24 | trim removes exactly the white space around a string that starts and ends with a non-space |
| Text.CollapseKeepsVisible | app/api/corrected/route.js:7 | replacing white-space runs by `_` keeps every other character, in order |
| Text.ContainsIffOccursAt | app/dashboard/page.jsx:59-64 | `includes` holds exactly when the query occurs at some position |
| Seqs.FilterKeepsEveryMatch | app/dashboard/page.jsx:58-73 | a filter keeps every occurrence of every element that passes |
| Seqs.SelectSorted | app/api/my-issues/route.js:21-23 | `find(filter).sort(key: -1)` gives exactly the matching documents, each as often as stored, in descending key order |
| Seqs.SortDescIsStable | components/AnalyticsDashboard.jsx:267 | the descending sort keeps, for each key, the elements with that key in their original order |
| Seqs.FirstIndex | app/api/update-issue/route.js:28 | the first position whose element satisfies the condition, or -1 exactly when none does |
| Seqs.TakeOfSorted | app/api/leaderboard/route.js:12-13 | a prefix of a sorted list is sorted and made of its elements |
| Seqs.Distinct | components/AnalyticsDashboard.jsx:96 | insertion-ordered keys are pairwise distinct and are exactly the labels that occur |

## Left out

- Database connection failures, and every `catch` that turns a thrown error into a 500
  (or, in the notification routes, into `success: false` and a count of 0), are not
  modelled. The exception is a schema validation failure on `create`, which is modelled.
- Mongoose's wording of validation errors is not modelled: the model answers with a
  fixed message.
- The `updatedAt` timestamp is not modelled. `createdAt` is a parameter of each create.
- An id that is not a valid ObjectId (a `CastError` from `findById`) is treated as an
  unknown id.
- A JSON `null` is modelled as an absent member.
- `toLowerCase` and `trim` are modelled on ASCII letters and the usual white-space
  characters only.
- Coordinates, radii and hours are exact reals. Floating-point rounding and `NaN` are
  not modelled.
- UserAnalytics.Post: the `$geoWithin` query itself is the parameter `nearby`. The model
  states which query is planned, not which issues MongoDB returns for it.
- UserAnalytics.MeanHours: `closedOn` is not declared by the schema and no handler here
  writes it. It is an optional attribute of an issue.
- UserRoutes.Entries: `firstName` is not a path of the User schema, so a leaderboard
  entry carries only `_id` (which `select` always keeps), email and points.
- UserRoutes.Points: `user.points || 0` is the identity on the numeric default, so it
  is modelled as the stored points.
- Dashboard.FilteredIssues: issues have no `title`, so the title disjunct of the search
  is always false and is dropped.
- The status route (`issues/[id]/status`), the single-issue and single-notification
  routes, likes and comments storage, and point awarding are not part of this model.
- Not part of this model either: notification fan-out, the Gemini prioritisation
  (`lib/priorityAI.js`), the admin login, e-mail sending and reverse geocoding.
- Presentation components, maps, the fetch wiring of the pages and loading flags are
  left out.
- AnalyticsDashboard: the issues-over-time area chart depends on the date and the
  interval. It is left out, and so is the average-resolution card, which is
  `Math.random`.
- Concurrency between requests is not modelled: each handler runs atomically on the
  store.
