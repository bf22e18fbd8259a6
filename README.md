# Fitness club back-office: a verified model of its decision logic

This project models the parts of the fitness club management system that decide something. The system is a PHP and JavaScript back-office for a gym. It keeps members, trainers and workout plans, renews and checks memberships, and guards its pages behind a login. The database, the templates and the browser's DOM are plumbing around these decisions: the model keeps their effects and leaves their mechanics out.

The modules follow the source files:

- `Strings`, `Dates`, `Sorting`, `Tables`, `Requests` and `Options` give the vocabulary the other modules share.
  - PHP's string order and `empty()`.
  - Calendar dates as day numbers, the `Y-m-d` text of a date, and PHP's `+N months`.
  - `ORDER BY` as a sort, `WHERE` as a filter.
  - The ways a request parameter becomes a column value.
  - The three tables, held as sequences of rows in a `Database` object that the models update in place.
- `MembershipModel` covers `app/Models/Membership.php`: validating a membership, which marks a lapsed one `Expired`, and renewing one from the later of its expiry and today. The type and status lists of `getTypes` and `getStatuses` are the functions `Types` and `Statuses`.
- `MemberModel` and `TrainerModel` cover the member and trainer models: search filters, create defaults, e-mail uniqueness, the expiring list and the statistics.
- `WorkoutPlanModel` and `WorkoutPlanController` cover workout plans:
  - plan duration, the exercise list and the initial status;
  - the expiry sweep and status updates;
  - the search the model assembles clause by clause;
  - the statistics;
  - the controller's validation and guards.
- `Helpers` covers `includes/functions.php`: escaping, sanitising, the phone check, expiry, the read-only membership check, the e-mail probe and the two member searches.
- `AddPage`, `EditPage` and `WorkoutPlansPage` cover the procedural pages. Each reads a form, checks it message by message and writes a row only when nothing was reported.
- `Routing`, `FrontController`, `Authentication`, `BaseController`, `PathHelpers` and `UrlHelpersJs` cover the request path:
  - the router's table and dispatch;
  - the front controller's login gate and route table;
  - the session, including the CSRF token;
  - the base controller's view data and redirects;
  - the URL helpers on both sides.
- `AppJs` covers the browser code in `public/assets/js/app.js`:
  - the modal and dropdown state;
  - the form validator's error map and its e-mail and phone patterns;
  - marking the navigation link of the current page.

Things the program gets from outside are parameters of the model:

- the clock (`today`);
- the random bytes of a token;
- whether the database refuses a row, and the text of its error;
- the default of a status column;
- whether `filter_var` accepts an e-mail address (`isEmail`).

Behaviour the source shows and the model proves as such:

- A membership expiring today is still valid.
- A lapsed but still `Active` member stays on the expiring list.
- `/login-help` passes the login gate, because the gate tests path prefixes.
- The browser accepts phone numbers (a leading `+`, fewer than ten digits) that the server refuses.
- Two form fields sharing a name can hide a blank required field from the browser's validator.
- Text dates are compared as strings. `Dates.FormatOrder` shows that for `Y-m-d` texts this is the calendar order.

## Model

| member | source | states |
|---|---|---|
| Routing.UrlPath | app/Core/Router.php:34 | the path part of a request target is the text before its first `?` or `#`: a prefix holding neither, cut exactly at one of them or running to the end |
| Routing.UrlPathOfTarget | app/Core/Router.php:34 | a target made of a path, then a query or fragment, gives back exactly that path |
| Routing.StripBase | app/Core/Router.php:39-42 | a non-empty base path that prefixes the path is removed from its front, otherwise the path is unchanged |
| Routing.RoutePath | app/Core/Router.php:32-52 | the path `dispatch` looks up is never empty and never holds a `?` |
| Routing.QueryRemovalNeverApplies | app/Core/Router.php:49-52 | once `parse_url` has run, the explicit query removal in `dispatch` never changes the path |
| Routing.ActionMethod | app/Core/Router.php:65 | the method part of an action holds no `@`, and an action without `@` has no method part |
| Routing.ActionSplits | app/Core/Router.php:65 | `explode('@', ...)` gives back the controller and method a `Name@method` action was written from |
| Routing.RegisterSets | app/Core/Router.php:22-30 | registering a path makes it route to its action under its verb |
| Routing.RegisterLeavesOthers | app/Core/Router.php:22-30 | registering one verb and path leaves every other verb and path as it was |
| Routing.Router.constructor | app/Core/Router.php:10-20 | a new router has no routes |
| Routing.Router.Lookup | app/Core/Router.php:54 | an action is found exactly when the verb's table holds the path |
| Routing.Router.Get | app/Core/Router.php:22-25 | the table becomes the old table with the GET entry for the path set to the action |
| Routing.Router.Post | app/Core/Router.php:27-30 | the table becomes the old table with the POST entry for the path set to the action |
| Routing.Router.Dispatch | app/Core/Router.php:32-90 | the outcome is what `Resolve` gives for the table, the verb and the normalised path |
| Routing.Resolve | app/Core/Router.php:54-89 | 404 exactly when the verb has no such path; a call only of an existing class and method named by the action; a 500 exactly when the class or the method is missing |
| Routing.MethodsSeparate | app/Core/Router.php:22-30 | a path registered for GET only is not found for POST |
| Routing.DispatchCalls | app/Core/Router.php:32-89 | a `Name@method` route of an existing class and method is called, whatever base path stands in front of the request |
| FrontController.LastAction | public/index.php:20-107 | a reported action was registered for that verb and path |
| FrontController.PrefixDependsOnTake | public/index.php:20-107 | the table after `k` registrations depends on the first `k` routes only |
| FrontController.RegisteredLookup | public/index.php:20-107 | after a series of registrations a pair routes to its last registered action, and a pair never registered keeps what the table held before |
| FrontController.RegisteredConcat | public/index.php:20-107 | registering two lists in turn is registering their concatenation |
| FrontController.RegisterAuthRoutes | public/index.php:20-22 | the router's table becomes the old one with the three login and logout routes registered in order |
| FrontController.RegisterDashboardRoutes | public/index.php:57-58 | the table gains the dashboard routes, in order |
| FrontController.RegisterMemberRoutes | public/index.php:61-68 | the table gains the member routes, in order |
| FrontController.RegisterTrainerRoutes | public/index.php:71-77 | the table gains the trainer routes, in order |
| FrontController.RegisterMembershipRoutes | public/index.php:80-84 | the table gains the membership routes, in order |
| FrontController.RegisterWorkoutPlanRoutes | public/index.php:87-94 | the table gains the workout-plan routes, in order |
| FrontController.RegisterAttendanceRoutes | public/index.php:97-99 | the table gains the attendance routes, in order |
| FrontController.RegisterAjaxRoutes | public/index.php:102-104 | the table gains the AJAX routes, in order |
| FrontController.RegisterTestRoutes | public/index.php:107 | the table gains the route listing route |
| FrontController.RegisterProtectedRoutes | public/index.php:56-107 | the table gains every route that needs a login, group after group |
| FrontController.IsPublic | public/index.php:42-49 | the request is public exactly when its path begins with one of the public routes |
| FrontController.GateAndRouterAgree | public/index.php:28-40 | the login check and the router look at the same path |
| FrontController.PublicPaths | public/index.php:25 | a path is public exactly when it begins with `/login` or `/logout`, so `/login-help` is public too |
| FrontController.NotPublic | public/index.php:42-49 | a path whose second character is not `l` is not public |
| FrontController.ProtectedRoutesNeedLogin | public/index.php:56-107 | no route registered after the login check, the dashboard at `/` included, is public |
| FrontController.DashboardNeedsLogin | public/index.php:57-58 | no dashboard route is public |
| FrontController.MemberNeedsLogin | public/index.php:61-68 | no member route is public |
| FrontController.TrainerNeedsLogin | public/index.php:71-77 | no trainer route is public |
| FrontController.MembershipNeedsLogin | public/index.php:80-84 | no membership route is public |
| FrontController.WorkoutPlanNeedsLogin | public/index.php:87-94 | no workout-plan route is public |
| FrontController.AttendanceNeedsLogin | public/index.php:97-99 | no attendance route is public |
| FrontController.AjaxNeedsLogin | public/index.php:102-104 | no AJAX route is public |
| FrontController.TestNeedsLogin | public/index.php:107 | the route listing is not public |
| FrontController.LastActionConcat | public/index.php:20-107 | in a concatenation the later list's last registration wins |
| FrontController.LastActionAbsent | public/index.php:20-107 | a path no route names has no registered action |
| FrontController.AuthRoutesLast | public/index.php:20-22 | the login and logout routes map to the three `AuthController` actions |
| FrontController.ProtectedLeavesAuth | public/index.php:56-107 | the protected routes do not re-register `/login` or `/logout` |
| FrontController.AuthRoutesRegistered | public/index.php:20-107 | in the finished table `/login` and `/logout` still route to the `AuthController` actions registered first |
| FrontController.HandleRequest | public/index.php:14-110 | the session is started and keeps or gets its token; the answer is a redirect to the base path's `/login` exactly when the path is not public and the session is not logged in, otherwise the router's outcome on the full table |
| FrontController.RequestGatePath | public/index.php:28-40 | the path the login check uses is the request path with the base path removed and `''` read as `/` |
| FrontController.DispatchProtected | public/index.php:56-110 | after the protected routes are registered on top of the login routes, the outcome is the router's answer on the full table |
| FrontController.RedirectTargetIsPublic | public/index.php:51-54 | the login address a refused request is sent to is itself public, so the redirect does not loop |
| Authentication.Bin2Hex | app/Core/Auth.php:13 | `bin2hex` gives two lower-case hexadecimal digits per byte |
| Authentication.TokenNotEmpty | app/Core/Auth.php:12-13 | a token made of 32 random bytes is never PHP-empty |
| Authentication.Session.constructor | app/Core/Auth.php:7-11 | a request arrives with the stored session data and the session not yet started |
| Authentication.Session.StartSession | app/Core/Auth.php:7-15 | the session is started; an empty or missing token is replaced by the hex of the random bytes, an existing one is kept, and afterwards the token is never empty |
| Authentication.Session.Login | app/Core/Auth.php:17-23 | the user's id, name and e-mail are stored and `logged_in` is the boolean `true` |
| Authentication.Session.Logout | app/Core/Auth.php:25-30 | the session data is emptied and holds only a fresh token; the session is no longer logged in and has no user |
| Authentication.Session.User | app/Core/Auth.php:37-47 | there is a user exactly when the session is logged in |
| Authentication.Session.CsrfToken | app/Core/Auth.php:49-52 | the stored token, or `''` when there is none |
| Authentication.CheckIsStrict | app/Core/Auth.php:32-35 | only the boolean `true` logs a session in; `1` and `'1'` do not |
| Authentication.VerifyMeansEqual | app/Core/Auth.php:54-57 | a submitted token is accepted exactly when the session holds that token; with no token nothing is accepted, not even `''` |
| BaseController.TwigUrl | app/Core/Controller.php:20-26 | the base path followed by the path, with one `/` added when the path lacks a leading one |
| BaseController.TwigAsset | app/Core/Controller.php:28-34 | the base path, `/assets/` and the path with one leading `/` dropped |
| BaseController.TwigHelpersAgree | app/Core/Controller.php:20-34 | once the base path is stored, the templates' `url` and `asset` give the addresses the procedural helpers give |
| BaseController.CurrentPage | app/Core/Controller.php:51-52 | the section is the prefix of the view name up to, not including, its first `/`, or the whole name without one |
| BaseController.CurrentPageOf | app/Core/Controller.php:51-52 | the view `section/rest` belongs to `section`, and a name without `/` is its own section |
| BaseController.View | app/Core/Controller.php:37-59 | the data gets `auth`, `base_path` and `current_page`, which replace any value the caller gave, and keeps every other entry |
| BaseController.RedirectLocation | app/Core/Controller.php:61-66 | the Location is the base path followed by exactly the path as given |
| BaseController.RedirectMatchesUrl | app/Core/Controller.php:20-26 | a redirect goes where `url` points exactly when the path has a leading `/` |
| PathHelpers.GetBasePath | includes/path-helpers.php:6-24 | a set, non-empty `APP_BASE_PATH` wins; otherwise the script directory with each `\` turned into `/` and every other character kept, a bare root separator giving `''` |
| PathHelpers.BasePathSeparatorsAgree | includes/path-helpers.php:17-21 | a directory written with `\` gives the same base path as the one written with `/` |
| PathHelpers.Rooted | includes/path-helpers.php:35-38 | the path gets a leading `/` when it lacks one and is otherwise unchanged |
| PathHelpers.Url | includes/path-helpers.php:31-41 | `url` is the base path followed by the rooted path |
| PathHelpers.UrlLeadingSlashOptional | includes/path-helpers.php:31-41 | `url('x')` and `url('/x')` are the same address |
| PathHelpers.Asset | includes/path-helpers.php:48-58 | the base path, `/assets/` and the path with at most one leading `/` dropped |
| PathHelpers.AssetLeadingSlashOptional | includes/path-helpers.php:48-58 | `asset('/a')` and `asset('a')` are the same address, and a second leading `/` is kept |
| UrlHelpersJs.JsUrl | public/assets/js/url-helpers.js:2-9 | the base path followed by the path, with one `/` added when the path lacks a leading one |
| UrlHelpersJs.JsUrlLeadingSlashOptional | public/assets/js/url-helpers.js:2-9 | `url('x')` and `url('/x')` are the same address |
| UrlHelpersJs.JsUrlMatchesServer | public/assets/js/url-helpers.js:2-9 | the browser's `url` gives the address the templates' `url` gives for the same base path |
| UrlHelpersJs.Window.constructor | public/assets/js/url-helpers.js:28-30 | the window starts at the given address |
| UrlHelpersJs.Window.NavigateTo | public/assets/js/url-helpers.js:28-30 | the window goes to exactly `url(path)` |
| WorkoutPlanModel.RoundWeeks | app/Models/WorkoutPlan.php:85 | the rounded number of weeks is within three days of the day span |
| WorkoutPlanModel.RoundWeeksNearest | app/Models/WorkoutPlan.php:85 | no whole number of weeks is nearer to the day span than the rounded one |
| WorkoutPlanModel.DaySpan | app/Models/WorkoutPlan.php:82-84 | the span is the distance between the two day numbers, whichever date comes first, and zero exactly for the same date |
| WorkoutPlanModel.PlanDuration | app/Models/WorkoutPlan.php:80-86 | no duration exactly when a date is PHP-empty; otherwise both dates parse and the weeks are the rounded day span, or a date does not parse |
| WorkoutPlanModel.KeepNamedExercises | app/Models/WorkoutPlan.php:96-103 | the kept exercises are those with a non-empty name, in their original order |
| WorkoutPlanModel.KeepNamedIdempotent | app/Models/WorkoutPlan.php:96-103 | filtering an already filtered list changes nothing |
| WorkoutPlanModel.InitialStatus | app/Models/WorkoutPlan.php:120 | `Active` exactly when `is_active` is present, `Draft` exactly when it is not |
| WorkoutPlanModel.NewPlan | app/Models/WorkoutPlan.php:75-124 | a created plan gets an id above every existing one, the posted member and trainer as read integers, the name, the status `Active` exactly when `is_active` is posted, a duration exactly when both dates are given, each posted date as the day it writes, only the named exercises, the optional fields as posted or NULL, and today as its creation date; nothing is created exactly when a date, the member id or a posted trainer id cannot be read |
| WorkoutPlanModel.Create | app/Models/WorkoutPlan.php:75-124 | on success exactly the new row is appended and its id returned; on failure the table is unchanged; the other tables never change |
| WorkoutPlanModel.NewPlanKeepsStatusesValid | app/Models/WorkoutPlan.php:120 | a created plan keeps every status within the four known ones |
| WorkoutPlanModel.Sweep | app/Models/WorkoutPlan.php:250-258 | the swept table has the same rows, each completed if it lapsed |
| WorkoutPlanModel.SweepChanges | app/Models/WorkoutPlan.php:253-256 | exactly the active plans whose end date is before today change, and only their status changes, to `Completed` |
| WorkoutPlanModel.SweepLeavesNoLapsed | app/Models/WorkoutPlan.php:253-256 | after the sweep no active plan has an end date before today |
| WorkoutPlanModel.SweepIdempotent | app/Models/WorkoutPlan.php:250-258 | a second sweep on the same day changes nothing |
| WorkoutPlanModel.SweepKeepsStatusesValid | app/Models/WorkoutPlan.php:253-256 | the sweep keeps every status within the four known ones |
| WorkoutPlanModel.UpdateExpiredPlans | app/Models/WorkoutPlan.php:250-258 | the plans table becomes the swept table and nothing else changes |
| WorkoutPlanModel.SetPlanStatus | app/Models/WorkoutPlan.php:271-272 | only the row whose id the request names gets the new status; every other row is unchanged |
| WorkoutPlanModel.UpdateStatus | app/Models/WorkoutPlan.php:263-273 | a status outside the whitelist is refused with the listed message before any write; a listed one is written to the named row |
| WorkoutPlanModel.SetPlanStatusKeepsStatusesValid | app/Models/WorkoutPlan.php:265-272 | a status update keeps every status within the four known ones |
| WorkoutPlanModel.StatusCondition | app/Models/WorkoutPlan.php:209-223 | the status filter becomes an equality on a fixed status, the "neither active nor completed" clause, or an equality with a bound value |
| WorkoutPlanModel.RangeConditions | app/Models/WorkoutPlan.php:226-238 | a date range adds at most one clause and it binds no value |
| WorkoutPlanModel.PlaceholderCountAppend | app/Models/WorkoutPlan.php:190-238 | appending a clause adds its placeholders and its bound values |
| WorkoutPlanModel.BuildSearch | app/Models/WorkoutPlan.php:189-238 | the clauses are those of the non-empty filters, in order, and there are exactly as many bound values as placeholders |
| WorkoutPlanModel.AddSearchTerm | app/Models/WorkoutPlan.php:192-202 | the search term appends its clause with three bindings of `%term%` |
| WorkoutPlanModel.AddTrainerFilter | app/Models/WorkoutPlan.php:204-207 | the trainer filter appends its clause and binding |
| WorkoutPlanModel.AddStatusFilter | app/Models/WorkoutPlan.php:209-223 | the status filter appends its clause and, for an unrecognised status, its binding |
| WorkoutPlanModel.AddDateRange | app/Models/WorkoutPlan.php:225-238 | a known date range appends a clause with no binding; an unknown one appends nothing |
| WorkoutPlanModel.BindingsConcat | app/Models/WorkoutPlan.php:190-238 | the bindings of two clause lists are those of each, in order |
| WorkoutPlanModel.PlaceholderCountConcat | app/Models/WorkoutPlan.php:190-238 | the placeholders of two clause lists add up |
| WorkoutPlanModel.SearchPlaceholderShares | app/Models/WorkoutPlan.php:192-223 | three placeholders for a search term, one for a trainer, one for an unrecognised status, none for a date range |
| WorkoutPlanModel.BindingsCount | app/Models/WorkoutPlan.php:242-243 | every clause list binds exactly as many values as it has placeholders |
| WorkoutPlanModel.SearchResult | app/Models/WorkoutPlan.php:178-245 | a plan is listed exactly when it is in the table and meets every clause |
| WorkoutPlanModel.Search | app/Models/WorkoutPlan.php:178-245 | the rows are the search result for the built clauses, never more than the table holds |
| WorkoutPlanModel.SearchUnfiltered | app/Models/WorkoutPlan.php:178-245 | with no filter every plan is listed, newest first |
| WorkoutPlanModel.StatusFilterSelects | app/Models/WorkoutPlan.php:209-223 | `active` and `completed` in any case select that status, `inactive` selects neither, anything else selects `ucfirst` of the input |
| WorkoutPlanModel.SearchSelects | app/Models/WorkoutPlan.php:192-238 | a plan is listed exactly when it meets every filter that was given |
| WorkoutPlanModel.WhereAllSingle | app/Models/WorkoutPlan.php:189 | one clause holds exactly when its condition holds |
| WorkoutPlanModel.WhereAllConcat | app/Models/WorkoutPlan.php:189 | a plan meets two clause lists together exactly when it meets each |
| WorkoutPlanModel.CountPlans | app/Models/WorkoutPlan.php:163-173 | the total is the number of rows; active, completed and this month's counts are the sizes of the selections of `Active` rows, `Completed` rows and rows created in the current month; active plus completed is at most the total |
| WorkoutPlanModel.GetStats | app/Models/WorkoutPlan.php:155-176 | the sweep runs first and the counts are those of the swept table |
| WorkoutPlanModel.SweptCounts | app/Models/WorkoutPlan.php:157-170 | after the sweep the active count is the plans still running, and the completed count includes the lapsed ones |
| WorkoutPlanController.ValidateWorkoutPlanSpec | app/Controllers/WorkoutPlanController.php:86-125 | the error list has, in field order, one entry per PHP-empty required field with that field's message, and the ordering message under `end_date` when both dates are given and the end does not come after the start |
| WorkoutPlanController.ValidateWorkoutPlanEmpty | app/Controllers/WorkoutPlanController.php:86-125 | validation finds nothing exactly when every required field is given and the end date comes after the start date |
| WorkoutPlanController.EndDateOrder | app/Controllers/WorkoutPlanController.php:110-114 | for `Y-m-d` dates the text comparison agrees with the calendar, so an end date on or before the start is refused |
| WorkoutPlanController.OrderMessageMeaning | app/Controllers/WorkoutPlanController.php:110-114 | the ordering message appears exactly when both dates are given and the end date is not after the start |
| WorkoutPlanController.Store | app/Controllers/WorkoutPlanController.php:59-84 | an invalid post leaves the plans unchanged and reports the errors; a valid one that the database accepts appends exactly the new plan; a refused insert or an unreadable value fails the store and changes nothing |
| WorkoutPlanController.StoredPlanDates | app/Controllers/WorkoutPlanController.php:59-84 | a plan that passed validation and is stored has both dates, a known duration, and an end after its start |
| WorkoutPlanController.Index | app/Controllers/WorkoutPlanController.php:13-45 | the expiry sweep runs first; the listing is the search result when some filter is set and the whole table, newest first, otherwise; the stats and active trainers are those of the swept table |
| WorkoutPlanController.IndexChoiceAgrees | app/Controllers/WorkoutPlanController.php:26-30 | with no filter set the search returns the same rows as listing everything |
| WorkoutPlanController.UpdateStatusAction | app/Controllers/WorkoutPlanController.php:182-203 | a missing id or status and a status outside the whitelist are refused without change; otherwise exactly that plan's status is set |
| WorkoutPlansPage.PostedPlan | public/workout_plans.php:17-23 | member id is the `(int)` cast of the posted value (0 without one); trainer id and duration are the cast values, and the end date the sanitised text, or NULL when the posted value is PHP-empty; plan name, description and start date are the sanitised texts |
| WorkoutPlansPage.PlanErrorsMeaning | public/workout_plans.php:25-33 | each message is reported exactly when its field is missing, and there is none exactly when member, plan name and start date are given |
| WorkoutPlansPage.MemberIdZero | public/workout_plans.php:17-26 | a missing member id, the id `0` and one that does not start with a number are reported as a missing member |
| WorkoutPlansPage.MemberIdRead | public/workout_plans.php:17-27 | a posted member id that is the text of a positive number is read as that number and raises no member message |
| WorkoutPlansPage.ChecksIgnoreEndDate | public/workout_plans.php:25-33 | the checks never depend on the end date or the duration |
| WorkoutPlansPage.InsertedPlan | public/workout_plans.php:35-39 | the stored row carries the posted member, trainer, name, duration and the days its dates write under a fresh id, with the default status, no exercises and today's date; the description is the posted text, or NULL when PHP-empty, and the six columns the insert does not name are NULL; the insert fails exactly when a date is not a valid `Y-m-d` date |
| WorkoutPlansPage.PlanChecks | public/workout_plans.php:25-33 | the checks appended one by one give the message list |
| WorkoutPlansPage.AddPlan | public/workout_plans.php:25-45 | success exactly when the checks pass and the insert succeeds, appending exactly the row; otherwise the table is unchanged and the messages or the caught error are reported |
| WorkoutPlansPage.Handle | public/workout_plans.php:15-47 | only a POST with action `add` can change the table; for one, success holds exactly when the checks pass, nothing is refused and the dates are readable, and then exactly the plan read from the post is appended; otherwise some message is reported: the checks' messages, the refusal's, or the date refusal's for an unreadable date |
| Helpers.Escape | includes/functions.php:9-11 | no quote or angle bracket survives escaping, and text without special characters is unchanged |
| Helpers.EscapeRoundTrip | includes/functions.php:9-11 | escaping loses nothing: decoding the entities gives back the original text |
| Helpers.StripSlashes | includes/functions.php:18 | text without a backslash passes unchanged |
| Helpers.StripSlashesUndoesAddSlashes | includes/functions.php:18 | `stripslashes` takes back exactly the quoting `addslashes` adds, so every text survives the round trip |
| Helpers.SanitizeInputSafe | includes/functions.php:16-21 | the sanitised text holds no quote or angle bracket, and trimmed text with no special character and no backslash passes unchanged |
| Helpers.StripFillers | includes/functions.php:35 | the result is no longer than the input and holds no dash, bracket or white space |
| Helpers.StripFillersDigits | includes/functions.php:35-37 | after deleting the fillers only digits remain exactly when the input holds only digits and fillers, and then the length is the digit count |
| Helpers.ValidatePhoneSpec | includes/functions.php:33-38 | a phone number is accepted exactly when it holds only digits and fillers and at least ten digits; a `+` is always refused |
| Helpers.ExpiredStoredDate | includes/functions.php:53-58 | a stored expiry is expired exactly when it is NULL or strictly before today, so one expiring today is not; this agrees with the membership model |
| Helpers.CheckMembershipDays | includes/functions.php:167-196 | a valid answer reports the expiry date and a non-negative number of days until it |
| Helpers.CheckMembershipAgrees | includes/functions.php:167-196 | the read-only helper accepts exactly the members the membership model accepts on the same day |
| Helpers.EmailExistsScope | includes/functions.php:112-130 | a blank address never exists; a trainer probe reads only trainers and any other kind only members; a non-positive exclusion excludes nothing |
| Helpers.EmailExistsIgnoresExcluded | includes/functions.php:119-121 | for a member probe (any kind but `trainer`), the excluded row never counts against its own e-mail: appending it to the table changes nothing |
| Helpers.SearchMembersByName | includes/functions.php:88-106 | nothing for a blank query or a negative limit; otherwise the first `limit` of all matching members ordered by last then first name, so every match is listed when the limit is at least the number of members |
| Helpers.Ranked | includes/functions.php:93-100 | the ordered matches are exactly the members matching one of the five patterns, each as often as in the table, by last then first name |
| Helpers.SearchMembers | includes/functions.php:135-162 | the result is ordered by expiry then last name and is a permutation of the rows the conditions select |
| Helpers.SearchConditionsMeaning | includes/functions.php:140-153 | the built conditions hold exactly when each non-empty filter matches |
| Helpers.SearchMembersSelects | includes/functions.php:135-162 | a member is returned exactly when it matches every filter given, an empty filter adding no condition |
| Helpers.SearchMembersAll | includes/functions.php:150-154 | with no filters every member is listed once, ordered by expiry then last name |
| Strings.LessTrichotomy | app/Controllers/WorkoutPlanController.php:112 | PHP's comparison of two non-numeric strings orders any two distinct strings one way and never both ways |
| Strings.LessTransitive | app/Models/Membership.php:46 | the string order is transitive |
| Strings.LessConcat | app/Models/Membership.php:46 | for first parts of equal length the first parts decide the comparison unless they are equal |
| Strings.Trim | includes/functions.php:17 | `trim` cuts only trimmable characters, and only from the two ends, and leaves none at either end |
| Strings.ToLower | app/Models/Membership.php:41 | `strtolower` maps each character to its ASCII lower case, keeping the length |
| Strings.Ucfirst | app/Models/WorkoutPlan.php:221 | `ucfirst` changes only the first character, to its upper case |
| Strings.ReplaceChar | includes/path-helpers.php:21 | `str_replace` of one character replaces every occurrence and nothing else |
| Strings.BeforeFirst | app/Core/Router.php:65 | the text before the first separator is a prefix holding no separator, followed by the separator when shorter than the input |
| Strings.Segments | public/assets/js/app.js:523-524 | `split('/').filter(Boolean)` yields only non-empty pieces holding no separator, and a non-empty text without a separator is one piece |
| Strings.SegmentsConcat | public/assets/js/app.js:523-524 | the pieces of `a/b` are the pieces of `a` followed by those of `b`, which with the one-piece case fixes every result |
| Dates.DayNumberOrder | app/Models/Membership.php:58 | day numbers order days exactly as the calendar does, and equal day numbers mean the same day |
| Dates.Format | app/Models/Membership.php:35 | `date('Y-m-d')` gives ten characters with dashes at positions 4 and 7 |
| Dates.ParseFormat | app/Models/Membership.php:95 | reading back a formatted day gives the day |
| Dates.FormatParse | app/Models/Membership.php:94-95 | a text that reads as a day is that day's canonical `Y-m-d` text |
| Dates.FormatOrder | app/Models/Membership.php:94 | `Y-m-d` texts compare as strings exactly as their days compare in the calendar |
| Dates.DateTextBefore | app/Models/Membership.php:46 | on a nullable date column, `$column < $today` holds exactly when the column is NULL or an earlier day |
| Dates.AddMonths | app/Models/Membership.php:95 | `+N months` gives a real calendar day |
| Dates.AddMonthsRule | app/Models/Membership.php:95 | `+N months` lands `day - 1` days after the first of the target month, spilling past a short month's end |
| Dates.AddZeroMonths | app/Models/Membership.php:95 | adding no months changes nothing |
| Dates.AddMonthsLater | app/Models/Membership.php:95 | adding at least one month gives a strictly later day |
| Dates.ParseDate | app/Models/Member.php:74-78 | a form's date text is stored as the day it is the `Y-m-d` text of, and as nothing when it is no day's text |
| Dates.DateText | app/Models/Membership.php:46 | a NULL date reads as the empty text and only a NULL does |
| Sorting.SortBy | app/Models/Trainer.php:27 | `ORDER BY` returns the same rows, each as often, in order |
| Sorting.ByKeysTotal | app/Models/Trainer.php:27 | ordering by two text columns is a total preorder |
| Tables.Filter | app/Models/Trainer.php:27 | `WHERE p` keeps exactly the rows satisfying `p`, in table order |
| Tables.FilterAppend | app/Models/Member.php:51 | selection distributes over concatenation |
| Tables.FilterFilter | app/Models/Member.php:51 | two selections one after the other are one selection with both conditions |
| Tables.CountDisjoint | app/Models/Member.php:125 | counts of two conditions that never hold together add up to at most the total |
| Tables.Reverse | app/Models/Member.php:13 | `ORDER BY created_at DESC` on a table in insertion order lists the same rows back to front |
| Tables.Take | includes/functions.php:99 | `LIMIT n` keeps at most `n` rows, a prefix of the input, and all of them when there are fewer |
| Tables.FindMember | includes/functions.php:169-171 | the lookup by id finds the first member row with that id, and finds none exactly when no row has it |
| Tables.FindTrainer | app/Models/Trainer.php:16-22 | the lookup by id finds the first trainer row with that id, and finds none exactly when no row has it |
| Tables.NextId | public/add.php:64-68 | the id AUTO_INCREMENT hands out is positive and above every id in use |
| Requests.OrNull | app/Models/Trainer.php:73-75 | `?? null` is NULL exactly when the key is missing |
| Requests.OrDefault | app/Controllers/MembershipController.php:79-82 | `?? $default` returns a present value even when it is empty, and the default otherwise |
| Requests.NonEmptyOrNull | app/Models/Member.php:74-78 | `!empty(...) ? ... : null` is NULL exactly when the field is PHP-empty, and the value otherwise |
| Requests.EmptyToNull | public/add.php:66-67 | `?: null` is NULL exactly when the text is PHP-empty |
| Requests.DateColumn | app/Models/Member.php:74-75 | a DATE column receives NULL exactly when no text is bound, a day exactly when the text is that day's `Y-m-d` text, and a refusal for any other text |
| Requests.LeadingDigits | public/edit.php:19 | the leading digits form the longest all-digit prefix |
| Requests.ParseInt | app/Models/WorkoutPlan.php:204-207 | a parameter is read as an integer exactly when it is digits with an optional leading minus, and then as their value |
| Requests.ParseIntText | app/Models/WorkoutPlan.php:204-207 | every integer's text is read back as that integer |
| Requests.IntCast | public/edit.php:19 | `(int)` gives a 64-bit value, and 0 for text that does not start with a number after white space |
| Requests.IntCastDigits | public/edit.php:19 | digits followed by text that continues no number are cast to their value, capped to 64 bits; the rest is ignored |
| Requests.IntCastExponent | public/edit.php:19 | digits with an exponent are cast to the number they write (`1e3` is 1000), capped to 64 bits |
| Requests.IntCastText | public/edit.php:19 | every 64-bit integer's text is cast back to that integer |
| MemberModel.Search | app/Models/Member.php:24-56 | the search returns no more rows than the table holds |
| MemberModel.SearchSelects | app/Models/Member.php:27-51 | a member is returned exactly when it passes every given filter: a substring of the first or last name, equal type, equal status, expiry on or before the bound; a PHP-empty filter constrains nothing |
| MemberModel.PassesAll | app/Models/Member.php:30-49 | the appended fragments hold for a row exactly when it passes each filter |
| MemberModel.SearchMembership | app/Models/Member.php:50-55 | the listed rows are exactly the table's rows every fragment holds for |
| MemberModel.SearchUnfiltered | app/Models/Member.php:27-51 | with no filter every member is listed, newest first |
| MemberModel.ExpiryFilterIsDateOrder | app/Models/Member.php:46-49 | the expiry bound, given as a `Y-m-d` date, means "expires on or before that day"; a NULL expiry never passes |
| MemberModel.Create | app/Models/Member.php:58-82 | the new row is appended exactly when the database accepts it and its dates are valid; otherwise the table is unchanged |
| MemberModel.CreateDefaults | app/Models/Member.php:74-78 | the status defaults to `Active`; empty start, expiry and birth dates are stored as NULL; the id is unused |
| MemberModel.ExpiringMemberships | app/Models/Member.php:118-129 | the rows are exactly the active members expiring at most `days` days from today, each once per occurrence, earliest first |
| MemberModel.ExpiringOrderAndLapsed | app/Models/Member.php:118-129 | the list is in ascending expiry order and keeps active members whose membership already lapsed |
| MemberModel.GetStats | app/Models/Member.php:139-161 | the total is the number of rows, `active` and `expired` the numbers stored as `Active` and `Expired`, and `expiring_soon` the number of active members expiring within 30 days, never more than `active` |
| MemberModel.StatsByStoredStatus | app/Models/Member.php:139-151 | `active` and `expired` depend only on stored statuses, never on dates or the day, and together never exceed the total |
| MemberModel.ValidateEmailAgrees | app/Models/Member.php:163-177 | the address is free exactly when no other member row has it, the opposite of the helper's probe, and trainers play no part |
| TrainerModel.GetActive | app/Models/Trainer.php:24-28 | exactly the `Active` trainers, each once, ordered by first then last name |
| TrainerModel.Search | app/Models/Trainer.php:30-57 | the search returns no more rows than the table holds |
| TrainerModel.SearchSelects | app/Models/Trainer.php:30-57 | a trainer is returned exactly when it passes every given filter: a name substring, a specialization substring, equal status |
| TrainerModel.Create | app/Models/Trainer.php:59-79 | the new row is appended exactly when the database accepts it and its hire date is valid; otherwise the table is unchanged |
| TrainerModel.CreateDefaults | app/Models/Trainer.php:73-77 | the status defaults to `Active`, a missing specialization is NULL, and the id is unused |
| TrainerModel.GetStats | app/Models/Trainer.php:111-126 | the total is the number of rows, and `active` and `inactive` are the numbers of rows stored as `Active` and as `Inactive`; the two never exceed the total |
| TrainerModel.ValidateEmailTrainersOnly | app/Models/Trainer.php:128-142 | only the trainers table is read: another trainer with the address blocks it, and members never do |
| MembershipModel.SetStatus | app/Models/Membership.php:48-49 | the update changes the status of the rows with that id and nothing else |
| MembershipModel.ValidateMembership | app/Models/Membership.php:20-74 | the method's verdict and new members table are those of the validation function; other tables are unchanged |
| MembershipModel.ValidateUnknown | app/Models/Membership.php:31-33 | an unknown id is not valid, reports "Member not found" and writes nothing |
| MembershipModel.ValidateInactive | app/Models/Membership.php:38-44 | a status other than `Active` is refused whatever the expiry, with the lower-cased status in the message, and nothing is written |
| MembershipModel.ValidateLapsed | app/Models/Membership.php:46-56 | an active membership whose expiry is missing or before today is refused and that member's status, and only it, becomes `Expired` |
| MembershipModel.ValidateCurrent | app/Models/Membership.php:58-73 | an active membership expiring today or later is valid with nothing written, and carries a warning exactly when at most 7 days are left |
| MembershipModel.ValidateBoundary | app/Models/Membership.php:46-73 | a membership expiring today is still valid, one that expired yesterday is not |
| MembershipModel.ValidationStatuses | app/Models/Membership.php:15-18 | validation writes no status outside `getStatuses()`, and only `Active` can be valid |
| MembershipModel.AnchorIsLater | app/Models/Membership.php:93-94 | the renewal anchor is today for a missing expiry and otherwise the later of the expiry and today |
| MembershipModel.SetRenewed | app/Models/Membership.php:98-102 | the update sets that member's expiry and `Active` status and changes nothing else |
| MembershipModel.RenewMembership | app/Models/Membership.php:76-103 | the method's outcome and new members table are those of the renewal function; other tables are unchanged |
| MembershipModel.RenewUnknown | app/Models/Membership.php:85-87 | renewing an unknown member reports failure and changes nothing |
| MembershipModel.RenewExtends | app/Models/Membership.php:93-102 | a renewal by at least one month ends strictly after the anchor, so after today and the old expiry; the member becomes `Active` with that expiry and nothing else changes |
| MembershipModel.RenewZeroMonths | app/Models/Membership.php:93-102 | renewing for zero months re-activates the member with the anchor as expiry |
| MembershipModel.RenewLapsedExample | app/Models/Membership.php:94-95 | a membership lapsed on 2024-01-15 renewed on 2024-02-01 for a month runs to 2024-03-01 |
| MembershipModel.RenewCurrentExample | app/Models/Membership.php:94-95 | a membership running to 2024-06-30 renewed on 2024-02-01 for a month runs to 2024-07-30 |
| MembershipModel.RenewExample | app/Models/Membership.php:94-95 | the new expiry counts from the later of expiry and today in calendar order |
| AddPage.NormaliseType | public/add.php:10-13 | the page kind is `member` or `trainer`, and `trainer` exactly when the sanitised `type` parameter is `trainer` |
| AddPage.Required | public/add.php:41-42 | a field yields no message exactly when it is not PHP-empty, and otherwise exactly its message |
| AddPage.EmailErrors | public/add.php:43-47 | the e-mail yields no message exactly when it is given and well-formed |
| AddPage.PhoneErrors | public/add.php:48-52 | the phone yields no message exactly when it is given and passes `validatePhone` |
| AddPage.ContactErrorsMeaning | public/add.php:41-52 | the shared checks report nothing exactly when every one passes, and at most one message per field |
| AddPage.NameMessages | public/add.php:41-42 | each name message is reported exactly when that name is empty |
| AddPage.EmailMessages | public/add.php:43-47 | an e-mail is reported missing exactly when empty and malformed exactly when given and refused, never both |
| AddPage.PhoneMessages | public/add.php:48-52 | a phone is reported missing exactly when empty and malformed exactly when given and refused, never both |
| AddPage.MemberErrorsEmpty | public/add.php:41-55 | a member passes exactly when the shared checks pass and type, start date and expiry date are given |
| AddPage.TrainerErrorsEmpty | public/add.php:94-106 | a trainer passes exactly when the shared checks pass and a hire date is given |
| AddPage.RefusalMessage | public/add.php:76-81 | a duplicate-entry refusal maps to the fixed e-mail message; any other refusal is shown after the page's prefix |
| AddPage.InsertedMember | public/add.php:59-68 | the stored member carries the form's names, contact, type and dates under an unused id with the column's default status, PHP-empty address, birth date and emergency fields stored as NULL; no row exactly when a date is unreadable |
| AddPage.InsertedTrainer | public/add.php:110-116 | the stored trainer carries the form's names, contact, hire date, and specialization, experience and certification (NULL when PHP-empty) under an unused id with the default status; no row exactly when the hire date is unreadable |
| AddPage.ReadMemberForm | public/add.php:29-39 | the fields assigned one by one give the member form read from the post |
| AddPage.MemberChecks | public/add.php:41-55 | the member checks appended in order give the member message list |
| AddPage.ReadTrainerForm | public/add.php:85-92 | the fields assigned one by one give the trainer form read from the post |
| AddPage.TrainerChecks | public/add.php:94-106 | the trainer checks appended in order give the trainer message list |
| AddPage.ContactChecks | public/add.php:41-52 | the shared checks appended one by one give the shared message list |
| AddPage.InsertMember | public/add.php:58-82 | on success exactly the row is appended and the form is emptied; a refusal leaves table and form unchanged and reports one message |
| AddPage.AddMember | public/add.php:41-83 | an insert happens only when the checks pass; success appends exactly the row and empties the form; failure reports the checks' messages or the refusal and changes nothing |
| AddPage.InsertTrainer | public/add.php:109-130 | on success exactly the row is appended and the form is emptied; a refusal leaves table and form unchanged and reports one message |
| AddPage.AddTrainer | public/add.php:94-131 | an insert happens only when the checks pass; success appends exactly the row and empties the form; failure reports the checks' messages or the refusal and changes nothing |
| EditPage.RequestedId | public/edit.php:19 | the id is the `(int)` cast of the `id` parameter, or 0 without one |
| EditPage.RequestedIdReads | public/edit.php:19 | an `id` written as a 64-bit integer is read as it; one that does not start with a number reads as 0 |
| EditPage.Locate | public/edit.php:19-35 | the page redirects exactly when the id is not positive or no row of the chosen table has it |
| EditPage.StatusDefault | public/edit.php:50 | without a posted status the record becomes `Active`; a posted one is used as sanitised |
| EditPage.UpdatedMember | public/edit.php:70-80 | the written member keeps its id, takes the form's values and the status, PHP-empty optional texts become NULL, and the write fails exactly when a date is not a `Y-m-d` date |
| EditPage.UpdatedTrainer | public/edit.php:118-124 | the written trainer keeps its id, takes the form's values and the status, and the write fails exactly when the hire date is not a `Y-m-d` date |
| EditPage.ReplaceMember | public/edit.php:70-73 | `WHERE id = ?` replaces every row with the id and keeps the others in place |
| EditPage.ReplaceTrainer | public/edit.php:118-120 | `WHERE id = ?` replaces every row with the id and keeps the others in place |
| EditPage.ReloadMember | public/edit.php:82 | reading the record again after the update gives the row the update wrote |
| EditPage.ReloadTrainer | public/edit.php:126 | reading the record again after the update gives the row the update wrote |
| EditPage.UpdateMember | public/edit.php:69-89 | on success every row with the id holds the new values; a refusal changes nothing and reports one message |
| EditPage.EditMember | public/edit.php:52-89 | an update happens only when the add page's checks pass; on success the shown record is the written row, otherwise nothing changes and messages are reported |
| EditPage.UpdateTrainer | public/edit.php:117-133 | on success every row with the id holds the new values; a refusal changes nothing and reports one message |
| EditPage.EditTrainer | public/edit.php:102-133 | an update happens only when the trainer checks pass; on success the shown record is the written row, otherwise nothing changes and messages are reported |
| AppJs.Modal.constructor | public/assets/js/app.js:22-39 | a new modal is hidden with no backdrop added and no removal scheduled |
| AppJs.Modal.Show | public/assets/js/app.js:41-65 | showing a shown modal changes nothing; showing a hidden one shows it and adds exactly one backdrop |
| AppJs.Modal.Hide | public/assets/js/app.js:67-83 | hiding a hidden modal changes nothing; hiding a shown one hides it and schedules exactly one backdrop removal |
| AppJs.Modal.Toggle | public/assets/js/app.js:85-91 | toggling flips `isShown` and does exactly one show or hide |
| AppJs.Dropdown.constructor | public/assets/js/app.js:96-123 | a new dropdown is closed |
| AppJs.Dropdown.Open | public/assets/js/app.js:133-137 | opening leaves the menu open |
| AppJs.Dropdown.Close | public/assets/js/app.js:139-143 | closing leaves the menu closed |
| AppJs.Dropdown.ToggleDropdown | public/assets/js/app.js:125-131 | toggling flips the open flag |
| AppJs.Dropdown.OnDocumentClick | public/assets/js/app.js:111-115 | a click outside closes the menu and a click inside leaves it as it was |
| AppJs.Dropdown.OnKeyDown | public/assets/js/app.js:118-122 | Escape closes the menu and any other key leaves it |
| AppJs.JsTrim | public/assets/js/app.js:203 | `trim` cuts only white space, and only from the two ends, and leaves none at either end |
| AppJs.BlankIffSpaces | public/assets/js/app.js:210-213 | a value is blank after trimming exactly when it is white space only |
| AppJs.EmailAcceptedMatches | public/assets/js/app.js:216-222 | an accepted e-mail matches the pattern, holds no white space and exactly one `@` |
| AppJs.EmailAcceptedIsPattern | public/assets/js/app.js:216-222 | the positional e-mail test accepts exactly the values of the regular expression |
| AppJs.PhoneAcceptedIsPattern | public/assets/js/app.js:225-231 | the phone test accepts exactly the values of the regular expression: an optional `+` then one or more digits, white space, dashes or brackets |
| AppJs.PhoneChecksCompared | public/assets/js/app.js:225-231 | every number the server's phone check accepts passes the browser's check too |
| AppJs.LeadingPlusDiffers | public/assets/js/app.js:225-231 | the browser lets `+1234567890` through, which the server refuses |
| AppJs.ShortNumberDiffers | public/assets/js/app.js:225-231 | the browser lets `123` through, which the server refuses |
| AppJs.FieldMessage | public/assets/js/app.js:202-256 | a blank required field gets "This field is required"; a blank field gets a message only when required; a filled field other than an e-mail, phone or number field never gets one |
| AppJs.FieldMessageFormats | public/assets/js/app.js:216-231 | a filled e-mail field passes exactly when its trimmed value matches the e-mail pattern, and a filled phone field when it matches the phone pattern |
| AppJs.Step | public/assets/js/app.js:202-256 | after validating a field its key holds an error exactly when it has a message, and no other key changes |
| AppJs.FormValidator.constructor | public/assets/js/app.js:171-189 | a new validator records no error |
| AppJs.FormValidator.AddFieldError | public/assets/js/app.js:258-260 | the message is recorded under the field's key and nothing else changes |
| AppJs.FormValidator.RemoveFieldError | public/assets/js/app.js:277-279 | the field's entry is removed and nothing else changes |
| AppJs.FormValidator.ValidateField | public/assets/js/app.js:202-256 | the error map becomes the one-step update and the answer is true exactly when the field has no message |
| AppJs.FormValidator.Validate | public/assets/js/app.js:191-200 | the errors are cleared and rebuilt over the required fields in order, and the answer is true exactly when none is recorded |
| AppJs.AllPassValidates | public/assets/js/app.js:191-200 | when every required field passes, validation answers true |
| AppJs.KeyNotRecorded | public/assets/js/app.js:191-200 | a key no required field has is never recorded |
| AppJs.ValidatesOnlyIfAllPass | public/assets/js/app.js:191-200 | with distinct keys, validation answers true only when every required field passes |
| AppJs.SharedKeyHidesError | public/assets/js/app.js:191-200 | with two fields sharing a name, a blank required field can be hidden by a later filled one |
| AppJs.ZeroIsNotBlank | public/assets/js/app.js:210-213 | a field other than an e-mail, phone or number field holding `0` passes, required or not, unlike PHP's `empty` |
| AppJs.MarkActive | public/assets/js/app.js:520-530 | every link whose path matches is marked active and no mark is removed |
| AppJs.SegmentsTrailing | public/assets/js/app.js:523-524 | a trailing separator adds no path segment |
| AppJs.NavActiveProperties | public/assets/js/app.js:520-530 | a link is active on its own page, a trailing `/` on either path changes nothing, and the root link is never active |

## Left out

- SQL text, PDO and MySQL are not modelled; tables are sequences of rows (`app/Core/Database.php` is not part of this model). `LIKE` is a plain substring test with no collation or case folding. `=` on text is exact equality. Numeric-string comparison in PHP is not modelled: compared texts are treated as non-numeric.
- Sorting.ByKey and Sorting.ByKeys: `ORDER BY` on text compares byte by byte. The tables' `utf8mb4_unicode_ci` collation ignores case, so `Baker` sorts after `adams` in the program but before it in the model. This affects `TrainerModel.GetActive`, `Helpers.Ranked`, `Helpers.SearchMembersByName` and `Helpers.SearchMembers`.
- Requests.DateColumn: only `Y-m-d` text is read as a date. MySQL also converts relaxed DATE literals such as `2024/01/05`, `2024-1-5` and `20240105`; the model treats them as refused, so an insert or update with one fails in the model where the program stores the day.
- Requests.ParseInt: an INT column or an `id = ?` comparison is read only from `-`? digits. MySQL also converts text such as ` 5`, `+5` and `5.0` to 5; the model treats it as refused.
- DATE-column comparisons with bound filter text (the `expiry_date` filter of `Member::search` and the `=`/`<=` conditions of `searchMembers`) compare the column's `Y-m-d` text with the bound text as characters. MySQL first converts the bound text to a date, so a text such as `2024-1-5` matches 2024-01-05 there but not in the model.
- MySQL's date functions are modelled only as day-number comparisons: `NOW()`, `DATE_ADD` in the expiring list and the statistics, and `YEARWEEK`/`MONTH` in the plan search's date ranges. The time of day and time zones are ignored.
- `strtotime` is modelled only for `Y-m-d` texts and for `+N months`. A date text that is not `Y-m-d` is the failure outcome in the model (see Requests.DateColumn above for what MySQL accepts instead). A result beyond year 9999 is the database's refusal.
- MembershipModel.Renewal and MembershipModel.RenewMembership: the month count is a natural number. `Membership.php` (line 95) and `MembershipController.php` (line 50) pass the raw POST value into the `strtotime` text. A negative or non-numeric count is not modelled; where `strtotime` cannot read the text it returns false, and `date` then stores 1970-01-01.
- Twig rendering, the HTML templates and everything the pages print are left out. `BaseController.View` stops at the data handed to the renderer.
- `filter_var(..., FILTER_VALIDATE_EMAIL)` is the parameter `isEmail`. `password_hash`, `password_verify` and `random_bytes` are left out; the random bytes are a parameter.
- Authentication.VerifyMeansEqual: `hash_equals` is modelled as plain equality; its constant running time is not captured.
- Requests.IntCast: the fraction and exponent forms are truncated exactly. PHP goes through a double, which rounds values beyond 2^53, and casts an infinite double (e.g. `1e400`) to 0 where the model saturates to the 64-bit bound. Hexadecimal, octal and binary prefixes are not numbers for PHP 8 `(int)` either, and read as 0 in both.
- Floating point is left out:
  - the float day count and `ceil` in the warning text of `validateMembership`, which the model counts in whole days;
  - `AVG` in the trainer workload statistics;
  - the `parseFloat` `min`/`max` checks of number fields in `app.js`, which are the field's `numberMessage`;
  - daylight-saving effects on a 86400-second day.
- AppJs.FieldMessage: the number-field checks are the input's `numberMessage` rather than `parseFloat` comparisons.
- Strings.Trim and AppJs.JsTrim: only ASCII white space is trimmed. Non-ASCII white space that JavaScript's `trim` removes is not, and strings are sequences of characters with no encoding. The `\s` of the e-mail and phone patterns in `app.js` is the same ASCII set.
- Routing.UrlPath: `parse_url` is modelled only as cutting at the first `?` or `#`. Its handling of schemes, hosts, `//` authorities and malformed targets (where it returns false) is left out.
- The DOM, animations, timers and `fetch` in `app.js` are left out: ripples, notifications, `AjaxHelper`, the overlay, the performance metrics, the standalone `validateField` helper and `responsive-sidebar.js`. The modal's delayed backdrop removal is only counted in `removalsScheduled`.
- AppJs.Modal: which backdrop a delayed removal takes is not modelled. In `app.js` (lines 74-82) the callback removes whatever backdrop the modal holds when the 150 ms delay ends. So `hide` followed by `show` within that delay removes the new backdrop, hides a modal that counts as shown, and leaves the old backdrop in the page. The model records only how many removals were scheduled.
- The thin controllers and endpoints are not part of this model:
  - the member, trainer, membership, dashboard and auth controllers;
  - the `show`/`edit`/`update`/`delete`/`create` actions of `WorkoutPlanController`;
  - `public/api/*.php`, `public/search.php`, `public/delete.php` and `tasks/setup_auth.php`.
- `Auth::requireLogin` is left out. The front controller's gate, which every protected page goes through, is modelled instead.
- Single-query lookups that decide nothing are the table functions `FindMember`, `FindTrainer`, `Filter` and `SortBy`, and are not modelled one by one:
  - `all`, `find`, `update`, `delete`, `getByMember`, `getByTrainer` and `getByMembershipType` in the models;
  - `getExpiringMemberships` and `getMembershipStats` in `Membership.php`;
  - `getWorkloadStats` in `Trainer.php`;
  - the `getAll*`/`get*ById` helpers and `formatDate` in `includes/functions.php`.
- The listing the procedural pages read again after an insert is not modelled: the JOINs with member and trainer names, and `workout_plans.php`'s list of plans.
- Concurrency is left out. There is no locking between the uniqueness check and the insert, or between two renewals.
- Helpers.SearchMembers and Helpers.SearchConditions: `searchMembers` builds its condition list by appending. The model states that list as a function, not as a loop.
