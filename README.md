# Task tracker core in Dafny

This project models the logic of a small task-tracking application (an
Express server over a Firestore database, with a React client) and proves
properties of that model. The five pieces modelled are:

- **Task endpoints and the statistics ledger** (`server/server.js`):
  - the create, status-change, full-update and delete handlers over in-memory
    `tasks` and `users` collections;
  - the per-user counters `tasksCreated`, `tasksAssigned` and `tasksCompleted`,
    which each handler changes through `updateUserStats(userId, statType)`.

  `TaskServer.TaskService` is a class holding both collections. It also holds
  a ghost trace of every statistics call in the order issued. Each handler
  states its response, the new task map, the new user map and the calls it
  made. The effect of a list of calls is the function `Ledger.ApplyCalls`,
  and `ServerProps` proves what each handler's calls do to one user's
  counters.
- **Client-side statistics and profiles** (`client/src/services/userService.js`):
  - the `created`/`assigned`/`completed` counts over the task collection;
  - the user list;
  - the create-or-touch and merge rules for user profiles.
- **The task list page** (`client/src/pages/TaskManager.js`):
  - search, status filter and stable sort by due date or status rank;
  - the checks before a task is added;
  - the list updates after a status change or a delete.
- **Security helpers** (`client/src/config/security.js`):
  - the password policy check;
  - `<`/`>` stripping;
  - recursive redaction of sensitive keys;
  - the per-identifier sliding-window rate limiter. Its closure `Map` is the
    `requests` field of `Security.RateLimiter`.
- **Monitoring bookkeeping** (`client/src/services/monitoringService.js`):
  - log redaction over a shallow copy;
  - the alert rule;
  - the `events` and `errorCount` state of the service.

  Everything the service hands to the console or the remote collector is
  recorded, in order, as a ghost output trace.

Inputs the code reads from its environment are parameters, and the model
cannot see their values:

- the current time, `now`;
- the verified caller (`ActingUser`);
- the id the store generates for a new task;
- the date parser (`parse`). It stands for the engine's
  `new Date(...).toISOString()` and is `None` where that throws.

JavaScript `undefined` fields are `Option` values. A string default written
`x || d` is `Text.Or`, which treats `""` as falsy.

Files (modules): `wrappers.dfy` (Wrappers), `text.dfy` (Text), `seqs.dfy`
(Seqs), `json.dfy` (Json), `entities.dfy` (Entities), `ledger.dfy` (Ledger),
`server.dfy` (TaskServer), `server_props.dfy` (ServerProps),
`user_service.dfy` (UserService), `task_manager.dfy` (TaskManager),
`security.dfy` (Security), `monitoring.dfy` (Monitoring).

## Model

| member | source | states |
|---|---|---|
| Ledger.Bump | server/server.js:118-139 | each stat kind changes only its own counter. 'created' and 'assigned' add 1. 'completed' adds 1 and sets `lastTaskCompletedAt`. 'uncompleted' subtracts 1 only while the counter is positive and leaves the timestamp alone |
| Ledger.ApplyStat | server/server.js:103-145 | a user with no document is left untouched. Otherwise only that user's `stats` (from all zeros when absent) and `updatedAt` change. No document appears or disappears |
| Ledger.ApplyCallsNonNegative | server/server.js:131-135 | no sequence of statistics calls drives any counter below zero |
| Ledger.ApplyCallsCounters | server/server.js:118-135 | over any sequence of calls, `tasksCreated` and `tasksAssigned` grow by exactly the number of calls of that kind naming the user. With no 'uncompleted' call in the sequence, `tasksCompleted` grows the same way |
| Ledger.UncompleteCounter | server/server.js:131-135 | 'uncompleted' calls lower `tasksCompleted` by one each, as long as the guard never stops a decrement |
| Ledger.ApplyCallsUntouched | server/server.js:103-110 | a user no call names keeps their document exactly |
| Ledger.ApplyCallsKeys | server/server.js:108 | statistics calls never add or remove a user document |
| Ledger.ApplyCallsConcat | server/server.js:189-196 | running two batches of calls one after the other equals running their concatenation |
| Ledger.CallsForCount | server/server.js:193-195 | a loop over a user list issues one call per occurrence, duplicates included, all of one kind |
| Ledger.CallsFor | server/server.js:193-195 | the loop over a user list issues one call of the given kind per entry, in list order |
| Entities.Snapshot | server/server.js:93-97 | the denormalised user copy keeps the uid and email, and its name is the user's name or, when that is missing or empty, the email |
| TaskServer.CreateISODate | server/server.js:75-86 | with a falsy time the date is parsed as `date + "T00:00:00"` (midnight); otherwise as `date + "T" + time`. An unparseable text gives no date |
| TaskServer.CreateCalls | server/server.js:188-196 | POST issues 'created' for the creator first, then one 'assigned' per entry of the assigned list, in order |
| TaskServer.Transition | server/server.js:264-273 | the per-assignee call is 'completed' exactly when the task enters Completed and 'uncompleted' exactly when it leaves it. It is never 'created' or 'assigned' |
| TaskServer.UsersToAdd | server/server.js:349 | exactly the new assignees that were not assigned before (membership both ways) |
| TaskServer.UsersRemoved | server/server.js:350 | exactly the previous assignees that are no longer assigned (membership both ways) |
| TaskServer.PutCalls | server/server.js:352-376 | the status loop's calls come first. With an unchanged status only the added-user calls are made, and with nobody added only the status calls |
| TaskServer.NewTask | server/server.js:160-183 | the stored task is stamped `createdAt` and `updatedAt` with the request's time. It has its status defaulted to 'Pending' and its description to ''. Its assigned list is the given list or empty, and `hasTime` is whether a time was given. Its log holds exactly one 'created' entry carrying the initial status and the assigned list |
| TaskServer.StatusCalls | server/server.js:259-276 | no call when the status is unchanged or moves between non-Completed states. Entering Completed gives one 'completed' call per assignee, and leaving it one 'uncompleted' call per assignee |
| TaskServer.AssignmentDiff | server/server.js:349-350 | the added and removed lists hold exactly the users on one side only, with their multiplicities. Nothing is added exactly when every new assignee was already assigned |
| TaskServer.AddedCallsCount | server/server.js:370-376 | each added user gets one 'assigned' call per occurrence, and as many 'completed' calls when the new status is Completed. No user gets an 'uncompleted' or 'created' call |
| TaskServer.Diff | server/server.js:383-396 | a field appears in `changes` exactly when its new value differs from the stored one. `assignedUsers` appears exactly when some user was added or removed |
| TaskServer.UpdatedTask | server/server.js:380-415 | the PUT document takes the new title, the description (default '') and status (default 'Pending'), the due date, `hasTime`, the new assigned list (default empty), `updatedAt` and `lastUpdatedBy`. It keeps the creation data. Its log keeps every earlier entry and gains exactly one 'updated' entry, whose changes are `Diff`: exactly the fields that changed |
| TaskServer.StoreKeepsLogs | server/server.js:279-292 | storing a document whose log extends the old one keeps every log well-formed and only growing |
| TaskServer.RemoveKeepsLogs | server/server.js:314-319 | removing a task keeps the logs of the other tasks well-formed and unchanged |
| TaskServer.TaskService.UpdateUserStats | server/server.js:103-145 | the user map becomes `ApplyStat` of the old one and exactly one call is recorded. The tasks are untouched |
| TaskServer.TaskService.CreateTask | server/server.js:148-206 | a missing title or due date answers 400 and so does an unparseable date, in both cases with nothing changed. Otherwise 201 with the new document. The calls are 'created' for the creator, then 'assigned' per assignee, and never 'completed'. Logs and counters stay valid |
| TaskServer.TaskService.AssignLoop | server/server.js:192-196 | the loop over the assigned list issues exactly `CallsFor(assignees, Assigned)` |
| TaskServer.TaskService.StatusLoop | server/server.js:262-273 | the status loop issues exactly `StatusCalls` over the given list |
| TaskServer.TaskService.AddedLoop | server/server.js:370-376 | the added-user loop issues 'assigned', then 'completed' when the status is Completed, per user in order |
| TaskServer.TaskService.UpdateStatus | server/server.js:244-301 | an invalid status answers 400 and an unknown id 404, both with nothing changed. Otherwise a `status_updated` entry is appended even when the status is the same, and only the transition's calls are made |
| TaskServer.TaskService.DeleteTask | server/server.js:304-325 | an unknown id answers 404 with nothing changed. Otherwise the task is removed and no user document or call changes |
| TaskServer.TaskService.PutStats | server/server.js:352-376 | PUT's calls are the status loop over the NEW assigned list, then the added-user loop. Counters stay non-negative |
| TaskServer.TaskService.UpdateTask | server/server.js:328-429 | missing fields answer 400 and an unknown id 404, both with nothing changed. Every statistics call happens before the date is parsed, so a bad date answers 400 with the counters changed and the tasks untouched. Otherwise the updated document is stored |
| ServerProps.CreateEffect | server/server.js:188-196 | create adds 1 to the creator's `tasksCreated` and one `tasksAssigned` per occurrence in the list. It never touches `tasksCompleted`, whatever the initial status |
| ServerProps.StatusNoEffect | server/server.js:259-276 | an unchanged status, or a move between Pending and In Progress, changes no user document |
| ServerProps.EnterCompletedEffect | server/server.js:265-268 | entering Completed adds one `tasksCompleted` per occurrence of the user and changes no other counter |
| ServerProps.LeaveCompletedEffect | server/server.js:270-273 | leaving Completed subtracts one `tasksCompleted` per occurrence of the user, given enough to subtract, and changes no other counter |
| ServerProps.CompleteThenReopen | server/server.js:259-276 | completing a task and moving it back returns all three counters to their start |
| ServerProps.PutCallsUsers | server/server.js:352-376 | every PUT call names a user on the new assigned list |
| ServerProps.PutRemovedUntouched | server/server.js:350-376 | a user removed from the task gets no call at all, so no counter of theirs goes down |
| ServerProps.PutAssignedEffect | server/server.js:352-376 | PUT adds to `tasksAssigned` only for users not assigned before, once per occurrence, and never touches `tasksCreated` |
| ServerProps.PutDoubleCount | server/server.js:356-376 | moving a task into Completed while adding a user gives that user two 'completed' calls per occurrence |
| ServerProps.AddedCallsEffect | server/server.js:370-376 | the added-user loop raises `tasksAssigned` per occurrence, and `tasksCompleted` likewise when the status is Completed |
| ServerProps.PutAddToCompletedTask | server/server.js:356-376 | adding a user to a task that stays Completed gives them +1 assigned and +1 completed per occurrence |
| UserService.Counts | client/src/services/userService.js:109-115 | completed ≤ assigned ≤ number of tasks, and created ≤ number of tasks |
| UserService.CountsSnoc | client/src/services/userService.js:110-114 | one more document adds one to exactly the counts whose conditions it meets. A document without `assignedUsers` adds nothing to assigned or completed |
| UserService.CountsPermutation | client/src/services/userService.js:101-115 | the counts do not depend on the order of the documents |
| UserService.GetUserTaskStats | client/src/services/userService.js:95-118 | the collect loop gathers every document once, in order, and the result is `Counts` of the snapshot |
| UserService.Entry | client/src/services/userService.js:81-85 | the entry keeps the id and email, and its name falls back to the email when empty |
| UserService.GetAllUsers | client/src/services/userService.js:75-93 | one entry per user document, in snapshot order |
| UserService.CreateUserProfile | client/src/services/userService.js:8-41 | a new uid gets name from the additional data, then `displayName`, then '', role 'user' by default, and no stats. An existing uid changes only `lastLogin` and `updatedAt` |
| UserService.SecondSignIn | client/src/services/userService.js:13-35 | a second sign-in keeps everything the first stored except the two timestamps |
| UserService.FreshProfileStartsFromZero | client/src/services/userService.js:15-23 | a new profile has no stats, so the server's ledger counts it from zero, and its role is never empty |
| UserService.Merge | client/src/services/userService.js:46-50 | a merge replaces exactly the fields the patch carries, plus `updatedAt` |
| UserService.UpdateUserProfile | client/src/services/userService.js:43-57 | fails exactly when the document does not exist. Otherwise it returns the patch with `updatedAt` and changes only that document |
| UserService.UpdateIdempotent | client/src/services/userService.js:43-57 | applying the same update twice stores what applying it once stores |
| TaskManager.BeforeDash | client/src/pages/TaskManager.js:57 | the field part of `sortBy` is the prefix before the first '-' |
| TaskManager.AfterDash | client/src/pages/TaskManager.js:57 | there is a rest exactly when `sortBy` contains a '-', and the prefix, the '-' and the rest rebuild `sortBy` |
| TaskManager.ParseSortByJoin | client/src/pages/TaskManager.js:57 | splitting `field-direction` gives back the field and the direction |
| TaskManager.ParseSortBy | client/src/pages/TaskManager.js:57 | the field is the text before the first '-', or all of `sortBy` without one. The direction is the '-'-free segment after that '-', running up to the next '-' or the end of `sortBy`, and absent exactly when `sortBy` has no '-' |
| TaskManager.SortKey | client/src/pages/TaskManager.js:56-73 | the comparator's key: the due date for 'dueDate-asc', its negation for any other dueDate direction, the status rank or its negation likewise for 'status', and 0 for every other field |
| TaskManager.StatusRank | client/src/pages/TaskManager.js:66 | Pending 1, In Progress 2, Completed 3, and 0 exactly for any other status |
| TaskManager.VisibleMembers | client/src/pages/TaskManager.js:41-53 | a task is visible exactly when it passes both the search and the status filter |
| TaskManager.FilterAndSortTasks | client/src/pages/TaskManager.js:37-76 | the result is a permutation of the tasks passing both filters and contains exactly those. It is sorted by the chosen key and stable for equal keys. An unknown field keeps the filtered order |
| TaskManager.DueDateOrder | client/src/pages/TaskManager.js:59-63 | 'dueDate-asc' gives non-decreasing due dates and any other direction non-increasing ones |
| TaskManager.StatusOrder | client/src/pages/TaskManager.js:65-70 | 'status-asc' orders Pending before In Progress before Completed, and any other direction reverses that |
| TaskManager.NoFilterShowsAll | client/src/pages/TaskManager.js:40-53 | a blank search with the 'All' filter shows every task in order |
| TaskManager.SearchIgnoresCase | client/src/pages/TaskManager.js:41-47 | an upper-case term finds a mixed-case title |
| TaskManager.SearchTermNotTrimmed | client/src/pages/TaskManager.js:40-47 | the term is trimmed only for the blank test, so " milk" does not match "Milk" |
| TaskManager.ValidateNewTask | client/src/pages/TaskManager.js:112-131 | adding is refused with 'Title is required' when the title trims to empty, then 'Due date is required' when the due date is empty, then 'Invalid date format'. It succeeds exactly when all three checks pass |
| TaskManager.ReplaceById | client/src/pages/TaskManager.js:163-165 | exactly the tasks with that id are replaced, and the others stay in place |
| TaskManager.RemoveById | client/src/pages/TaskManager.js:181 | exactly the tasks with that id are removed |
| TaskManager.RemoveAfterReplace | client/src/pages/TaskManager.js:163-181 | deleting after a status update equals deleting directly |
| TaskManager.RemoveIdempotent | client/src/pages/TaskManager.js:181 | deleting twice removes nothing more |
| TaskManager.RemoveAbsent | client/src/pages/TaskManager.js:181 | deleting an id no task carries changes nothing |
| Seqs.Filter | client/src/pages/TaskManager.js:43-53 | a filter keeps exactly the elements satisfying the predicate, and never lengthens its input |
| Seqs.SortByKeyCorrect | client/src/pages/TaskManager.js:56-75 | the sort orders by key, permutes its input, and keeps equal keys in their relative order |
| Seqs.ConstantKeyKeepsOrder | client/src/pages/TaskManager.js:72 | a comparator that always answers 0 leaves the list as it is |
| Security.FailedRulesInOrder | client/src/config/security.js:104-122 | the failed rules are the policy's rules filtered by failure: checked in the order length, uppercase, lowercase, number, special character, each at most once |
| Security.FailedRulesSpec | client/src/config/security.js:104-122 | a rule is reported exactly when it fails. There are at most five entries, and none exactly when all rules are met |
| Security.PasswordErrorsSpec | client/src/config/security.js:104-122 | a rule's message appears exactly when that rule fails. There are at most five messages, and none exactly when the password meets the whole policy |
| Security.MessagesMembership | client/src/config/security.js:105-121 | a message is listed exactly when its rule is |
| Security.ValidatePassword | client/src/config/security.js:100-128 | the errors are the messages of the failed rules in the fixed order length, uppercase, lowercase, number, special character, and `isValid` holds exactly when there are none |
| Security.PasswordExamples | client/src/config/security.js:104-122 | "Passw0rd!" passes every rule and the empty password fails all five |
| Security.StripAnglesSpec | client/src/config/security.js:130-133 | no `<` or `>` survives, the result is never longer, and every other character keeps its count |
| Security.StripAnglesIdempotent | client/src/config/security.js:130-133 | stripping twice is stripping once, and a string without brackets is unchanged |
| Security.StripAnglesConcat | client/src/config/security.js:132 | stripping works piece by piece, so the other characters keep their order |
| Security.SanitizeInput | client/src/config/security.js:130-133 | non-strings are returned unchanged and strings lose their angle brackets |
| Security.SanitizeField | client/src/config/security.js:144-154 | every key is kept. A key matching a sensitive field case-insensitively gets '[REDACTED]'. Any other key keeps its value recursively sanitized when `typeof` calls that value an object (arrays and null included), and passed through `sanitizeInput` otherwise |
| Security.SanitizeDataShape | client/src/config/security.js:136-158 | falsy input comes back unchanged, arrays keep their length element-wise, objects keep their length and key list with each field sanitized by `SanitizeField`, and other values are returned as they are |
| Security.SanitizeDataClean | client/src/config/security.js:143-155 | at every depth, a case-insensitively sensitive key holds '[REDACTED]' and no other object string keeps an angle bracket |
| Security.SanitizeDataIdempotent | client/src/config/security.js:136-158 | sanitizing sanitized data changes nothing |
| Security.SanitizeData | client/src/config/security.js:136-158 | the result is an object exactly when the input is, and an array exactly when the input is. Any other value, including a top-level string, is returned unchanged |
| Security.Recent | client/src/config/security.js:186-187 | exactly the stored timestamps strictly after `now - windowMs` are kept, and the list never grows |
| Security.RecentMultiset | client/src/config/security.js:187 | each in-window timestamp is kept as often as it is stored, so same-millisecond calls count separately, and no out-of-window one is kept |
| Security.RecentSnoc | client/src/config/security.js:187 | pruning an empty list gives nothing. Pruning a list extended by one time extends the pruned list by that time exactly when it is in the window, so the stored order is kept |
| Security.Check | client/src/config/security.js:176-193 | a first call is allowed and records `[now]`. With at least `maxRequests` recent entries the call is refused and nothing is stored. Otherwise the pruned list plus `now` is stored |
| Security.CheckBounded | client/src/config/security.js:175-193 | with `maxRequests ≥ 1`, no stored list ever exceeds `maxRequests` |
| Security.CheckIndependent | client/src/config/security.js:175-193 | a call never touches another identifier's list, and its verdict depends only on its own list |
| Security.CheckPrunes | client/src/config/security.js:185-192 | after an allowed later call, the stored list is the pruned old list (`Recent`, so in order and with each in-window time as often as before), then `now` |
| Security.ConfiguredLimit | client/src/config/security.js:32-35 | with the configured 15-minute window and limit of 100, no identifier ever stores more than 100 times, and one with 100 calls stored, all in the window, is refused |
| Security.RateLimiter.constructor | client/src/config/security.js:174-175 | the limiter starts with an empty map and the given window and limit. With a limit of at least 1 it is bounded from the start |
| Security.RateLimiter.CheckRateLimit | client/src/config/security.js:176-194 | the verdict and the new map are those of `Check`, and the bound is preserved |
| Monitoring.Spread | client/src/services/monitoringService.js:243 | `{...data}` copies an object's fields, gives an array's elements and a string's characters their index keys, and gives nothing for other values |
| Monitoring.SanitizeLogData | client/src/services/monitoringService.js:240-255 | the loop over the copy's keys computes `SanitizedLog`. The input value is never changed |
| Monitoring.SanitizedLog | client/src/services/monitoringService.js:240-255 | falsy data comes back unchanged, and anything else becomes an object with one entry per key of the spread copy |
| Monitoring.SanitizedLogShape | client/src/services/monitoringService.js:241-254 | falsy input is returned unchanged. Anything else becomes an object with the spread copy's keys, which are an object's own keys |
| Monitoring.SanitizedLogFields | client/src/services/monitoringService.js:244-251 | for an object input: a key is redacted exactly when its lower-cased form is listed. Other object values are sanitized in turn, and every other value is copied unchanged |
| Monitoring.ApiKeyNeverRedacted | client/src/services/monitoringService.js:245 | only the key is lower-cased and the list holds 'apiKey', so neither `apiKey` nor `apikey` is redacted, while `Password` and `TOKEN` are |
| Monitoring.ApiKeyNeverMatches | client/src/services/monitoringService.js:245 | no lower-cased key equals the list entry 'apiKey', so that entry never matches |
| Monitoring.IndexKeyNeverRedacted | client/src/services/monitoringService.js:243-246 | index keys are digits, so array and string entries are never redacted |
| Monitoring.SanitizedLogIdempotent | client/src/services/monitoringService.js:240-255 | sanitizing a sanitized log changes nothing |
| Monitoring.ShouldTriggerAlert | client/src/services/monitoringService.js:210-221 | 'failed_login' alerts from 10 errors on. 'error' compares the count with 0.05, so it alerts from the first error. Any other type alerts exactly when the severity is 'critical' |
| Monitoring.AlertRecord | client/src/services/monitoringService.js:224-230 | severity defaults to 'high' and details are sanitized |
| Monitoring.CountDetailsClean | client/src/services/monitoringService.js:133-136 | the `{errorCount}` details pass through the sanitizer unchanged |
| Monitoring.ThresholdAlertContents | client/src/services/monitoringService.js:132-137 | the threshold alert has type 'error_threshold_exceeded', the new count as details, and severity 'high' |
| Monitoring.DefaultSeverityNeverCritical | client/src/services/monitoringService.js:98-108 | an event whose severity was left out gets 'info', which never fires the default rule |
| Monitoring.MonitoringService.constructor | client/src/services/monitoringService.js:4-6 | the service starts with no events and a zero error count |
| Monitoring.MonitoringService.TriggerSecurityAlert | client/src/services/monitoringService.js:224-237 | exactly one alert record is emitted, and `events` and `errorCount` are unchanged |
| Monitoring.MonitoringService.LogSecurityEvent | client/src/services/monitoringService.js:94-117 | exactly one entry is appended to `events`, with severity defaulted to 'info' and details sanitized. When the rule fires, its alert is emitted before the event record |
| Monitoring.MonitoringService.LogError | client/src/services/monitoringService.js:120-144 | `errorCount` goes up by exactly one. From the tenth error on, every call emits a threshold alert with the new count before the error record, whose context is sanitized |

## Left out

- Server bootstrap (environment and credential loading, Firebase start-up, CORS, `listen`) and the `authenticateUser` token check: configuration and foreign calls. The verified caller is an input.
- `GET /api/tasks` and `GET /api/tasks/:id`: reads with no state change. Their store-side `orderBy('createdAt', 'desc')` is store behaviour.
- Date parsing and ISO formatting (`createISODate`, `new Date(...)`): library behaviour. They are an opaque `parse` function and a `now` string, and all timestamps of one request are the same `now`.
- The 500 paths, the `catch` inside `updateUserStats`: the store failing mid-request is outside the model.
- Firestore semantics: the collections are in-memory maps and the awaits are sequential steps. Read-modify-write races between concurrent `updateUserStats` calls are concurrency and are not modelled. `arrayUnion` is an append, since every entry carries a timestamp.
- Ledger.Bump: a stored `stats` object missing one counter (the `|| 0` defaults in server/server.js:122, 125, 128) is not represented. A user's stats are either absent as a whole (all zeros) or carry all three counters.
- Text.Lower: `toLowerCase` is modelled on ASCII letters only. The regex classes `[A-Z]`, `[a-z]` and `\d` are ASCII in the source too. String length counts `char`s, not UTF-16 code units.
- TaskManager.FilterAndSortTasks: the in-place `Array.prototype.sort` is modelled as a stable sort function on a sequence, not as an array update. A status with no rank gives `NaN` in the comparator, and the model ranks it 0. Due dates are integers (milliseconds).
- Json: an object is its list of own enumerable properties in order. Integer-like keys, which JavaScript enumerates first, and duplicate keys are not special-cased. Numbers are integers, and `NaN` is not modelled.
- ProfileModal's stats fallback, Register's password checks and the other UI components: rendering glue over the modelled functions.
- `maskSensitiveData` (regex replace), `generateSecureToken` (random source), `securityMiddleware` (Express glue that calls `checkRateLimit` and `sanitizeInput`): foreign calls or glue.
- The `preventCommonPasswords` flag: set in the configuration, but `validatePassword` never reads it.
- The monitoring service's window listeners, `fetch` wrapping, Performance API, `logPerformance` and `performanceMetrics`, `logNetworkRequest`/`logNetworkError`, `sanitizeUrl` and `sendToMonitoringService`: browser APIs, floating point, the URL library and the network. What would be sent is recorded in the ghost `emitted` trace, whatever the environment.
- Security.RateLimiter.CheckRateLimit: `Date.now()` is a parameter, and the window and limit are constructor arguments. The configured values are `Security.WindowMs` and `Security.MaxRequests`.
- POST /api/tasks calls `updateUserStats` only with 'created' (server/server.js:189) and 'assigned' (server/server.js:194). A task created with status Completed therefore never bumps `tasksCompleted`, and `ServerProps.CreateEffect` proves this.
