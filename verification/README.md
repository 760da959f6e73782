# Job scheduler dashboard — a Dafny model

This project models the core of a small job-scheduling web application in Dafny. The application has two halves:

- An Express/Mongoose back end stores jobs and serves four operations:
  - create a job (a Joi-validated body with `task_name`, `priority` and `payload`);
  - list jobs, with paging, a priority filter, a status filter and a case-insensitive search on the task name;
  - fetch one job by id;
  - run a job. Running sets it to `running`, then later to `completed`, then posts a webhook.

  A dashboard endpoint groups the jobs by status and counts them.
- A React front end shows these jobs. The modelled parts are:
  - the pagination bar;
  - the sanitising, debounced search box;
  - the URL it builds for the list request;
  - the optimistic counters it keeps while a job runs and is polled;
  - the create-job form;
  - the date formatter.

Every operation is a pure function over immutable data. The job collection is a `Store`: a sequence of jobs in insertion order whose ids strictly increase (MongoDB ObjectIds grow with creation time). So "sort by `_id` descending" is the reverse of the filtered sequence. HTTP replies are a `Response` datatype: `Success(code, message, data)` or `Failure(code, message)`.

Modules, following the program's structure:

| module | models |
|---|---|
| `Wrappers` | `Option` and `Result` |
| `Json` | request bodies and payload values (`Value`) |
| `JsText` | JavaScript `trim` (the full ECMAScript whitespace set), `toLowerCase` on ASCII letters, and substring search |
| `Numerals` | `String(n)` and `parseInt` (leading whitespace, sign, `0x` prefix, digit prefix) |
| `JobModel` | the Mongoose job schema: trimming, lower-casing, enum checks, defaults, required fields, timestamps. It also holds the store's `findById`, `save` and insert. |
| `CreateValidator` | the Joi create schema, including the order in which Joi reports errors |
| `JobController` | `createJob`, `getAllJobs`, `getJobById`, `runJobById` |
| `DashController` | `getDashboard` |
| `Pagination` | `PaginationTool` |
| `SearchQuery` | the search box and the `useDebounce` hook |
| `DateFormat` | `dateFormat` |
| `DashboardPage` | the list URL and what the browser's URL parser does to it, and the run and poll handlers of the dashboard page |
| `JobForm` | the yup form schema and the create handler |
| `EndToEnd` | the dashboard's select options and search box, traced through the URL into `getAllJobs` |

Behaviours of the code that the model keeps as written:

- **Create:**
  - `"a   "` passes Joi's three-character minimum, then Mongoose stores it as `"a"`.
  - A name of only blanks passes Joi but fails Mongoose's `required`, so the reply is 500, not 400.
  - A `null` payload also passes Joi and fails in Mongoose.
- **Priority errors:** Joi checks `valid(...)` before the string type. So the "cannot be an empty" and "should be a type of string" priority messages are never reported. Every present, non-listed priority gets "must be low, medium, or high".
- **Unknown keys:** Joi reports the unknown key that `Object.keys` lists first. Array-index keys such as `"5"` come before all other keys, in numeric order, so `{..., "x": 1, "5": 2}` is refused with `"5" is not allowed`.
- **Tabs in the search:** the search box keeps tabs, but the browser deletes tabs and newlines from a URL. `a<tab>b` reaches the server as `ab` and is refused as too short.
- **Status filter:** the list endpoint rejects `status=failed`, although `failed` is a status the schema stores.
- **Paging:**
  - `page=0` and a non-numeric page both fall back to page 1.
  - A negative page gives a negative skip, and the request fails with 500.
  - `totalPages` is `Math.ceil(total / limit)` for either sign of `limit`.
- **Form message:** the form's task-name rule allows 30 characters but its message says "at most 20".
- **Double run:** running the same job twice before it completes leaves the page's counters off by one after the poll.

## Model

| member | source | states |
|---|---|---|
| JsText.Trim | backend/controllers/job.controller.js:55-57 | the result is the input with its leading and trailing whitespace removed; it neither starts nor ends with whitespace |
| JsText.TrimIdempotent | backend/model/jon.model.js:4-8 | trimming an already trimmed name changes nothing |
| JsText.TrimAppendBlank | backend/controllers/job.controller.js:55-57 | whitespace appended to a text does not change its trim |
| JsText.TrimEmptyIff | backend/model/jon.model.js:4-8 | a name trims to empty exactly when every character is whitespace, which is when Mongoose's `required` fails after `trim` |
| JsText.ToLower | backend/controllers/job.controller.js:55-57 | lower-casing keeps the length and maps each upper-case ASCII letter to its lower-case letter, leaving other characters alone |
| JsText.ToLowerOfLower | backend/controllers/job.controller.js:55-57 | lower-casing text that has no upper-case letter returns it unchanged |
| JsText.ContainsIgnoreCase | backend/controllers/job.controller.js:93 | the case-insensitive search matches exactly when the lower-cased needle occurs at some position of the lower-cased task name |
| Numerals.NatToString | frontend/src/utils/helper.js:7-11 | `String(n)` of a natural number is a non-empty string of decimal digits with no leading zero |
| Numerals.NatToStringRoundTrip | frontend/src/utils/helper.js:7-11 | the decimal value of `String(n)` is `n` |
| Numerals.IntToStringParses | backend/controllers/job.controller.js:47-48 | `ParseInt(IntToString(i))`, the model of `parseInt(String(i))`, is `i` for every integer, negative ones included |
| Numerals.ParseIntNoDigits | backend/controllers/job.controller.js:47-48 | `ParseInt` of a text with no digit is NaN (`None`), so the `\|\| 1` default applies |
| Numerals.ParseIntNegative | backend/controllers/job.controller.js:47-48 | a minus sign followed by digits parses to the negated decimal value |
| JobModel.ParsePriority | backend/model/jon.model.js:9-15 | a priority text is accepted exactly when it is one of the three enum names, and it yields that priority |
| JobModel.ParseStatus | backend/model/jon.model.js:16-22 | a status text is accepted exactly when it is one of the four enum names, and it yields that status |
| JobModel.NewDocument | backend/model/jon.model.js:3-35 | the document is built exactly when four checks pass: the trimmed name is non-empty, the lower-cased (or defaulted) priority and status are enum values, and the payload is present and not null. Its fields are the trimmed name, the lower-cased enums and both timestamps set to now. On failure the error names exactly the failing paths. |
| JobModel.DefaultsApply | backend/model/jon.model.js:13-20 | without a priority or status the document is `medium` and `pending` |
| JobModel.EnumsIgnoreCase | backend/model/jon.model.js:14-21 | the priority and status are accepted in any letter case and stored as the lower-case enum value |
| JobModel.StoredNameIsTrimmed | backend/model/jon.model.js:4-8 | a stored task name is non-empty and already trimmed |
| JobModel.FindById | backend/controllers/job.controller.js:133 | `findById` finds a job exactly when the store holds one with that id; in a valid store that is the only such job |
| JobModel.Insert | backend/controllers/job.controller.js:25 | saving a new document appends it and keeps ids unique and increasing |
| JobModel.SetStatus | backend/controllers/job.controller.js:177-188 | changing the status changes only the status, plus `updatedAt` when the value really changes (Mongoose timestamps) |
| JobModel.SaveStatus | backend/controllers/job.controller.js:178 | `save()` rewrites only the document with that id, leaves the store unchanged when the status is unchanged, and keeps the store valid |
| CreateValidator.Lookup | backend/validators/create.validator.js:3 | a body field is found exactly when a pair with that key is present |
| CreateValidator.FirstUnknownAt | backend/validators/create.validator.js:3-31 | the position of the first body key outside the schema, in insertion order: every earlier key is a schema key |
| CreateValidator.LeastIndexAt | backend/validators/create.validator.js:3-31 | the position of the array-index key (a canonical decimal below 2^32-1) with the least value, or none exactly when no key of the body is an array index |
| CreateValidator.FirstReportedKey | backend/validators/create.validator.js:3-31 | the key reported is an unknown body key that `Object.keys` lists first: the least array-index key when there is one, otherwise the first unknown key in insertion order |
| CreateValidator.Assign | backend/app.js:23 | assigning a key makes it hold the new value and leaves every other key as it was |
| CreateValidator.ObjectOfLookup | backend/app.js:23 | a key repeated in a JSON object literal holds the value of its last occurrence in the parsed object |
| CreateValidator.ObjectOfMissing | backend/app.js:23 | a key absent from the literal is absent from the parsed object |
| CreateValidator.ObjectOfDistinct | backend/app.js:23 | a literal without repeated keys parses to its own members in their order |
| CreateValidator.ValidateValue | backend/validators/create.validator.js:3 | any body that is not an object is refused with `"value" must be of type object`; an object body is validated as `JSON.parse` built it |
| CreateValidator.ArrayBodyRefused | backend/validators/create.validator.js:3 | an array body, which `express.json()` accepts, is refused as not an object |
| CreateValidator.RepeatedKeyLastWins | backend/validators/create.validator.js:16-25 | with `priority` given twice, the last value `low` is the one validated |
| CreateValidator.Validate | backend/validators/create.validator.js:3-31 | the body is accepted exactly when all three rules hold and it has no unknown key. The accepted request carries the body's own name, priority and payload. |
| CreateValidator.ReportsFirstFailure | backend/controllers/job.controller.js:8-10 | errors are reported in order: the task name's error first, then the priority's, then the missing payload, then an unknown key. Once the three rules pass, the body is refused exactly when it has an unknown key, and the key named is the first in `Object.keys` order. |
| CreateValidator.TaskNameRule | backend/validators/create.validator.js:4-15 | the name passes exactly when it is a string of 3 to 150 characters. The empty, short, long and non-string cases get their own messages. |
| CreateValidator.PriorityTypeMessagesNeverReported | backend/validators/create.validator.js:16-25 | the priority's "empty" and "not a string" messages are never the reported error |
| CreateValidator.EmptyPriorityExample | backend/validators/create.validator.js:16-25 | an empty priority is reported as "must be low, medium, or high" |
| CreateValidator.IndexKeyFirstExample | backend/validators/create.validator.js:3-31 | a body with unknown keys `x` then `5` is refused with `"5" is not allowed`, because array-index keys come first |
| CreateValidator.UnknownKeyExample | backend/validators/create.validator.js:3-31 | a body with a `status` key is rejected with `"status" is not allowed` |
| JobController.CreateJobRequest | backend/controllers/job.controller.js:7-43 | for any parsed body, a body the schema refuses (a non-object among them) gives 400 with its message and leaves the store alone; a created job is appended as `pending` with the validated fields, and the store stays valid |
| JobController.CreateJob | backend/controllers/job.controller.js:7-43 | an invalid body gives 400 with the validator's message and leaves the store alone. A created job is appended with status `pending`, the trimmed name, the requested priority and payload, and a fresh id, under 201. The store stays valid. |
| JobController.PendingDocument | backend/controllers/job.controller.js:17-22 | the created document is accepted exactly when the trimmed name is non-empty and the payload is not null |
| JobController.CreatedIdIsFresh | backend/controllers/job.controller.js:25-30 | the id of a created job was not in the store before |
| JobController.CreateServerErrors | backend/controllers/job.controller.js:40-42 | a body the validator accepts still fails with 500, store unchanged, exactly when its name is only blanks or its payload is null |
| JobController.StoredNameShorterThanMinimum | backend/controllers/job.controller.js:14-25 | `"a   "` is accepted and stored as the one-character name `"a"` |
| JobController.PaddedNameAccepted | backend/validators/create.validator.js:4-15 | Joi accepts `"a   "` as a task name |
| JobController.NumberOr | backend/controllers/job.controller.js:47-48 | the `parseInt(x) \|\| d` default never yields 0 when the default is non-zero |
| JobController.PagingDefaults | backend/controllers/job.controller.js:47-48 | missing, `"0"` and non-numeric values give page 1 and limit 10; any non-zero number is read back as itself |
| JobController.PriorityFilter | backend/controllers/job.controller.js:67-74 | after trimming and lower-casing, an empty priority means no filter, a listed one filters by it, and anything else is "Invalid priority" |
| JobController.StatusFilter | backend/controllers/job.controller.js:77-84 | the same for status. Only `pending`, `running` and `completed` are accepted, so the filter is never `failed`. |
| JobController.SearchFilter | backend/controllers/job.controller.js:87-94 | an empty normalised search means no filter; a search of fewer than 3 characters is an error; a longer one is kept in its normalised form |
| JobController.ParseFilter | backend/controllers/job.controller.js:51-94 | the filter is built exactly when the priority, status and search parts are all valid, and it is made of those parts. Otherwise the error is one of their three messages. |
| JobController.PriorityFilterNormalised | backend/controllers/job.controller.js:55-73 | a priority in any case, with surrounding blanks, filters by that priority |
| JobController.InvalidPriorityRejected | backend/controllers/job.controller.js:67-72 | an unknown priority gives 400 "Invalid priority" |
| JobController.InvalidStatusRejected | backend/controllers/job.controller.js:77-82 | an unknown status gives 400 "Invalid status" once the priority is valid |
| JobController.FailedStatusRejected | backend/controllers/job.controller.js:60 | listing with `status=failed` is rejected with 400 |
| JobController.SearchTermRule | backend/controllers/job.controller.js:87-93 | with no other filter, the search is absent, too short (400) or kept, according to its normalised length |
| JobController.Matching | backend/controllers/job.controller.js:98 | `find(filter)` returns exactly the stored jobs that match the filter |
| JobController.MatchingKeepsOrder | backend/controllers/job.controller.js:98-99 | filtering keeps ids increasing |
| JobController.NewestFirst | backend/controllers/job.controller.js:99 | reversing the increasing-id sequence sorts by id descending |
| JobController.Window | backend/controllers/job.controller.js:100-101 | `skip` then `limit` gives the slice starting at the skip. Its length is at most the absolute limit, and exactly that when enough items remain. |
| JobController.CeilDiv | backend/controllers/job.controller.js:111 | `Math.ceil(total / limit)` is the least multiplier covering the total (positive limit), or the greatest (negative limit) |
| JobController.ListPageOf | backend/controllers/job.controller.js:97-118 | the query fails with 500 exactly when the skip is negative. Otherwise the reply has the page, the limit, the number of matches as the total, and the rounded-up page count. |
| JobController.GetAllJobs | backend/controllers/job.controller.js:46-120 | a bad filter gives 400 with its message; otherwise the reply is the page of matches for the parsed page and limit |
| JobController.PageContents | backend/controllers/job.controller.js:97-113 | a listed page holds only stored matching jobs, newest first, and at most the limit of them |
| JobController.ListedJobsAreNewestMatches | backend/controllers/job.controller.js:46-120 | every job on a listed page matches the filter and is in the store. The page is sorted newest first and never exceeds the limit, and the total counts every match. |
| JobController.EveryMatchOnItsPage | backend/controllers/job.controller.js:47-113 | the i-th job of page m+1 is match m*limit+i in newest-first order, and that page is within `totalPages` |
| JobController.GetJobById | backend/controllers/job.controller.js:122-152 | a malformed id gives 400 and an unknown id gives 404. A well-formed id of a stored job gives 200 with the stored job of that id, and a success happens only then. |
| JobController.RunStart | backend/controllers/job.controller.js:155-181 | a malformed id gives 400, and an unknown one gives 404 with the store unchanged. A known id is answered 200 "Job is running" with the job now `running`. |
| JobController.RunFinish | backend/controllers/job.controller.js:186-213 | a webhook is sent only to a set, non-empty URL. It carries the job's id, name and priority and the completion time. |
| JobController.RunJob | backend/controllers/job.controller.js:155-230 | a rejected run changes nothing and sends nothing; a run keeps the store valid at both saves |
| JobController.RunTransitions | backend/controllers/job.controller.js:176-188 | running a stored job makes it `running`, then `completed` with the finish time; every other job is untouched |
| JobController.RunWebhook | backend/controllers/job.controller.js:190-213 | the webhook is sent exactly when the URL is set and non-empty and the payload snapshot succeeds. An object payload is passed through unchanged. |
| JobController.RunRejects | backend/controllers/job.controller.js:159-174 | a malformed or unknown id gives 400 or 404, leaves the store unchanged and sends no webhook |
| DashController.SetCounter | backend/controllers/dash.controller.js:26 | `stats[status] = count` changes only that status's counter |
| DashController.ApplyRowsEffect | backend/controllers/dash.controller.js:24-28 | after the loop, the total grows by the sum of the rows. Each status present in the rows has its row's count, and each absent one keeps its old value. |
| DashController.CountsCoverJobs | backend/controllers/dash.controller.js:6-13 | the four status counts of a job list add up to its length |
| DashController.DashboardCounts | backend/controllers/dash.controller.js:4-33 | for rows that group the jobs by status, `GetDashboard(rows)` gives counters where each counter is that status's job count and the total is the number of jobs and the sum of the four counters |
| Pagination.Controls | frontend/src/components/PaginationTool.jsx:11-135 | the bar has 3 to 9 controls, Previous first and Next last. Previous targets page-1 exactly when page > 1, and Next targets page+1 exactly when page < totalPages. |
| Pagination.BarNumbers | frontend/src/components/PaginationTool.jsx:31-115 | the page numbers shown are, in order: 1 if page > 2, page-1 if page > 1, page, page+1 if page < totalPages, and totalPages if page < totalPages-1 |
| Pagination.CurrentIsActive | frontend/src/components/PaginationTool.jsx:69-77 | the current page is shown, and it is the only active link. Active links have no target, and every other link targets its own number. |
| Pagination.NeighbourLinks | frontend/src/components/PaginationTool.jsx:51-95 | page-1 is shown exactly when page > 1, and page+1 exactly when page < totalPages |
| Pagination.EdgeBlocks | frontend/src/components/PaginationTool.jsx:31-115 | an ellipsis appears before the current page exactly when page > 3, and after it exactly when page < totalPages-2. Page 1 and the last page sit next to Previous and Next when shown. |
| Pagination.NumbersWindow | frontend/src/components/PaginationTool.jsx:31-115 | for an in-range page, a number is shown exactly when it is 1, the last page, or within one of the current page |
| Pagination.NumbersIncreasing | frontend/src/components/PaginationTool.jsx:31-115 | for an in-range page the shown numbers are in range and strictly increasing |
| Pagination.EllipsisMarksGap | frontend/src/components/PaginationTool.jsx:47-100 | adjacent links are consecutive pages, and an ellipsis always sits between two links whose pages differ by at least two |
| SearchQuery.StripDisallowed | frontend/src/components/SearchQuery.jsx:18 | the replacement keeps only letters, digits and whitespace |
| SearchQuery.StripKeepsAllowed | frontend/src/components/SearchQuery.jsx:18 | every allowed character keeps its number of occurrences, and every other character is removed |
| SearchQuery.StripIsSubsequence | frontend/src/components/SearchQuery.jsx:18 | the result is a subsequence of the input |
| SearchQuery.StripIdempotent | frontend/src/components/SearchQuery.jsx:18 | stripping twice is stripping once |
| SearchQuery.Sanitize | frontend/src/components/SearchQuery.jsx:16-19 | the sanitised value is no longer than the typed one and holds only allowed characters |
| SearchQuery.SanitizeIsSubsequence | frontend/src/components/SearchQuery.jsx:16-19 | the sanitised value is a subsequence of the typed one |
| SearchQuery.SanitizeExposesWhitespace | frontend/src/components/SearchQuery.jsx:17-18 | trimming before stripping can leave a leading blank (`"! a"` becomes `" a"`), so sanitising is not idempotent |
| SearchQuery.OnChange | frontend/src/components/SearchQuery.jsx:16-23 | typing shows the sanitised value and schedules it, without touching the applied query |
| SearchQuery.Fire | frontend/src/hook/debounce.js:11-13 | when the timer fires, the scheduled value becomes the query and nothing stays scheduled |
| SearchQuery.Clear | frontend/src/components/SearchQuery.jsx:25-29 | clearing empties the input and the query and schedules the empty query |
| SearchQuery.ChangeSettles | frontend/src/hook/debounce.js:3-15 | after one change and the timer, the query equals the input, the sanitised text |
| SearchQuery.LastChangeWins | frontend/src/hook/debounce.js:7-9 | of two changes within the delay only the last reaches the query |
| SearchQuery.ClearWins | frontend/src/components/SearchQuery.jsx:25-29 | a clear after a change leaves an empty query, both at once and after the timer fires |
| DateFormat.PadStart2 | frontend/src/utils/helper.js:7-11 | `padStart(2, "0")` leaves texts of two or more characters alone and left-pads shorter ones with zeros |
| DateFormat.TwoDigitsParse | frontend/src/utils/helper.js:7-11 | a padded number below 100 reads back as itself |
| DateFormat.Hour12 | frontend/src/utils/helper.js:14 | `hours % 12 \|\| 12` is between 1 and 12 and agrees with the hour modulo 12 |
| DateFormat.ClockRoundTrip | frontend/src/utils/helper.js:10-14 | the 12-hour clock with its AM/PM marker determines the 24-hour hour. AM means before noon, and midnight and noon show as 12. |
| DateFormat.FormatDate | frontend/src/utils/helper.js:1-17 | the result is empty exactly for a falsy date, an unparseable date gives the NaN text, and a valid date's text reads back as exactly its date fields |
| DateFormat.DisplayRoundTrip | frontend/src/utils/helper.js:4-16 | the text `Display(f)` renders can be read back into exactly the date fields `f` it was made from |
| DashboardPage.RequestUrlRendersParams | frontend/src/pages/Dashboard.jsx:73-80 | `RequestUrl`, which `ListUrl` calls with the search when non-empty and each filter when not "all", is the list path followed by page, limit, then query, status and priority when they are set |
| DashboardPage.QueryParamsRoundTrip | frontend/src/pages/Dashboard.jsx:73-80 | reading the query string of a rendered URL returns the rendered parameters |
| DashboardPage.RequestUrlRoundTrip | frontend/src/pages/Dashboard.jsx:73-80 | for values that need no escaping, reading the query string of the URL gives back exactly the page's parameters |
| DashboardPage.ParamsQuery | backend/controllers/job.controller.js:47-53 | the server's query object has page and limit as decimal texts, and each of query, status and priority exactly when it was sent |
| DashboardPage.DropTabsNewlines | frontend/src/utils/fetch.js:13-16 | the browser's removal of tabs and newlines leaves none, never lengthens the text, and leaves a text without them unchanged |
| DashboardPage.TrimC0End | frontend/src/utils/fetch.js:13-16 | stripping the end of the URL keeps a prefix, drops only C0 controls and spaces, and stops at a visible character |
| DashboardPage.DropAppend | frontend/src/utils/fetch.js:13-16 | removing tabs and newlines from two joined texts is removing them from each |
| DashboardPage.TrimC0EndAppend | frontend/src/utils/fetch.js:13-16 | stripping the end of `a + b` stays within `b` when `a` ends in a visible character |
| DashboardPage.TrimRequestUrl | frontend/src/pages/Dashboard.jsx:73-80 | stripping the end of the list URL strips only the last value present |
| DashboardPage.DropRequestUrl | frontend/src/pages/Dashboard.jsx:73-80 | removing tabs and newlines from the list URL removes them from each value and nowhere else |
| DashboardPage.TransmitRequestUrl | frontend/src/utils/fetch.js:13-16 | the URL the browser sends is the list URL of the delivered values: each value without tabs and newlines, the last one also without its trailing controls and spaces |
| DashboardPage.ListRequestQuery | frontend/src/pages/Dashboard.jsx:73-84 | for texts that need no escaping, the server sees page and limit as sent, the search only when non-empty and a filter only when it is not "all", each as the browser delivers it |
| DashboardPage.MarkStatus | frontend/src/pages/Dashboard.jsx:131-133 | exactly the rows with that id get the new status |
| DashboardPage.StartRun | frontend/src/pages/Dashboard.jsx:114-123 | a missing id gives the "Job id is required" toast and changes nothing. Otherwise the id is queued and one job moves from pending to running in the counters; the total, completed and failed counters are unchanged. |
| DashboardPage.ApplyRunReply | frontend/src/pages/Dashboard.jsx:130-136 | only a "Job is running" reply marks the row running; nothing else changes |
| DashboardPage.Without | frontend/src/pages/Dashboard.jsx:149 | the filter removes every occurrence of the given id and keeps every other id as often as it was queued |
| DashboardPage.WithoutAppend | frontend/src/pages/Dashboard.jsx:149 | the filter works element by element, so the kept ids stay in their queued order and the next poll takes the first of them |
| DashboardPage.PollTick | frontend/src/pages/Dashboard.jsx:143-169 | with nothing queued the page does not poll. A poll keeps the total and the sum of the counters. |
| DashboardPage.PollCompletes | frontend/src/pages/Dashboard.jsx:146-154 | a "completed" reply removes the first queued id everywhere in the queue, marks its rows completed and moves one count from running to completed |
| DashboardPage.PollWaits | frontend/src/pages/Dashboard.jsx:147-157 | any other reply leaves the page state unchanged |
| DashboardPage.RunEndsCompleted | backend/controllers/job.controller.js:176-188 | a run of a stored job is answered "Job is running", and the job then fetches as `completed` |
| DashboardPage.RunThenPoll | frontend/src/pages/Dashboard.jsx:114-169 | starting a run, then polling the finished job, empties the queue and moves one count from pending to completed |
| DashboardPage.RejectedRunKept | frontend/src/pages/Dashboard.jsx:120-136 | a rejected run still leaves the id queued and the counters moved |
| DashboardPage.DoubleRunDrift | frontend/src/pages/Dashboard.jsx:114-153 | running one job twice then polling it empties the queue but leaves running one too high and pending two lower |
| JobForm.TaskNameCheck | frontend/src/components/JobForm.jsx:12-16 | a name passes exactly when it has 3 to 30 characters |
| JobForm.PriorityCheck | frontend/src/components/JobForm.jsx:17 | the priority passes exactly when one is chosen |
| JobForm.PayloadCheck | frontend/src/components/JobForm.jsx:18-25 | the payload passes exactly when it is non-empty and parses as JSON |
| JobForm.CheckForm | frontend/src/components/JobForm.jsx:11-26 | the form submits exactly when all three checks pass; otherwise each field carries its own error |
| JobForm.MaxMessageMismatch | frontend/src/components/JobForm.jsx:16 | a 25-character name is accepted, although the message says 20 is the maximum; 31 characters get that message |
| JobForm.EmptyNameMessage | frontend/src/components/JobForm.jsx:14 | an empty name gets "Task name is required" |
| JobForm.RequestBody | frontend/src/components/JobForm.jsx:43-46 | the posted body carries the name, priority and payload text of the form |
| JobForm.SubmittedBodyValidates | backend/validators/create.validator.js:3-31 | every body the form submits passes the server's Joi schema, as the same request |
| JobForm.SubmittedFormStored | backend/controllers/job.controller.js:7-43 | a submitted form creates a pending job exactly when its name is not all blanks; otherwise the reply is 500 |
| JobForm.OnCreateReply | frontend/src/components/JobForm.jsx:48-59 | a "Job created successfully" reply puts the new job first, drops the last row (the list keeps its length unless it was empty) and adds one to total and pending; any other reply changes nothing |
| JobForm.CreateKeepsTotal | frontend/src/context/JobsContext.jsx:13-19 | creating keeps the total equal to the sum of the status counters |
| JobForm.RunAndPollKeepTotal | frontend/src/pages/Dashboard.jsx:120-153 | starting a run and polling keep the total equal to the sum of the status counters |
| JobForm.CreatedJobListedFirst | frontend/src/components/JobForm.jsx:39-55 | a valid form with a real name is stored at the end of the store and shown first on the page, with pending increased |
| EndToEnd.OptionsAreChoices | frontend/src/pages/Dashboard.jsx:218-229 | the status and priority options are "all" followed by each enum value |
| EndToEnd.SanitizedIsPlain | frontend/src/components/SearchQuery.jsx:18 | a sanitised search never contains `&`, `#`, `%` or `+`, the characters that would change the meaning of the URL |
| EndToEnd.StatusOptionRead | frontend/src/pages/Dashboard.jsx:218-223 | each offered status option other than "all" is read by the server as that status |
| EndToEnd.PriorityOptionRead | frontend/src/pages/Dashboard.jsx:224-229 | each priority option other than "all" is read by the server as that priority |
| EndToEnd.SentFilter | backend/controllers/job.controller.js:51-94 | the filter the server builds from the dashboard's request is exactly the chosen options and the search as the browser delivers it. It fails only for a delivered search of 1 or 2 characters after trimming. |
| EndToEnd.SentListing | backend/controllers/job.controller.js:46-113 | the server answers the dashboard's request with the requested page and limit and the number of jobs that match the chosen options, or 400 for a too-short search |
| EndToEnd.StatusTextSent | frontend/src/pages/Dashboard.jsx:218-223 | the browser delivers every status option text unchanged |
| EndToEnd.PriorityTextSent | frontend/src/pages/Dashboard.jsx:224-229 | the browser delivers every priority option text unchanged |
| EndToEnd.DeliveredTrim | backend/controllers/job.controller.js:55-57 | for a sanitised search, stripping its trailing controls in the browser does not change what the server's `trim` keeps |
| EndToEnd.PageSendsSentQuery | frontend/src/pages/Dashboard.jsx:73-84 | the query the server reads from the URL the browser sends carries page, limit, the chosen options and the delivered search |
| EndToEnd.DashboardListing | frontend/src/pages/Dashboard.jsx:70-99 | whatever the user types and picks, `ListRequest` (the page's request answered by `getAllJobs`) gives the listing that is the matches of the chosen options and of the sanitised search once the browser has dropped its tabs and newlines, or 400 when that search trims to 1 or 2 characters |
| EndToEnd.TypedTabExample | frontend/src/pages/Dashboard.jsx:73-76 | `a<tab>b` passes the search box but the server sees `ab` and refuses it with 400 |

## Left out

- A request without a JSON body is not modelled: what `req.body` is then depends on the Express version. Bodies that `express.json()` itself refuses (malformed JSON, a top-level scalar in strict mode) never reach the controller.
- I/O is not modelled: database access, HTTP transport, timers, `fetch`, toasts, console logging and React rendering. Replies and store states are values. The webhook is a value the run returns, not a network call.
- `runJobById` is one atomic step from a store to a trace of its two saves. The three-second wait is not modelled, and neither is concurrency with other requests. A concurrent change between the two saves is not modelled.
- `runJobById` replies with only the job id; the model's reply carries the running document, whose id is that id.
- The server's catch paths for `getJobById` and `runJobById` (500 on a database error) are not modelled, because the model has no failing database.
- The exact text of Mongoose validation errors is abstracted as one constant message. The failing paths are modelled. The database server's error for a negative skip is likewise abstracted as one constant message (`NegativeSkipMessage`); the 500 status is modelled.
- ObjectId parsing is abstracted as an `IdParam` value (well-formed id or malformed).
- The clock is a parameter: `now`, the start and finish times, and the ISO completion time.
- `JSON.parse` is a parameter: the form's JSON check, and the webhook's parse of a string payload.
- Text is a sequence of Unicode code points, while JavaScript's `length` counts UTF-16 code units. A character outside the Basic Multilingual Plane counts once here and twice in JavaScript, so the length rules (Joi's 3 to 150, the form's 3 to 30, the search's minimum of 3) can differ for such text.
- Whitespace is the full ECMAScript set. Case mapping and the search box's `a-zA-Z0-9` class are ASCII only; there is no Unicode case folding.
- The search term is matched as a literal substring. The regular-expression meaning of its characters is not modelled. The front end strips such characters anyway.
- JavaScript numbers are integers here. Page and limit values that are fractional, too large or non-finite are not modelled.
- Repeated query parameters (Express arrays) are not modelled, and neither is URL percent-encoding. The round trip is proved for search and filter texts without `&`, `#`, `%` or `+`. Other characters the browser percent-encodes are taken to decode back unchanged.
- Of the browser's URL parsing, the model keeps the removal of tabs and newlines and the stripping of trailing C0 controls and spaces. The stripping of leading ones, and the joining with axios' `baseURL`, are not modelled: the list URL starts with `/`.
- Lean documents from `getAllJobs` carry `_id` but no `id`, so the list view's run button passes `undefined`. The model takes the row id as an input.
- A change of filter does not reset the page state, and the list effect is not re-run on a page change. Only the URL built for given values is modelled.
- The selects and radios are modelled as choices among the rendered options. Arbitrary select values are not.
- The default `createdAt` and `updatedAt` values and the schema's indexes are not modelled. The indexes have no effect on results.
- The seed script, routes, error middleware and the remaining display components are not modelled.
- The conversion of a date value into local calendar fields (time zones) is a parameter of `FormatDate`.
- JobForm.MaxMessageMismatch: the form's limit and its message are kept as written. Which of the two the authors meant cannot be told from the code.
