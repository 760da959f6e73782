/**
 * The job endpoints (backend/controllers/job.controller.js): create, list with
 * filters and pages, fetch one, and run. Each handler is a function from the
 * store and the request to the reply (and the store after the handler's writes).
 */
module JobController {
  import opened Wrappers
  import opened JsText
  import opened Numerals
  import opened Json
  import opened JobModel
  import opened CreateValidator

  /** A JSON reply: `res.status(code).json(...)` with or without a data part. */
  datatype Response<T> = Success(code: nat, message: string, data: T) | Failure(code: nat, message: string)

  // ---------------------------------------------------------------- createJob

  const CreatedMessage := "Job created successfully"
  /** The text of a Mongoose validation error; its per-path detail is not modelled. */
  const DocumentInvalidMessage := "Job validation failed"

  /**
   * `createJob`: the body is validated (400 with the first message), then a
   * `pending` document is built from the validated fields and saved (500 when the
   * schema rejects it), and the saved document is returned with 201.
   */
  function CreateJob(st: Store, body: Body, now: int): (r: (Store, Response<Job>))
    ensures Validate(body).Err? ==> r == (st, Failure(400, Validate(body).error))
    ensures r.1.Failure? ==> r.0 == st
    ensures r.1.Success? ==>
      && Validate(body).Ok?
      && r.1.code == 201 && r.1.message == CreatedMessage
      && r.0.jobs == st.jobs + [r.1.data]
      && r.1.data.status == Pending
      && r.1.data.taskName == Trim(Validate(body).value.taskName)
      && r.1.data.priority == Validate(body).value.priority
      && r.1.data.payload == Validate(body).value.payload
      && r.1.data.id == st.nextId
    ensures Valid(st) ==> Valid(r.0)
  {
    match Validate(body)
    case Err(msg) => (st, Failure(400, msg))
    case Ok(req) =>
      match NewDocument(req.taskName, Some(PriorityName(req.priority)), Some(StatusName(Pending)),
                        Some(req.payload), st.nextId, now)
      case Err(_) => (st, Failure(500, DocumentInvalidMessage))
      case Ok(doc) =>
        PendingDocument(req.taskName, req.priority, req.payload, st.nextId, now);
        (Insert(st, doc), Success(201, CreatedMessage, doc))
  }

  /**
   * `createJob` for any body `express.json()` hands over: a body that is not an
   * object is refused by the schema with 400, and an object is created from as
   * `JSON.parse` built it.
   */
  function CreateJobRequest(st: Store, body: Value, now: int): (r: (Store, Response<Job>))
    ensures ValidateValue(body).Err? ==> r == (st, Failure(400, ValidateValue(body).error))
    ensures !body.Obj? ==> r == (st, Failure(400, ObjectBaseMessage))
    ensures r.1.Failure? ==> r.0 == st
    ensures r.1.Success? ==>
      && ValidateValue(body).Ok?
      && r.1.code == 201 && r.1.message == CreatedMessage
      && r.0.jobs == st.jobs + [r.1.data]
      && r.1.data.status == Pending
      && r.1.data.taskName == Trim(ValidateValue(body).value.taskName)
      && r.1.data.priority == ValidateValue(body).value.priority
      && r.1.data.payload == ValidateValue(body).value.payload
    ensures Valid(st) ==> Valid(r.0)
  {
    match body
    case Obj(members) => CreateJob(st, ObjectOf(members), now)
    case _ => (st, Failure(400, ObjectBaseMessage))
  }

  /** The document `createJob` builds from a validated request. */
  lemma PendingDocument(name: string, p: Priority, payload: Value, id: nat, now: int)
    ensures var r := NewDocument(name, Some(PriorityName(p)), Some(StatusName(Pending)), Some(payload), id, now);
      && (r.Ok? <==> Trim(name) != [] && payload != Null)
      && (r.Ok? ==> r.value == Job(id, Trim(name), p, Pending, payload, now, now))
  {
    ToLowerOfLower(PriorityName(p));
    ToLowerOfLower(StatusName(Pending));
    assert ParsePriority(PriorityName(p)) == Some(p);
    assert ParseStatus(StatusName(Pending)) == Some(Pending);
  }

  /** A newly created job's identifier is not already in use. */
  lemma CreatedIdIsFresh(st: Store, body: Body, now: int)
    requires Valid(st) && CreateJob(st, body, now).1.Success?
    ensures !HasId(st, CreateJob(st, body, now).1.data.id)
  {
  }

  /**
   * After validation only two bodies fail: a task name of whitespace alone (the
   * stored name would be empty) and a `null` payload; both give 500 and store nothing.
   */
  lemma CreateServerErrors(st: Store, body: Body, now: int)
    requires Validate(body).Ok?
    ensures CreateJob(st, body, now).1.Failure? <==>
      (Trim(Validate(body).value.taskName) == [] || Validate(body).value.payload == Null)
    ensures CreateJob(st, body, now).1.Failure? ==> CreateJob(st, body, now) == (st, Failure(500, DocumentInvalidMessage))
  {
    var req := Validate(body).value;
    PendingDocument(req.taskName, req.priority, req.payload, st.nextId, now);
  }

  /**
   * The validator measures the untrimmed name while the schema stores it trimmed,
   * so a stored name can be shorter than the validator's minimum.
   */
  lemma StoredNameShorterThanMinimum()
    ensures var body := [(TaskNameKey, Str("a   ")), (PriorityKey, Str("low")), (PayloadKey, Obj([]))];
      var r := CreateJob(EmptyStore, body, 0);
      r.1.Success? && r.1.data.taskName == "a"
  {
    var body := [(TaskNameKey, Str("a   ")), (PriorityKey, Str("low")), (PayloadKey, Obj([]))];
    PaddedNameAccepted(body);
    PaddedNameTrimmed();
    CreateServerErrors(EmptyStore, body, 0);
  }

  lemma PaddedNameAccepted(body: Body)
    requires body == [(TaskNameKey, Str("a   ")), (PriorityKey, Str("low")), (PayloadKey, Obj([]))]
    ensures Validate(body) == Ok(CreateRequest("a   ", Low, Obj([])))
  {
    assert Lookup(body, TaskNameKey) == Some(Str("a   "));
    assert Lookup(body, PriorityKey) == Some(Str("low"));
    assert Lookup(body[2..], PayloadKey) == Some(Obj([]));
    assert Lookup(body, PayloadKey) == Some(Obj([]));
    assert Acceptable(body);
  }

  lemma PaddedNameTrimmed()
    ensures Trim("a   ") == "a"
  {
    TrimStartNoop("a   ");
    assert TrimEnd("a   ") == TrimEnd("a  ") by { assert "a   "[..3] == "a  "; }
    assert TrimEnd("a  ") == TrimEnd("a ") by { assert "a  "[..2] == "a "; }
    assert TrimEnd("a ") == TrimEnd("a") by { assert "a "[..1] == "a"; }
    TrimEndNoop("a");
  }

  // ---------------------------------------------------------------- getAllJobs

  /** The list request's query parameters, absent ones as `None`. */
  datatype ListQuery = ListQuery(
    page: Option<string>, limit: Option<string>,
    priority: Option<string>, status: Option<string>, query: Option<string>)

  /** The conditions the list is restricted to. */
  datatype Filter = Filter(priority: Option<Priority>, status: Option<Status>, search: Option<string>)

  /** A successful list reply. */
  datatype ListPage = ListPage(page: int, limit: int, total: nat, totalPages: int, data: seq<Job>)

  const DefaultPage := 1
  const DefaultLimit := 10
  const MinSearchLength := 3
  const InvalidPriority := "Invalid priority"
  const InvalidStatus := "Invalid status"
  const SearchTooShort := "Search query must be at least 3 characters"
  const ListedMessage := "Jobs fetched successfully"
  /** The database server refuses a negative skip; its exact text is not modelled. */
  const NegativeSkipMessage := "skip must be non-negative"

  /** `parseInt(raw) || fallback`: NaN and 0 both fall back. */
  function NumberOr(raw: Option<string>, fallback: int): (r: int)
    ensures fallback != 0 ==> r != 0
  {
    if raw.None? then fallback
    else match ParseInt(raw.value)
      case None => fallback
      case Some(n) => if n == 0 then fallback else n
  }

  /** `raw?.trim()?.toLowerCase()`, with `undefined` read as the falsy empty string. */
  function Normalise(raw: Option<string>): string
  {
    if raw.None? then "" else ToLower(Trim(raw.value))
  }

  /** The statuses a list may be filtered by: `failed` is not among them. */
  predicate IsListableStatus(s: string)
  {
    s == "pending" || s == "running" || s == "completed"
  }

  /** The priority filter: no filter when empty, otherwise one of the three names. */
  function PriorityFilter(raw: Option<string>): (r: Result<Option<Priority>, string>)
    ensures r.Ok? ==> (r.value.Some? <==> Normalise(raw) != "")
    ensures r.Ok? && r.value.Some? ==> PriorityName(r.value.value) == Normalise(raw)
    ensures r.Err? ==> r.error == InvalidPriority
  {
    var p := Normalise(raw);
    if p == "" then Ok(None)
    else match ParsePriority(p)
      case None => Err(InvalidPriority)
      case Some(v) => Ok(Some(v))
  }

  /** The status filter: no filter when empty, otherwise pending, running or completed. */
  function StatusFilter(raw: Option<string>): (r: Result<Option<Status>, string>)
    ensures r.Ok? ==> (r.value.Some? <==> Normalise(raw) != "")
    ensures r.Ok? && r.value.Some? ==> StatusName(r.value.value) == Normalise(raw) && r.value.value != Failed
    ensures r.Err? ==> r.error == InvalidStatus
  {
    var s := Normalise(raw);
    if s == "" then Ok(None)
    else if s == "pending" then Ok(Some(Pending))
    else if s == "running" then Ok(Some(Running))
    else if s == "completed" then Ok(Some(Completed))
    else Err(InvalidStatus)
  }

  /** The search term: no filter when empty, rejected below three characters. */
  function SearchFilter(raw: Option<string>): (r: Result<Option<string>, string>)
    ensures r.Ok? ==> (r.value.Some? <==> Normalise(raw) != "")
    ensures r.Ok? && r.value.Some? ==> r.value.value == Normalise(raw) && |r.value.value| >= MinSearchLength
    ensures r.Err? ==> r.error == SearchTooShort
  {
    var t := Normalise(raw);
    if t == "" then Ok(None)
    else if |t| < MinSearchLength then Err(SearchTooShort)
    else Ok(Some(t))
  }

  /** Priority, then status, then search term are checked; the first bad one is reported. */
  function ParseFilter(q: ListQuery): (r: Result<Filter, string>)
    ensures r.Ok? <==> PriorityFilter(q.priority).Ok? && StatusFilter(q.status).Ok? && SearchFilter(q.query).Ok?
    ensures r.Ok? ==> r.value == Filter(PriorityFilter(q.priority).value, StatusFilter(q.status).value,
                                        SearchFilter(q.query).value)
    ensures r.Err? ==> r.error in [InvalidPriority, InvalidStatus, SearchTooShort]
  {
    match PriorityFilter(q.priority)
    case Err(e) => Err(e)
    case Ok(p) =>
      match StatusFilter(q.status)
      case Err(e) => Err(e)
      case Ok(s) =>
        match SearchFilter(q.query)
        case Err(e) => Err(e)
        case Ok(t) => Ok(Filter(p, s, t))
  }

  /** A job satisfies every condition of the filter. */
  predicate Matches(j: Job, f: Filter)
  {
    && (f.priority.Some? ==> j.priority == f.priority.value)
    && (f.status.Some? ==> j.status == f.status.value)
    && (f.search.Some? ==> ContainsIgnoreCase(j.taskName, f.search.value))
  }

  predicate IdsIncreasing(jobs: seq<Job>)
  {
    forall i, j :: 0 <= i < j < |jobs| ==> jobs[i].id < jobs[j].id
  }

  predicate IdsDecreasing(jobs: seq<Job>)
  {
    forall i, j :: 0 <= i < j < |jobs| ==> jobs[i].id > jobs[j].id
  }

  /** The matching jobs, in store order. */
  function Matching(jobs: seq<Job>, f: Filter): (r: seq<Job>)
    ensures |r| <= |jobs|
    ensures forall j :: j in r <==> j in jobs && Matches(j, f)
  {
    if jobs == [] then []
    else
      var rest := Matching(jobs[1..], f);
      assert forall j :: j in jobs ==> j == jobs[0] || j in jobs[1..];
      if Matches(jobs[0], f) then [jobs[0]] + rest else rest
  }

  /** Filtering keeps the store's identifier order. */
  lemma {:induction false} MatchingKeepsOrder(jobs: seq<Job>, f: Filter)
    requires IdsIncreasing(jobs)
    ensures IdsIncreasing(Matching(jobs, f))
  {
    if jobs != [] {
      var rest := Matching(jobs[1..], f);
      assert IdsIncreasing(jobs[1..]);
      MatchingKeepsOrder(jobs[1..], f);
      if Matches(jobs[0], f) {
        forall j | j in rest ensures jobs[0].id < j.id {
          var i :| 0 <= i < |jobs[1..]| && jobs[1..][i] == j;
          assert jobs[i + 1] == j;
        }
        PrependKeepsOrder(jobs[0], rest);
      }
    }
  }

  lemma PrependKeepsOrder(j: Job, rest: seq<Job>)
    requires IdsIncreasing(rest) && forall k :: k in rest ==> j.id < k.id
    ensures IdsIncreasing([j] + rest)
  {
    var r := [j] + rest;
    forall a, b | 0 <= a < b < |r| ensures r[a].id < r[b].id {
      assert r[b] == rest[b - 1];
      if a > 0 {
        assert r[a] == rest[a - 1];
      } else {
        assert rest[b - 1] in rest;
      }
    }
  }

  /** `sort({ _id: -1 })` on jobs listed in increasing identifier order. */
  function NewestFirst(jobs: seq<Job>): (r: seq<Job>)
    ensures |r| == |jobs|
    ensures forall i :: 0 <= i < |jobs| ==> r[i] == jobs[|jobs| - 1 - i]
    ensures IdsIncreasing(jobs) ==> IdsDecreasing(r)
  {
    seq(|jobs|, i requires 0 <= i < |jobs| => jobs[|jobs| - 1 - i])
  }

  /** `skip(skip).limit(limit)`; the driver reads a negative limit as its absolute value. */
  function Window(items: seq<Job>, skip: nat, limit: int): (r: seq<Job>)
    ensures |r| <= (if limit < 0 then -limit else limit)
    ensures skip <= |items| ==> skip + |r| <= |items| && r == items[skip..skip + |r|]
    ensures skip + (if limit < 0 then -limit else limit) <= |items| ==> |r| == (if limit < 0 then -limit else limit)
    ensures skip >= |items| ==> r == []
  {
    var count := if limit < 0 then -limit else limit;
    var start := if skip <= |items| then skip else |items|;
    var end := if start + count <= |items| then start + count else |items|;
    items[start..end]
  }

  /** `Math.ceil(a / b)`. */
  function CeilDiv(a: nat, b: int): (r: int)
    requires b != 0
    ensures b > 0 ==> r * b >= a && (r - 1) * b < a
    ensures b < 0 ==> r * b <= a && (r - 1) * b > a
  {
    if b > 0 then (a + b - 1) / b else -(a / -b)
  }

  /**
   * The read half of `getAllJobs` once the filter is known: the matching jobs,
   * newest first, skipped and limited, with the count of all matches and the
   * number of pages. A negative skip is refused by the database.
   */
  function ListPageOf(jobs: seq<Job>, f: Filter, page: int, limit: int): (r: Response<ListPage>)
    requires limit != 0
    ensures r.Failure? <==> (page - 1) * limit < 0
    ensures r.Failure? ==> r == Failure(500, NegativeSkipMessage)
    ensures r.Success? ==>
      && r.code == 200 && r.message == ListedMessage
      && r.data.page == page && r.data.limit == limit
      && r.data.total == |Matching(jobs, f)|
      && r.data.totalPages == CeilDiv(r.data.total, limit)
  {
    var skip := (page - 1) * limit;
    if skip < 0 then Failure(500, NegativeSkipMessage)
    else
      var all := Matching(jobs, f);
      Success(200, ListedMessage, ListPage(page, limit, |all|, CeilDiv(|all|, limit), Window(NewestFirst(all), skip, limit)))
  }

  /**
   * `getAllJobs`: page and limit default to 1 and 10, filters are normalised and
   * validated (400), then the page is read.
   */
  function GetAllJobs(st: Store, q: ListQuery): (r: Response<ListPage>)
    ensures ParseFilter(q).Err? ==> r == Failure(400, ParseFilter(q).error)
    ensures ParseFilter(q).Ok? ==>
      r == ListPageOf(st.jobs, ParseFilter(q).value, NumberOr(q.page, DefaultPage), NumberOr(q.limit, DefaultLimit))
  {
    match ParseFilter(q)
    case Err(msg) => Failure(400, msg)
    case Ok(f) => ListPageOf(st.jobs, f, NumberOr(q.page, DefaultPage), NumberOr(q.limit, DefaultLimit))
  }

  /** Missing, non-numeric or zero page and limit fall back to 1 and 10; other numbers are used. */
  lemma PagingDefaults(n: int)
    ensures NumberOr(None, DefaultPage) == 1 && NumberOr(None, DefaultLimit) == 10
    ensures NumberOr(Some("0"), DefaultPage) == 1 && NumberOr(Some("0"), DefaultLimit) == 10
    ensures NumberOr(Some("next"), DefaultPage) == 1
    ensures n != 0 ==> NumberOr(Some(IntToString(n)), DefaultPage) == n
    ensures n != 0 ==> NumberOr(Some(IntToString(n)), DefaultLimit) == n
  {
    ZeroReadsZero();
    WordReadsNaN();
    IntToStringParses(n);
  }

  lemma ZeroReadsZero()
    ensures ParseInt("0") == Some(0)
  {
    ParseIntDecimal("0");
  }

  lemma WordReadsNaN()
    ensures ParseInt("next") == None
  {
    ParseIntNoDigits("next");
  }

  /** A priority filter is read after trimming and lower-casing. */
  lemma PriorityFilterNormalised(raw: string, p: Priority)
    requires ToLower(Trim(raw)) == PriorityName(p)
    ensures ParseFilter(ListQuery(None, None, Some(raw), None, None)) == Ok(Filter(Some(p), None, None))
  {
    assert ParsePriority(PriorityName(p)) == Some(p);
  }

  /** A non-empty priority outside the enum is rejected before anything is read. */
  lemma InvalidPriorityRejected(st: Store, q: ListQuery)
    requires Normalise(q.priority) != "" && Normalise(q.priority) !in ["low", "medium", "high"]
    ensures GetAllJobs(st, q) == Failure(400, InvalidPriority)
  {
  }

  /**
   * A non-empty status outside pending, running, completed is rejected once the
   * priority passed; `failed`, although a stored status, is among the rejected.
   */
  lemma InvalidStatusRejected(st: Store, q: ListQuery)
    requires PriorityFilter(q.priority).Ok?
    requires Normalise(q.status) != "" && !IsListableStatus(Normalise(q.status))
    ensures GetAllJobs(st, q) == Failure(400, InvalidStatus)
  {
  }

  lemma FailedStatusRejected(st: Store)
    ensures GetAllJobs(st, ListQuery(None, None, None, Some("failed"), None)) == Failure(400, InvalidStatus)
  {
    var q := ListQuery(None, None, None, Some("failed"), None);
    assert Normalise(q.status) == "failed" by { FailedNormal(); }
    assert PriorityFilter(q.priority) == Ok(None);
    InvalidStatusRejected(st, q);
  }

  lemma FailedNormal()
    ensures Normalise(Some("failed")) == "failed"
  {
    TrimStartNoop("failed");
    TrimEndNoop("failed");
  }

  /** The trimmed search term is ignored when empty, rejected below 3 characters, and applied otherwise. */
  lemma SearchTermRule(st: Store, q: ListQuery)
    requires Normalise(q.priority) == "" && Normalise(q.status) == ""
    ensures Normalise(q.query) == "" ==> ParseFilter(q) == Ok(Filter(None, None, None))
    ensures 0 < |Normalise(q.query)| < 3 ==> GetAllJobs(st, q) == Failure(400, SearchTooShort)
    ensures |Normalise(q.query)| >= 3 ==> ParseFilter(q) == Ok(Filter(None, None, Some(Normalise(q.query))))
  {
    assert PriorityFilter(q.priority) == Ok(None);
    assert StatusFilter(q.status) == Ok(None);
    var t := Normalise(q.query);
    assert SearchFilter(q.query) ==
      if t == "" then Ok(None) else if |t| < MinSearchLength then Err(SearchTooShort) else Ok(Some(t));
  }

  /** The page read from identifier-ordered jobs: matching jobs, newest first, at most `limit` of them. */
  lemma PageContents(jobs: seq<Job>, f: Filter, page: int, limit: int)
    requires limit != 0 && IdsIncreasing(jobs) && ListPageOf(jobs, f, page, limit).Success?
    ensures var r := ListPageOf(jobs, f, page, limit).data;
      && (forall j :: j in r.data ==> j in jobs && Matches(j, f))
      && IdsDecreasing(r.data)
      && |r.data| <= (if limit < 0 then -limit else limit)
      && r.total <= |jobs|
  {
    var r := ListPageOf(jobs, f, page, limit).data;
    var skip := (page - 1) * limit;
    var all := NewestFirst(Matching(jobs, f));
    assert r.data == Window(all, skip, limit);
    MatchingKeepsOrder(jobs, f);
    WindowWithin(all, skip, limit);
    forall j | j in all ensures j in Matching(jobs, f) {
      var i :| 0 <= i < |all| && all[i] == j;
    }
  }

  /** A window holds items of the list, in the list's order. */
  lemma WindowWithin(items: seq<Job>, skip: nat, limit: int)
    ensures forall j :: j in Window(items, skip, limit) ==> j in items
    ensures IdsDecreasing(items) ==> IdsDecreasing(Window(items, skip, limit))
  {
    var w := Window(items, skip, limit);
    if skip <= |items| {
      assert w == items[skip..skip + |w|];
      forall j | j in w ensures j in items {
        var i :| 0 <= i < |w| && w[i] == j;
        assert items[skip + i] == j;
      }
    }
  }

  /**
   * Every listed job is a stored job matching the filter, the list is ordered by
   * identifier from newest to oldest, holds at most `limit` jobs, and `total`
   * counts every matching stored job whatever the page.
   */
  lemma ListedJobsAreNewestMatches(st: Store, q: ListQuery)
    requires Valid(st) && GetAllJobs(st, q).Success?
    ensures var r := GetAllJobs(st, q).data; var f := ParseFilter(q).value;
      && (forall j :: j in r.data ==> j in st.jobs && Matches(j, f))
      && IdsDecreasing(r.data)
      && |r.data| <= (if r.limit < 0 then -r.limit else r.limit)
      && r.total == |Matching(st.jobs, f)|
      && (forall j :: j in st.jobs && Matches(j, f) ==> j in Matching(st.jobs, f))
  {
    assert IdsIncreasing(st.jobs);
    PageContents(st.jobs, ParseFilter(q).value, NumberOr(q.page, DefaultPage), NumberOr(q.limit, DefaultLimit));
  }

  /** With a positive limit, item `m * limit + i` of a list is item `i` of the window starting at `m * limit`. */
  lemma WindowHoldsItem(items: seq<Job>, limit: int, m: nat, i: nat)
    requires limit > 0 && i < limit && m * limit + i < |items|
    ensures i < |Window(items, m * limit, limit)|
    ensures Window(items, m * limit, limit)[i] == items[m * limit + i]
    ensures m + 1 <= CeilDiv(|items|, limit)
  {
    var skip := m * limit;
    var w := Window(items, skip, limit);
    assert |w| > i by {
      if skip + limit > |items| {
        assert |w| == |items| - skip;
      }
    }
    CeilDivAbove(|items|, limit, m);
  }

  /** A page that starts before the end of the list is within `Math.ceil(n / limit)`. */
  lemma CeilDivAbove(n: nat, limit: int, m: nat)
    requires limit > 0 && m * limit < n
    ensures m + 1 <= CeilDiv(n, limit)
  {
    MulCancel(m, CeilDiv(n, limit), limit);
  }

  lemma MulMono(x: int, y: int, k: int)
    requires x <= y && k >= 0
    ensures x * k <= y * k
  {
    assert y * k - x * k == (y - x) * k;
  }

  lemma MulCancel(m: int, t: int, k: int)
    requires k > 0 && m * k < t * k
    ensures m < t
  {
    if m >= t {
      MulMono(t, m, k);
    }
  }

  /** Asking for page `p` by its decimal rendering reads page `p` under the same filter and limit. */
  lemma PageQuery(st: Store, q: ListQuery, p: int)
    requires p != 0 && ParseFilter(q).Ok?
    ensures GetAllJobs(st, q.(page := Some(IntToString(p))))
      == ListPageOf(st.jobs, ParseFilter(q).value, p, NumberOr(q.limit, DefaultLimit))
  {
    IntToStringParses(p);
    var q' := q.(page := Some(IntToString(p)));
    assert ParseFilter(q') == ParseFilter(q);
  }

  /**
   * With a positive limit every match is listed on some page within
   * `totalPages`: the job at position `m * limit + i` newest first is item `i`
   * of page `m + 1`.
   */
  lemma EveryMatchOnItsPage(st: Store, q: ListQuery, m: nat, i: nat)
    requires ParseFilter(q).Ok?
    requires 0 <= i < NumberOr(q.limit, DefaultLimit)
    requires m * NumberOr(q.limit, DefaultLimit) + i < |Matching(st.jobs, ParseFilter(q).value)|
    ensures var limit := NumberOr(q.limit, DefaultLimit);
      var r := GetAllJobs(st, q.(page := Some(IntToString(m + 1))));
      && r.Success?
      && r.data.page == m + 1 <= r.data.totalPages
      && i < |r.data.data|
      && r.data.data[i] == NewestFirst(Matching(st.jobs, ParseFilter(q).value))[m * limit + i]
  {
    var limit := NumberOr(q.limit, DefaultLimit);
    var f := ParseFilter(q).value;
    assert GetAllJobs(st, q.(page := Some(IntToString(m + 1)))) == ListPageOf(st.jobs, f, m + 1, limit) by {
      PageQuery(st, q, m + 1);
    }
    PageOfItemAt(Matching(st.jobs, f), f, st.jobs, limit, m, i);
  }

  lemma PageOfItemAt(matching: seq<Job>, f: Filter, jobs: seq<Job>, limit: int, m: nat, i: nat)
    requires matching == Matching(jobs, f) && limit > 0 && i < limit && m * limit + i < |matching|
    ensures var r := ListPageOf(jobs, f, m + 1, limit);
      && r.Success?
      && r.data.page == m + 1 <= r.data.totalPages
      && i < |r.data.data|
      && r.data.data[i] == NewestFirst(matching)[m * limit + i]
  {
    var skip := m * limit;
    assert (m + 1 - 1) * limit == skip && skip >= 0 by { PageSkip(m, limit); }
    var page := ListPage(m + 1, limit, |matching|, CeilDiv(|matching|, limit), Window(NewestFirst(matching), skip, limit));
    assert ListPageOf(jobs, f, m + 1, limit) == Success(200, ListedMessage, page);
    WindowHoldsItem(NewestFirst(matching), limit, m, i);
  }

  lemma PageSkip(m: nat, limit: int)
    requires limit > 0
    ensures (m + 1 - 1) * limit == m * limit >= 0
  {
  }

  // ---------------------------------------------------------------- getJobById / runJobById

  /** The `:id` path parameter: a well-formed ObjectId naming some identifier, or anything else. */
  datatype IdParam = Malformed(text: string) | ObjectId(id: nat)

  const InvalidIdMessage := "Invalid job ID."
  const NotFoundMessage := "Job not found"
  const FetchedMessage := "Job fetched successfully"
  const RunningMessage := "Job is running"

  /** `getJobById`: 400 for a malformed id, 404 for an absent job, otherwise the stored job. */
  function GetJobById(st: Store, param: IdParam): (r: Response<Job>)
    ensures param.Malformed? ==> r == Failure(400, InvalidIdMessage)
    ensures param.ObjectId? && !HasId(st, param.id) ==> r == Failure(404, NotFoundMessage)
    ensures param.ObjectId? && HasId(st, param.id) ==>
      r.Success? && r.code == 200 && r.message == FetchedMessage && r.data in st.jobs && r.data.id == param.id
    ensures param.ObjectId? && Valid(st) ==>
      forall i :: 0 <= i < |st.jobs| && st.jobs[i].id == param.id ==> r == Success(200, FetchedMessage, st.jobs[i])
    ensures r.Success? ==>
      r.code == 200 && r.message == FetchedMessage && r.data in st.jobs && param == ObjectId(r.data.id)
  {
    match param
    case Malformed(_) => Failure(400, InvalidIdMessage)
    case ObjectId(id) =>
      match FindById(st, id)
      case None => Failure(404, NotFoundMessage)
      case Some(j) => Success(200, FetchedMessage, j)
  }

  /** The webhook body: the completed job's snapshot. */
  datatype WebhookBody = WebhookBody(jobId: nat, taskName: string, priority: Priority, payload: Value,
                                     completedAt: string)

  /** One POST of `body` to `url`. */
  datatype Webhook = Webhook(url: string, body: WebhookBody)

  /**
   * The snapshot's payload: a string payload is handed to `JSON.parse` (passed in
   * as `parse`; `None` means it threw), any other falsy payload becomes `{}`.
   */
  function SnapshotPayload(payload: Value, parse: string -> Option<Value>): Option<Value>
  {
    if payload.Str? then parse(payload.s)
    else if IsFalsy(payload) then Some(Obj([]))
    else Some(payload)
  }

  /**
   * First half of `runJobById`: validation, lookup, `status = 'running'` and its
   * save, and the reply. On success it also yields the document as held in memory.
   */
  function RunStart(st: Store, param: IdParam, now: int): (r: (Store, Response<Job>))
    ensures r.1.Failure? ==> r.0 == st
    ensures param.Malformed? ==> r.1 == Failure(400, InvalidIdMessage)
    ensures param.ObjectId? && !HasId(st, param.id) ==> r.1 == Failure(404, NotFoundMessage)
    ensures param.ObjectId? && HasId(st, param.id) ==>
      && r.1.Success? && r.1.code == 200 && r.1.message == RunningMessage
      && r.1.data.id == param.id && r.1.data.status == Running
    ensures r.1.Success? ==> r.1.data.id == param.id
  {
    match param
    case Malformed(_) => (st, Failure(400, InvalidIdMessage))
    case ObjectId(id) =>
      match FindById(st, id)
      case None => (st, Failure(404, NotFoundMessage))
      case Some(doc) =>
        (SaveStatus(st, doc, Running, now), Success(200, RunningMessage, SetStatus(doc, Running, now)))
  }

  /**
   * Second half of `runJobById`, after the simulated processing: `status =
   * 'completed'` and its save, then the webhook, which is skipped when no URL is
   * configured or when parsing a string payload throws.
   */
  function RunFinish(st: Store, doc: Job, now: int, webhookUrl: Option<string>, completedAt: string,
                     parse: string -> Option<Value>): (r: (Store, Option<Webhook>))
    ensures r.1.Some? ==> webhookUrl.Some? && webhookUrl.value != "" && r.1.value.url == webhookUrl.value
    ensures r.1.Some? ==>
      && r.1.value.body.jobId == doc.id && r.1.value.body.taskName == doc.taskName
      && r.1.value.body.priority == doc.priority && r.1.value.body.completedAt == completedAt
  {
    var st' := SaveStatus(st, doc, Completed, now);
    var payload := SnapshotPayload(doc.payload, parse);
    if payload.None? || webhookUrl.None? || webhookUrl.value == "" then (st', None)
    else (st', Some(Webhook(webhookUrl.value, WebhookBody(doc.id, doc.taskName, doc.priority, payload.value, completedAt))))
  }

  /** The observable course of one `runJobById` call. */
  datatype RunTrace = RunTrace(reply: Response<Job>, afterStart: Store, afterFinish: Store, webhook: Option<Webhook>)

  /** `runJobById` as a whole: start at `started`, finish at `finished`. */
  function RunJob(st: Store, param: IdParam, started: int, finished: int, webhookUrl: Option<string>,
                  completedAt: string, parse: string -> Option<Value>): (r: RunTrace)
    ensures r.reply.Failure? ==> r.afterStart == st && r.afterFinish == st && r.webhook.None?
    ensures Valid(st) ==> Valid(r.afterStart) && Valid(r.afterFinish)
  {
    var (st1, reply) := RunStart(st, param, started);
    match reply
    case Failure(_, _) => RunTrace(reply, st, st, None)
    case Success(_, _, doc) =>
      var (st2, hook) := RunFinish(st1, doc, finished, webhookUrl, completedAt, parse);
      RunTrace(reply, st1, st2, hook)
  }

  /**
   * Running an existing job sets it to `running` and then to `completed`, whatever
   * its status was before (no guard), stamps `updatedAt` at completion, and changes
   * no other field and no other job.
   */
  lemma RunTransitions(st: Store, id: nat, started: int, finished: int, webhookUrl: Option<string>,
                       completedAt: string, parse: string -> Option<Value>, i: nat)
    requires Valid(st) && i < |st.jobs| && st.jobs[i].id == id
    ensures var t := RunJob(st, ObjectId(id), started, finished, webhookUrl, completedAt, parse);
      && t.reply == Success(200, RunningMessage, SetStatus(st.jobs[i], Running, started))
      && t.afterStart.jobs[i] == SetStatus(st.jobs[i], Running, started)
      && t.afterFinish.jobs[i] == st.jobs[i].(status := Completed, updatedAt := finished)
      && (forall k :: 0 <= k < |st.jobs| && k != i ==>
            t.afterStart.jobs[k] == st.jobs[k] && t.afterFinish.jobs[k] == st.jobs[k])
      && |t.afterFinish.jobs| == |st.jobs|
  {
    var doc := st.jobs[i];
    var d1 := SetStatus(doc, Running, started);
    var st1 := SaveStatus(st, doc, Running, started);
    var st2 := SaveStatus(st1, d1, Completed, finished);
    SavedTwice(st, i, started, finished);
    assert RunStart(st, ObjectId(id), started) == (st1, Success(200, RunningMessage, d1)) by {
      assert FindById(st, id) == Some(doc);
    }
    assert RunFinish(st1, d1, finished, webhookUrl, completedAt, parse).0 == st2;
  }

  /** The two saves of a run, on the record at index `i`: only that record changes. */
  lemma SavedTwice(st: Store, i: nat, started: int, finished: int)
    requires Valid(st) && i < |st.jobs|
    ensures var d1 := SetStatus(st.jobs[i], Running, started);
      var st1 := SaveStatus(st, st.jobs[i], Running, started);
      var st2 := SaveStatus(st1, d1, Completed, finished);
      && st1.jobs[i] == d1
      && st2.jobs[i] == st.jobs[i].(status := Completed, updatedAt := finished)
      && |st2.jobs| == |st.jobs|
      && (forall k :: 0 <= k < |st.jobs| && k != i ==> st1.jobs[k] == st.jobs[k] && st2.jobs[k] == st.jobs[k])
  {
    var doc := st.jobs[i];
    var d1 := SetStatus(doc, Running, started);
    var st1 := SaveStatus(st, doc, Running, started);
    assert st1.jobs[i] == d1;
    assert st1.jobs[i].id == doc.id;
    forall k | 0 <= k < |st.jobs| && k != i
      ensures st.jobs[k].id != doc.id
    {
    }
  }

  /**
   * The webhook is sent exactly when a URL is configured and the payload could be
   * read, and it carries the job's identifier, name, priority and payload.
   */
  lemma RunWebhook(st: Store, id: nat, started: int, finished: int, webhookUrl: Option<string>,
                   completedAt: string, parse: string -> Option<Value>, i: nat)
    requires Valid(st) && i < |st.jobs| && st.jobs[i].id == id
    ensures var t := RunJob(st, ObjectId(id), started, finished, webhookUrl, completedAt, parse);
      var j := st.jobs[i];
      && (t.webhook.Some? <==>
           webhookUrl.Some? && webhookUrl.value != "" && SnapshotPayload(j.payload, parse).Some?)
      && (t.webhook.Some? ==>
           t.webhook.value == Webhook(webhookUrl.value,
             WebhookBody(id, j.taskName, j.priority, SnapshotPayload(j.payload, parse).value, completedAt)))
      && (!j.payload.Str? && !IsFalsy(j.payload) && t.webhook.Some? ==> t.webhook.value.body.payload == j.payload)
  {
    var doc := FindById(st, id).value;
    assert doc == st.jobs[i];
  }

  /** Malformed and unknown identifiers change nothing and send nothing. */
  lemma RunRejects(st: Store, param: IdParam, started: int, finished: int, webhookUrl: Option<string>,
                   completedAt: string, parse: string -> Option<Value>)
    requires param.Malformed? || !HasId(st, param.id)
    ensures var t := RunJob(st, param, started, finished, webhookUrl, completedAt, parse);
      && t.reply == (if param.Malformed? then Failure(400, InvalidIdMessage) else Failure(404, NotFoundMessage))
      && t.afterFinish == st && t.webhook.None?
  {
  }
}
