/**
 * The job document (backend/model/jon.model.js) and the store that holds the
 * documents. The store replaces MongoDB: a sequence in insertion order whose
 * identifiers grow strictly, as ObjectIds generated by one process do.
 */
module JobModel {
  import opened Wrappers
  import opened JsText
  import opened Json

  datatype Priority = Low | Medium | High
  datatype Status = Pending | Running | Completed | Failed

  function PriorityName(p: Priority): string
  {
    match p
    case Low => "low"
    case Medium => "medium"
    case High => "high"
  }

  function StatusName(s: Status): string
  {
    match s
    case Pending => "pending"
    case Running => "running"
    case Completed => "completed"
    case Failed => "failed"
  }

  /** The schema's priority enum: exactly the three lower-case names. */
  function ParsePriority(s: string): (r: Option<Priority>)
    ensures r.Some? ==> PriorityName(r.value) == s
    ensures forall p: Priority :: s == PriorityName(p) ==> r == Some(p)
  {
    if s == "low" then Some(Low)
    else if s == "medium" then Some(Medium)
    else if s == "high" then Some(High)
    else None
  }

  /** The schema's status enum: exactly the four lower-case names. */
  function ParseStatus(s: string): (r: Option<Status>)
    ensures r.Some? ==> StatusName(r.value) == s
    ensures forall st: Status :: s == StatusName(st) ==> r == Some(st)
  {
    if s == "pending" then Some(Pending)
    else if s == "running" then Some(Running)
    else if s == "completed" then Some(Completed)
    else if s == "failed" then Some(Failed)
    else None
  }

  datatype Job = Job(
    id: nat,
    taskName: string,
    priority: Priority,
    status: Status,
    payload: Value,
    createdAt: int,
    updatedAt: int)

  /**
   * Schema paths, in declaration order, as a validation error names them
   * (`task_name`, `priority`, `status`, `payload`).
   */
  datatype Path = TaskNamePath | PriorityPath | StatusPath | PayloadPath

  /** The string an enum field checks: `lowercase: true`, then `default` when undefined. */
  function EnumInput(raw: Option<string>, default: string): string
  {
    match raw
    case None => default
    case Some(s) => ToLower(s)
  }

  /**
   * Building and validating a document: `task_name` is trimmed and must then be
   * non-empty, priority and status are lower-cased, defaulted and checked against
   * their enums, payload is required (null fails). On failure the result names
   * every failing path (the keys of the error's `errors` object).
   */
  function NewDocument(
    taskName: string, priority: Option<string>, status: Option<string>, payload: Option<Value>,
    id: nat, now: int): (r: Result<Job, set<Path>>)
    ensures r.Ok? <==>
      && Trim(taskName) != []
      && ParsePriority(EnumInput(priority, "medium")).Some?
      && ParseStatus(EnumInput(status, "pending")).Some?
      && payload.Some? && payload.value != Null
    ensures r.Ok? ==>
      && r.value.id == id
      && r.value.taskName == Trim(taskName)
      && PriorityName(r.value.priority) == (if priority.None? then "medium" else ToLower(priority.value))
      && StatusName(r.value.status) == (if status.None? then "pending" else ToLower(status.value))
      && Some(r.value.payload) == payload
      && r.value.createdAt == now && r.value.updatedAt == now
    ensures r.Err? ==>
      && (TaskNamePath in r.error <==> Trim(taskName) == [])
      && (PriorityPath in r.error <==> ParsePriority(EnumInput(priority, "medium")).None?)
      && (StatusPath in r.error <==> ParseStatus(EnumInput(status, "pending")).None?)
      && (PayloadPath in r.error <==> payload.None? || payload.value == Null)
  {
    var name := Trim(taskName);
    var p := ParsePriority(EnumInput(priority, "medium"));
    var s := ParseStatus(EnumInput(status, "pending"));
    if name != [] && p.Some? && s.Some? && payload.Some? && payload.value != Null then
      Ok(Job(id, name, p.value, s.value, payload.value, now, now))
    else
      Err(Failing(name == [], p.None?, s.None?, payload.None? || payload.value == Null))
  }

  /** The paths whose check failed. */
  function Failing(badName: bool, badPriority: bool, badStatus: bool, badPayload: bool): (r: set<Path>)
    ensures TaskNamePath in r <==> badName
    ensures PriorityPath in r <==> badPriority
    ensures StatusPath in r <==> badStatus
    ensures PayloadPath in r <==> badPayload
  {
    (if badName then {TaskNamePath} else {})
    + (if badPriority then {PriorityPath} else {})
    + (if badStatus then {StatusPath} else {})
    + (if badPayload then {PayloadPath} else {})
  }

  /** Omitting status stores `pending`; omitting priority stores `medium`. */
  lemma DefaultsApply(taskName: string, payload: Value, id: nat, now: int)
    requires Trim(taskName) != [] && payload != Null
    ensures var r := NewDocument(taskName, None, None, Some(payload), id, now);
      r.Ok? && r.value.status == Pending && r.value.priority == Medium
  {
    assert ParsePriority(EnumInput(None, "medium")) == Some(Medium);
    assert ParseStatus(EnumInput(None, "pending")) == Some(Pending);
  }

  /** Enum values are accepted in any letter case and stored in their lower-case form. */
  lemma EnumsIgnoreCase(taskName: string, rawPriority: string, rawStatus: string,
                        p: Priority, st: Status, payload: Value, id: nat, now: int)
    requires Trim(taskName) != [] && payload != Null
    requires ToLower(rawPriority) == PriorityName(p) && ToLower(rawStatus) == StatusName(st)
    ensures var r := NewDocument(taskName, Some(rawPriority), Some(rawStatus), Some(payload), id, now);
      r.Ok? && r.value.priority == p && r.value.status == st
  {
    var r := NewDocument(taskName, Some(rawPriority), Some(rawStatus), Some(payload), id, now);
    assert ParsePriority(PriorityName(p)) == Some(p);
    assert ParseStatus(StatusName(st)) == Some(st);
    assert r.Ok?;
  }

  /** The stored name never carries surrounding whitespace. */
  lemma StoredNameIsTrimmed(taskName: string, priority: Option<string>, status: Option<string>,
                            payload: Option<Value>, id: nat, now: int)
    requires NewDocument(taskName, priority, status, payload, id, now).Ok?
    ensures var j := NewDocument(taskName, priority, status, payload, id, now).value;
      Trim(j.taskName) == j.taskName && j.taskName != []
  {
    TrimIdempotent(taskName);
  }

  // ---------------------------------------------------------------- store

  datatype Store = Store(jobs: seq<Job>, nextId: nat)

  /** Identifiers strictly increase along the store and stay below the next one to hand out. */
  predicate Valid(st: Store)
  {
    && (forall i, j :: 0 <= i < j < |st.jobs| ==> st.jobs[i].id < st.jobs[j].id)
    && (forall i :: 0 <= i < |st.jobs| ==> st.jobs[i].id < st.nextId)
  }

  const EmptyStore := Store([], 0)

  predicate HasId(st: Store, id: nat)
  {
    exists i :: 0 <= i < |st.jobs| && st.jobs[i].id == id
  }

  /** `Model.findById`. */
  function FindById(st: Store, id: nat): (r: Option<Job>)
    ensures r.Some? <==> HasId(st, id)
    ensures r.Some? ==> r.value in st.jobs && r.value.id == id
    ensures Valid(st) && HasId(st, id) ==> forall i :: 0 <= i < |st.jobs| && st.jobs[i].id == id ==> r == Some(st.jobs[i])
  {
    FindFrom(st.jobs, id)
  }

  function FindFrom(jobs: seq<Job>, id: nat): (r: Option<Job>)
    ensures r.Some? <==> exists i :: 0 <= i < |jobs| && jobs[i].id == id
    ensures r.Some? ==> r.value in jobs && r.value.id == id
    ensures r.Some? ==>
      exists i :: (0 <= i < |jobs| && jobs[i] == r.value && forall k :: 0 <= k < i ==> jobs[k].id != id)
  {
    if jobs == [] then None
    else if jobs[0].id == id then Some(jobs[0])
    else
      var r := FindFrom(jobs[1..], id);
      assert forall i :: 1 <= i < |jobs| ==> jobs[i] == jobs[1..][i - 1];
      r
  }

  /** Saving a new document: it is appended under the next identifier. */
  function Insert(st: Store, j: Job): (r: Store)
    requires j.id == st.nextId
    ensures Valid(st) ==> Valid(r)
    ensures r.jobs == st.jobs + [j] && r.nextId > j.id
  {
    Store(st.jobs + [j], st.nextId + 1)
  }

  /**
   * `doc.status = s; doc.save()`: the timestamps plugin stamps `updatedAt` only
   * when the assignment actually modified the document.
   */
  function SetStatus(j: Job, s: Status, now: int): (r: Job)
    ensures r.status == s
    ensures r.(status := j.status, updatedAt := j.updatedAt) == j
    ensures j.status == s ==> r == j
    ensures j.status != s ==> r.updatedAt == now
  {
    if j.status == s then j else j.(status := s, updatedAt := now)
  }

  /**
   * `doc.status = s; await doc.save()` for a document `doc` loaded earlier: when the
   * assignment modified `doc`, the record with `doc`'s identifier receives the new
   * status and a fresh `updatedAt`; otherwise nothing is written. Every other
   * record is left alone.
   */
  function SaveStatus(st: Store, doc: Job, s: Status, now: int): (r: Store)
    ensures |r.jobs| == |st.jobs| && r.nextId == st.nextId
    ensures doc.status == s ==> r == st
    ensures forall i :: 0 <= i < |st.jobs| && st.jobs[i].id != doc.id ==> r.jobs[i] == st.jobs[i]
    ensures doc.status != s ==> forall i :: 0 <= i < |st.jobs| && st.jobs[i].id == doc.id ==>
      r.jobs[i] == st.jobs[i].(status := s, updatedAt := now)
    ensures Valid(st) ==> Valid(r)
  {
    if doc.status == s then st
    else
      Store(seq(|st.jobs|, i requires 0 <= i < |st.jobs| =>
        if st.jobs[i].id == doc.id then st.jobs[i].(status := s, updatedAt := now) else st.jobs[i]),
        st.nextId)
  }
}
