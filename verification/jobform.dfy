/**
 * The create-job form (frontend/src/components/JobForm.jsx): the yup schema
 * checked before submission, the request body it sends, and the optimistic
 * update of the listed jobs and the counters on the server's reply.
 */
module JobForm {
  import opened Wrappers
  import opened JsText
  import opened Json
  import opened JobModel
  import opened CreateValidator
  import opened JobController
  import opened DashController
  import opened DashboardPage

  const FormNameRequired := "Task name is required"
  const FormNameTooShort := "Task name must be at least 3 characters"
  /** The message of the `max(30)` rule, which names a different bound. */
  const FormNameTooLong := "Task name must be at most 20 characters"
  const FormPriorityRequired := "Priority is required"
  const FormPayloadRequired := "Payload is required"
  const FormPayloadNotJson := "Invalid JSON format"

  const FormMinLength := 3
  const FormMaxLength := 30

  /**
   * What the form holds: the text input, the checked radio button (one of the
   * three priorities, or none) and the payload textarea.
   */
  datatype FormValues = FormValues(taskName: string, priority: Option<Priority>, payload: string)

  /** The first error of each field, as shown under it. */
  datatype FormErrors = FormErrors(taskName: Option<string>, priority: Option<string>, payload: Option<string>)

  /** `string().required().min(3).max(30)`: the first failing rule, in that order. */
  function TaskNameCheck(s: string): (r: Option<string>)
    ensures r.None? <==> FormMinLength <= |s| <= FormMaxLength
  {
    if s == "" then Some(FormNameRequired)
    else if |s| < FormMinLength then Some(FormNameTooShort)
    else if |s| > FormMaxLength then Some(FormNameTooLong)
    else None
  }

  function PriorityCheck(p: Option<Priority>): (r: Option<string>)
    ensures r.None? <==> p.Some?
  {
    if p.None? then Some(FormPriorityRequired) else None
  }

  /** `string().required().test('is-json', …)`; `isJson` says whether `JSON.parse` accepts the text. */
  function PayloadCheck(s: string, isJson: string -> bool): (r: Option<string>)
    ensures r.None? <==> s != "" && isJson(s)
  {
    if s == "" then Some(FormPayloadRequired)
    else if !isJson(s) then Some(FormPayloadNotJson)
    else None
  }

  /** The form submits only when no field has an error. */
  predicate Submittable(v: FormValues, isJson: string -> bool)
  {
    FormMinLength <= |v.taskName| <= FormMaxLength && v.priority.Some? && v.payload != "" && isJson(v.payload)
  }

  /** `handleSubmit` with the yup resolver: the values go on, or every field's first error is shown. */
  function CheckForm(v: FormValues, isJson: string -> bool): (r: Result<FormValues, FormErrors>)
    ensures r.Ok? <==> Submittable(v, isJson)
    ensures r.Ok? ==> r.value == v
    ensures r.Err? ==> r.error == FormErrors(TaskNameCheck(v.taskName), PriorityCheck(v.priority),
                                             PayloadCheck(v.payload, isJson))
  {
    var e := FormErrors(TaskNameCheck(v.taskName), PriorityCheck(v.priority), PayloadCheck(v.payload, isJson));
    if e.taskName.None? && e.priority.None? && e.payload.None? then Ok(v) else Err(e)
  }

  /**
   * The bound and its message disagree: a 25-character name is accepted, and
   * a 31-character one is refused with a message naming 20.
   */
  lemma MaxMessageMismatch()
    ensures TaskNameCheck(seq(25, _ => 'a')).None?
    ensures TaskNameCheck(seq(31, _ => 'a')) == Some(FormNameTooLong)
  {
  }

  /** An empty name reports that it is required, not that it is too short. */
  lemma EmptyNameMessage()
    ensures TaskNameCheck("") == Some(FormNameRequired)
  {
  }

  /** `JSON.stringify(data)`: the payload travels as the textarea's text. */
  function RequestBody(v: FormValues): (b: Body)
    requires v.priority.Some?
    ensures Lookup(b, TaskNameKey) == Some(Str(v.taskName))
    ensures Lookup(b, PriorityKey) == Some(Str(PriorityName(v.priority.value)))
    ensures Lookup(b, PayloadKey) == Some(Str(v.payload))
  {
    var b := [(TaskNameKey, Str(v.taskName)), (PriorityKey, Str(PriorityName(v.priority.value))), (PayloadKey, Str(v.payload))];
    assert b[1..][1..] == [(PayloadKey, Str(v.payload))];
    assert |TaskNameKey| != |PayloadKey| && |PriorityKey| != |PayloadKey|;
    assert Lookup(b[1..][1..], PayloadKey) == Some(Str(v.payload));
    b
  }

  /** Whatever the form submits passes the server's schema, since 3..30 lies within 3..150. */
  lemma SubmittedBodyValidates(v: FormValues, isJson: string -> bool)
    requires Submittable(v, isJson)
    ensures Validate(RequestBody(v)).Ok?
    ensures Validate(RequestBody(v)).value == CreateRequest(v.taskName, v.priority.value, Str(v.payload))
  {
    var b := RequestBody(v);
    assert forall i :: 0 <= i < |b| ==> IsSchemaKey(b[i].0);
    var p := v.priority.value;
    assert PriorityName(p) in ["low", "medium", "high"];
    assert Acceptable(b);
    var req := Validate(b).value;
    assert ParsePriority(PriorityName(req.priority)) == Some(p);
  }

  /**
   * A submitted form is stored as a pending job, unless its name is only
   * whitespace: the form counts those characters, the database trims them away.
   */
  lemma SubmittedFormStored(st: Store, v: FormValues, isJson: string -> bool, now: int)
    requires Submittable(v, isJson)
    ensures var r := CreateJob(st, RequestBody(v), now);
      && (r.1.Success? <==> Trim(v.taskName) != [])
      && (r.1.Success? ==> r.1.code == 201 && r.1.data.status == Pending && r.1.data.payload == Str(v.payload))
      && (r.1.Failure? ==> r.1.code == 500)
  {
    SubmittedBodyValidates(v, isJson);
    CreateServerErrors(st, RequestBody(v), now);
  }

  /**
   * `handleCreateJob`'s reply handling: on "Job created successfully" the new
   * job (as `toRow` renders the server's JSON) goes first and the last listed
   * job is dropped, and total and pending go up by one; any other reply
   * changes nothing.
   */
  function OnCreateReply(jobs: seq<Row>, stats: Stats, reply: Response<Job>, toRow: Job -> Row)
    : (r: (seq<Row>, Stats))
    ensures !(reply.Success? && reply.message == CreatedMessage) ==> r == (jobs, stats)
    ensures reply.Success? && reply.message == CreatedMessage ==>
      && |r.0| == (if jobs == [] then 1 else |jobs|)
      && r.0[0] == toRow(reply.data)
      && (forall i :: 1 <= i < |r.0| ==> r.0[i] == jobs[i - 1])
      && r.1 == stats.(total := stats.total + 1, pending := stats.pending + 1)
  {
    if reply.Success? && reply.message == CreatedMessage then
      var kept := if jobs == [] then [] else jobs[..|jobs| - 1];
      ([toRow(reply.data)] + kept, stats.(total := stats.total + 1, pending := stats.pending + 1))
    else (jobs, stats)
  }

  /** The counters stay consistent: when `total` was the sum of the four statuses, it still is. */
  lemma CreateKeepsTotal(jobs: seq<Row>, stats: Stats, reply: Response<Job>, toRow: Job -> Row)
    requires stats.total == StatusSum(stats)
    ensures var r := OnCreateReply(jobs, stats, reply, toRow); r.1.total == StatusSum(r.1)
  {
  }

  /** The page's run and poll updates keep `total` equal to the sum of the four statuses as well. */
  lemma RunAndPollKeepTotal(st: DashState, id: Option<string>, reply: Response<Job>)
    requires st.stats.total == StatusSum(st.stats)
    ensures var s := StartRun(st, id).0; s.stats.total == StatusSum(s.stats)
    ensures var s := PollTick(st, reply); s.stats.total == StatusSum(s.stats)
  {
  }

  /** A successful create reply from the backend itself puts the stored job at the top of the list. */
  lemma CreatedJobListedFirst(st: Store, v: FormValues, isJson: string -> bool, now: int,
                              jobs: seq<Row>, stats: Stats, toRow: Job -> Row)
    requires Submittable(v, isJson) && Trim(v.taskName) != []
    ensures var c := CreateJob(st, RequestBody(v), now);
      var u := OnCreateReply(jobs, stats, c.1, toRow);
      && c.1.Success?
      && c.0.jobs == st.jobs + [c.1.data]
      && u.0[0] == toRow(c.1.data)
      && u.1.pending == stats.pending + 1
  {
    var c := CreateJob(st, RequestBody(v), now);
    assert c.1.Success? by { SubmittedFormStored(st, v, isJson, now); }
  }
}
