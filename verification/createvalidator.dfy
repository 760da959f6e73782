/**
 * The Joi schema for a create request (backend/validators/create.validator.js),
 * validated with `abortEarly: false`, of which the controller reports only the
 * first error. Joi checks the keys in schema order (task_name, priority,
 * payload) and then rejects keys the schema does not know, in `Object.keys`
 * order: array-index keys in numeric order first, then the others in insertion
 * order.
 */
module CreateValidator {
  import opened Wrappers
  import opened Json
  import opened JobModel
  import opened Numerals

  /** No key occurs twice, as in every JavaScript object. */
  predicate DistinctKeys(entries: seq<(string, Value)>)
  {
    forall i, j :: 0 <= i < j < |entries| ==> entries[i].0 != entries[j].0
  }

  /** A JSON request body: the parsed object's entries in insertion order. */
  type Body = entries: seq<(string, Value)> | DistinctKeys(entries)

  /** The value stored under `key`, if the body has that key. */
  function Lookup(body: Body, key: string): (r: Option<Value>)
    ensures r.Some? ==> (key, r.value) in body
    ensures r.None? ==> forall i :: 0 <= i < |body| ==> body[i].0 != key
  {
    if body == [] then None
    else if body[0].0 == key then Some(body[0].1)
    else Lookup(body[1..], key)
  }

  /**
   * `obj[key] = value` on an object's entries: a key already present keeps its
   * place and takes the new value; a new key goes last.
   */
  function Assign(body: Body, key: string, value: Value): (r: Body)
    ensures Lookup(r, key) == Some(value)
    ensures forall k :: k != key ==> Lookup(r, k) == Lookup(body, k)
  {
    if body == [] then [(key, value)]
    else if body[0].0 == key then
      assert forall i :: 0 <= i < |body| - 1 ==> body[1..][i].0 != key by {
        forall i | 0 <= i < |body| - 1 ensures body[1..][i].0 != key {
          assert body[1..][i] == body[i + 1];
        }
      }
      [(key, value)] + body[1..]
    else
      var rest := Assign(body[1..], key, value);
      assert Lookup(rest, body[0].0).None?;
      [body[0]] + rest
  }

  /**
   * The object `JSON.parse` builds from the members of an object literal, read
   * left to right: a repeated key keeps its first place and its last value.
   */
  function ObjectOf(members: seq<(string, Value)>): (r: Body)
  {
    if members == [] then []
    else
      var last := members[|members| - 1];
      Assign(ObjectOf(members[..|members| - 1]), last.0, last.1)
  }

  /** A key of the parsed object holds the value of its last occurrence in the literal. */
  lemma {:induction false} ObjectOfLookup(members: seq<(string, Value)>, key: string, i: int)
    requires 0 <= i < |members| && members[i].0 == key
    requires forall j :: i < j < |members| ==> members[j].0 != key
    ensures Lookup(ObjectOf(members), key) == Some(members[i].1)
  {
    var n := |members|;
    if i < n - 1 {
      ObjectOfLookup(members[..n - 1], key, i);
    }
  }

  /** A key absent from the literal is absent from the parsed object. */
  lemma {:induction false} ObjectOfMissing(members: seq<(string, Value)>, key: string)
    requires forall j :: 0 <= j < |members| ==> members[j].0 != key
    ensures Lookup(ObjectOf(members), key) == None
  {
    if members != [] {
      ObjectOfMissing(members[..|members| - 1], key);
    }
  }

  /** A literal without repeated keys parses to its own members, in their order. */
  lemma {:induction false} ObjectOfDistinct(members: seq<(string, Value)>)
    requires DistinctKeys(members)
    ensures ObjectOf(members) == members
  {
    if members != [] {
      var n := |members|;
      var init := members[..n - 1];
      assert DistinctKeys(init);
      ObjectOfDistinct(init);
      AssignNew(init, members[n - 1].0, members[n - 1].1);
    }
  }

  /** Assigning a key the object does not have appends it. */
  lemma {:induction false} AssignNew(body: Body, key: string, value: Value)
    requires forall i :: 0 <= i < |body| ==> body[i].0 != key
    ensures Assign(body, key, value) == body + [(key, value)]
  {
    if body != [] {
      AssignNew(body[1..], key, value);
    }
  }

  const TaskNameKey := "task_name"
  const PriorityKey := "priority"
  const PayloadKey := "payload"

  const TaskNameNotString := "Task name should be a type of string"
  const TaskNameEmpty := "Task name cannot be an empty"
  const TaskNameRequired := "Task name is a required"
  const TaskNameTooShort := "Task name should have a minimum length 3"
  const TaskNameTooLong := "Task name should have a maximum length of 150"
  const PriorityRequired := "Priority is required"
  const PriorityNotAllowed := "Priority must be low, medium, or high"
  const PriorityEmpty := "Priority cannot be an empty"
  const PriorityNotString := "Priority should be a type of string"
  const PayloadRequired := "Payload is required"

  const MinTaskNameLength := 3
  const MaxTaskNameLength := 150

  /** Joi's default message for a key the object schema does not declare. */
  function UnknownKeyMessage(key: string): string
  {
    "\"" + key + "\" is not allowed"
  }

  /** The first error Joi reports for `task_name`: presence, type, emptiness, then length. */
  function TaskNameError(v: Option<Value>): Option<string>
  {
    match v
    case None => Some(TaskNameRequired)
    case Some(Str(s)) =>
      if s == "" then Some(TaskNameEmpty)
      else if |s| < MinTaskNameLength then Some(TaskNameTooShort)
      else if |s| > MaxTaskNameLength then Some(TaskNameTooLong)
      else None
    case Some(_) => Some(TaskNameNotString)
  }

  /**
   * The first error Joi reports for `priority`. Joi compares a present value with
   * the `valid` list before it checks the type, so any present value outside the
   * list (an empty string or a number included) is reported as `any.only`.
   */
  function PriorityError(v: Option<Value>): Option<string>
  {
    match v
    case None => Some(PriorityRequired)
    case Some(Str(s)) => if ParsePriority(s).Some? then None else Some(PriorityNotAllowed)
    case Some(_) => Some(PriorityNotAllowed)
  }

  /** `Joi.any().required()`: only absence fails; `null` is accepted. */
  function PayloadError(v: Option<Value>): Option<string>
  {
    if v.None? then Some(PayloadRequired) else None
  }

  predicate IsSchemaKey(k: string)
  {
    k == TaskNameKey || k == PriorityKey || k == PayloadKey
  }

  /** The position of the first key the schema does not declare, or `|body|`. */
  function FirstUnknownAt(body: Body): (i: nat)
    ensures i <= |body| && (i < |body| ==> !IsSchemaKey(body[i].0))
    ensures forall j :: 0 <= j < i ==> IsSchemaKey(body[j].0)
  {
    if body == [] then 0
    else if !IsSchemaKey(body[0].0) then 0
    else 1 + FirstUnknownAt(body[1..])
  }

  /**
   * A key JavaScript treats as an array index: the canonical decimal form of an
   * integer below 2^32 - 1 (section 6.1.7 of ECMA-262).
   */
  predicate IsArrayIndex(k: string)
  {
    k != [] && AllDigits(k, 10) && (k[0] == '0' ==> |k| == 1) && RadixValue(k, 10) < 0xFFFF_FFFF
  }

  /** The number an array-index key stands for. */
  function IndexValue(k: string): nat
    requires IsArrayIndex(k)
  {
    RadixValue(k, 10)
  }

  /** The position of the array-index key of least value, if the body has one. */
  function LeastIndexAt(body: Body): (r: Option<nat>)
    ensures r.None? ==> forall j :: 0 <= j < |body| ==> !IsArrayIndex(body[j].0)
    ensures r.Some? ==> r.value < |body| && IsArrayIndex(body[r.value].0)
    ensures r.Some? ==> forall j :: 0 <= j < |body| && IsArrayIndex(body[j].0) ==>
      IndexValue(body[r.value].0) <= IndexValue(body[j].0)
  {
    if body == [] then None
    else
      var rest := LeastIndexAt(body[1..]);
      assert forall j :: 1 <= j < |body| ==> body[j] == body[1..][j - 1];
      if !IsArrayIndex(body[0].0) then
        if rest.Some? then Some(rest.value + 1) else None
      else if rest.Some? && IndexValue(body[rest.value + 1].0) < IndexValue(body[0].0) then Some(rest.value + 1)
      else Some(0)
  }

  /** None of the schema's keys is an array index. */
  lemma SchemaKeysAreNamed()
    ensures !IsArrayIndex(TaskNameKey) && !IsArrayIndex(PriorityKey) && !IsArrayIndex(PayloadKey)
  {
    assert DigitValue(TaskNameKey[0], 10).None?;
    assert DigitValue(PriorityKey[0], 10).None?;
    assert DigitValue(PayloadKey[0], 10).None?;
  }

  /**
   * `k` comes first among the body's unknown keys in `Object.keys` order: the
   * least array-index key if there is one, otherwise the first unknown key in
   * insertion order.
   */
  predicate FirstInKeyOrder(body: Body, k: string)
  {
    && !IsSchemaKey(k)
    && (exists i :: 0 <= i < |body| && body[i].0 == k)
    && (IsArrayIndex(k) ==>
          forall i :: 0 <= i < |body| && IsArrayIndex(body[i].0) ==> IndexValue(k) <= IndexValue(body[i].0))
    && (!IsArrayIndex(k) ==>
          && (forall i :: 0 <= i < |body| ==> !IsArrayIndex(body[i].0))
          && exists i :: 0 <= i < |body| && body[i].0 == k && forall j :: 0 <= j < i ==> IsSchemaKey(body[j].0))
  }

  /**
   * The unknown key Joi reports first. Joi walks the keys in `Object.keys`
   * order, which lists array indices in ascending numeric order before the
   * other keys in insertion order.
   */
  function FirstReportedKey(body: Body): (k: string)
    requires FirstUnknownAt(body) < |body|
    ensures FirstInKeyOrder(body, k)
  {
    SchemaKeysAreNamed();
    match LeastIndexAt(body)
    case Some(i) => body[i].0
    case None => body[FirstUnknownAt(body)].0
  }

  /** The validated value the controller destructures. */
  datatype CreateRequest = CreateRequest(taskName: string, priority: Priority, payload: Value)

  /** What the schema accepts, stated rule by rule. */
  predicate Acceptable(body: Body)
  {
    && Lookup(body, TaskNameKey).Some? && Lookup(body, TaskNameKey).value.Str?
    && MinTaskNameLength <= |Lookup(body, TaskNameKey).value.s| <= MaxTaskNameLength
    && Lookup(body, PriorityKey).Some? && Lookup(body, PriorityKey).value.Str?
    && Lookup(body, PriorityKey).value.s in ["low", "medium", "high"]
    && Lookup(body, PayloadKey).Some?
    && forall i :: 0 <= i < |body| ==> IsSchemaKey(body[i].0)
  }

  /** `jobCreateSchema.validate(body, { abortEarly: false })`, reduced to `details[0].message`. */
  function Validate(body: Body): (r: Result<CreateRequest, string>)
    ensures r.Ok? <==> Acceptable(body)
    ensures r.Ok? ==>
      && Lookup(body, TaskNameKey) == Some(Str(r.value.taskName))
      && Lookup(body, PriorityKey) == Some(Str(PriorityName(r.value.priority)))
      && Lookup(body, PayloadKey) == Some(r.value.payload)
  {
    var t := Lookup(body, TaskNameKey);
    var p := Lookup(body, PriorityKey);
    var d := Lookup(body, PayloadKey);
    if TaskNameError(t).Some? then Err(TaskNameError(t).value)
    else if PriorityError(p).Some? then Err(PriorityError(p).value)
    else if PayloadError(d).Some? then Err(PayloadError(d).value)
    else if FirstUnknownAt(body) < |body| then Err(UnknownKeyMessage(FirstReportedKey(body)))
    else
      Ok(CreateRequest(t.value.s, ParsePriority(p.value.s).value, d.value))
  }

  /**
   * The reported message is the first failing rule's: task_name before priority
   * before payload before unknown keys.
   */
  const ObjectBaseMessage := "\"value\" must be of type object"

  /**
   * `jobCreateSchema.validate(req.body, ...)` for whatever `express.json()`
   * parsed: `Joi.object` refuses anything but an object before any key rule
   * runs, and an object is validated as `JSON.parse` built it.
   */
  function ValidateValue(v: Value): (r: Result<CreateRequest, string>)
    ensures !v.Obj? ==> r == Err(ObjectBaseMessage)
    ensures v.Obj? && DistinctKeys(v.fields) ==> r == Validate(v.fields)
  {
    match v
    case Obj(members) =>
      assert DistinctKeys(members) ==> ObjectOf(members) == members by {
        if DistinctKeys(members) {
          ObjectOfDistinct(members);
        }
      }
      Validate(ObjectOf(members))
    case _ => Err(ObjectBaseMessage)
  }

  /** An array body, which `express.json()` lets through, is refused as not an object. */
  lemma ArrayBodyRefused(items: seq<Value>)
    ensures ValidateValue(Arr(items)) == Err(ObjectBaseMessage)
  {
  }

  /** With a repeated key the last value counts: `{"priority": "urgent", "priority": "low"}` passes the priority rule. */
  lemma RepeatedKeyLastWins()
    ensures ValidateValue(Obj([(TaskNameKey, Str("abc")), (PriorityKey, Str("urgent")),
                               (PriorityKey, Str("low")), (PayloadKey, Obj([]))]))
      == Ok(CreateRequest("abc", Low, Obj([])))
  {
    RepeatedKeyParsed();
    var body: Body := [(TaskNameKey, Str("abc")), (PriorityKey, Str("low")), (PayloadKey, Obj([]))];
    assert Validate(body) == Ok(CreateRequest("abc", Low, Obj([]))) by {
      RepeatedKeyBodyValid(body);
    }
  }

  lemma RepeatedKeyParsed()
    ensures ObjectOf([(TaskNameKey, Str("abc")), (PriorityKey, Str("urgent")),
                      (PriorityKey, Str("low")), (PayloadKey, Obj([]))])
      == [(TaskNameKey, Str("abc")), (PriorityKey, Str("low")), (PayloadKey, Obj([]))]
  {
    var t, u, l, d := (TaskNameKey, Str("abc")), (PriorityKey, Str("urgent")), (PriorityKey, Str("low")), (PayloadKey, Obj([]));
    var members := [t, u, l, d];
    assert members[..3] == [t, u, l] && [t, u, l][..2] == [t, u] && [t, u][..1] == [t] && [t][..0] == [];
    assert TaskNameKey[0] != PriorityKey[0] && TaskNameKey[0] != PayloadKey[0] && PriorityKey[1] != PayloadKey[1];
    assert ObjectOf([t]) == [t];
    AssignNew([t], u.0, u.1);
    assert ObjectOf([t, u]) == [t, u];
    assert [t, u][1..] == [u] && [u][1..] == [];
    assert Assign([u], l.0, l.1) == [l];
    assert Assign([t, u], l.0, l.1) == [t] + Assign([u], l.0, l.1);
    assert ObjectOf([t, u, l]) == [t, l];
    AssignNew([t, l], d.0, d.1);
  }

  lemma RepeatedKeyBodyValid(body: Body)
    requires body == [(TaskNameKey, Str("abc")), (PriorityKey, Str("low")), (PayloadKey, Obj([]))]
    ensures Validate(body) == Ok(CreateRequest("abc", Low, Obj([])))
  {
    assert Lookup(body, TaskNameKey) == Some(Str("abc"));
    assert body[1..][0].0 == PriorityKey && body[1..][1..][0].0 == PayloadKey;
    assert Lookup(body, PriorityKey) == Some(Str("low"));
    assert Lookup(body, PayloadKey) == Some(Obj([]));
    assert FirstUnknownAt(body) == |body|;
  }

  lemma ReportsFirstFailure(body: Body)
    ensures TaskNameError(Lookup(body, TaskNameKey)).Some? ==>
      Validate(body) == Err(TaskNameError(Lookup(body, TaskNameKey)).value)
    ensures TaskNameError(Lookup(body, TaskNameKey)).None? && PriorityError(Lookup(body, PriorityKey)).Some? ==>
      Validate(body) == Err(PriorityError(Lookup(body, PriorityKey)).value)
    ensures (TaskNameError(Lookup(body, TaskNameKey)).None? && PriorityError(Lookup(body, PriorityKey)).None?
             && Lookup(body, PayloadKey).None?) ==> Validate(body) == Err(PayloadRequired)
    ensures (TaskNameError(Lookup(body, TaskNameKey)).None? && PriorityError(Lookup(body, PriorityKey)).None?
             && Lookup(body, PayloadKey).Some?) ==>
      (Validate(body).Err? <==> exists i :: 0 <= i < |body| && !IsSchemaKey(body[i].0))
    ensures (Validate(body).Err? && TaskNameError(Lookup(body, TaskNameKey)).None?
             && PriorityError(Lookup(body, PriorityKey)).None? && Lookup(body, PayloadKey).Some?) ==>
      exists k :: Validate(body) == Err(UnknownKeyMessage(k)) && FirstInKeyOrder(body, k)
  {
    if TaskNameError(Lookup(body, TaskNameKey)).None? && PriorityError(Lookup(body, PriorityKey)).None?
      && Lookup(body, PayloadKey).Some? && FirstUnknownAt(body) < |body| {
      assert Validate(body) == Err(UnknownKeyMessage(FirstReportedKey(body)));
    }
  }

  /** An array-index key is reported before a named key that precedes it. */
  lemma IndexKeyFirstExample()
    ensures Validate([(TaskNameKey, Str("send-email")), (PriorityKey, Str("high")), (PayloadKey, Null),
                      ("x", Num(1)), ("5", Num(2))])
      == Err(UnknownKeyMessage("5"))
  {
    var body := [(TaskNameKey, Str("send-email")), (PriorityKey, Str("high")), (PayloadKey, Null),
                 ("x", Num(1)), ("5", Num(2))];
    assert TaskNameError(Lookup(body, TaskNameKey)).None? by {
      assert Lookup(body, TaskNameKey) == Some(Str("send-email"));
    }
    assert PriorityError(Lookup(body, PriorityKey)).None? by {
      assert Lookup(body, PriorityKey) == Some(Str("high"));
      assert ParsePriority("high") == Some(High);
    }
    assert PayloadError(Lookup(body, PayloadKey)).None? by {
      assert Lookup(body[2..], PayloadKey) == Some(Null);
    }
    IndexKeyOrderExample(body);
  }

  /** The body of the previous example reports "5", the least array-index key. */
  lemma IndexKeyOrderExample(body: Body)
    requires |body| == 5 && body[0].0 == TaskNameKey && body[1].0 == PriorityKey && body[2].0 == PayloadKey
    requires body[3].0 == "x" && body[4].0 == "5"
    ensures FirstUnknownAt(body) == 3 && FirstReportedKey(body) == "5"
  {
    assert FirstUnknownAt(body) == 3 by {
      assert FirstUnknownAt(body[3..]) == 0;
      assert FirstUnknownAt(body[2..]) == 1;
      assert FirstUnknownAt(body[1..]) == 2;
    }
    assert IsArrayIndex("5") by {
      assert DigitValue('5', 10) == Some(5);
      assert RadixValue("5", 10) == 5;
    }
  }

  /** task_name is accepted exactly when it is a string of 3 to 150 characters. */
  lemma TaskNameRule(v: Option<Value>)
    ensures TaskNameError(v).None? <==> v.Some? && v.value.Str? && 3 <= |v.value.s| <= 150
    ensures v.Some? && v.value.Str? && 0 < |v.value.s| < 3 ==> TaskNameError(v) == Some(TaskNameTooShort)
    ensures v.Some? && v.value.Str? && |v.value.s| > 150 ==> TaskNameError(v) == Some(TaskNameTooLong)
    ensures v == Some(Str("")) ==> TaskNameError(v) == Some(TaskNameEmpty)
    ensures v.Some? && !v.value.Str? ==> TaskNameError(v) == Some(TaskNameNotString)
  {
  }

  /** Two of the schema's priority messages can never be the one reported. */
  lemma PriorityTypeMessagesNeverReported(body: Body)
    ensures Validate(body).Err? ==>
      Validate(body).error != PriorityEmpty && Validate(body).error != PriorityNotString
  {
    var r := Validate(body);
    if r.Err? && TaskNameError(Lookup(body, TaskNameKey)).None? && PriorityError(Lookup(body, PriorityKey)).None?
      && PayloadError(Lookup(body, PayloadKey)).None? {
      assert r.error == UnknownKeyMessage(FirstReportedKey(body));
      assert r.error[0] == '"';
    }
  }

  /** An empty priority string is reported as not allowed rather than as empty. */
  lemma EmptyPriorityExample()
    ensures Validate([(TaskNameKey, Str("send-email")), (PriorityKey, Str("")), (PayloadKey, Obj([]))])
      == Err(PriorityNotAllowed)
  {
    var body := [(TaskNameKey, Str("send-email")), (PriorityKey, Str("")), (PayloadKey, Obj([]))];
    assert Lookup(body, TaskNameKey) == Some(Str("send-email"));
    assert Lookup(body, PriorityKey) == Some(Str(""));
  }

  /** A key outside the schema rejects an otherwise valid body. */
  lemma UnknownKeyExample()
    ensures Validate([(TaskNameKey, Str("send-email")), (PriorityKey, Str("high")), (PayloadKey, Null),
                      ("status", Str("running"))])
      == Err(UnknownKeyMessage("status"))
  {
    var body := [(TaskNameKey, Str("send-email")), (PriorityKey, Str("high")), (PayloadKey, Null),
                 ("status", Str("running"))];
    assert TaskNameError(Lookup(body, TaskNameKey)).None? by {
      assert Lookup(body, TaskNameKey) == Some(Str("send-email"));
    }
    assert PriorityError(Lookup(body, PriorityKey)).None? by {
      assert Lookup(body, PriorityKey) == Some(Str("high"));
      assert ParsePriority("high") == Some(High);
    }
    assert PayloadError(Lookup(body, PayloadKey)).None? by {
      assert Lookup(body[2..], PayloadKey) == Some(Null);
    }
    NamedKeyOrderExample(body);
  }

  /** The body of the previous example reports "status", its only unknown key. */
  lemma NamedKeyOrderExample(body: Body)
    requires |body| == 4 && body[0].0 == TaskNameKey && body[1].0 == PriorityKey && body[2].0 == PayloadKey
    requires body[3].0 == "status"
    ensures FirstUnknownAt(body) == 3 && FirstReportedKey(body) == "status"
  {
    assert FirstUnknownAt(body) == 3 by {
      assert FirstUnknownAt(body[3..]) == 0;
      assert FirstUnknownAt(body[2..]) == 1;
      assert FirstUnknownAt(body[1..]) == 2;
    }
    assert !IsArrayIndex("status") by {
      assert DigitValue('s', 10).None?;
    }
  }
}
