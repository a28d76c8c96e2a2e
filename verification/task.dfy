/** Decoded task payloads. JSON text itself is not modelled: turning text
    into a value (`JSON.parse`) and back (`JSON.stringify`) are parameters
    of the operations that need them. */
module Payload {

  datatype Json =
    | JNull
    | JBool(b: bool)
    | JNumber(n: int)
    | JString(s: string)
    | JArray(items: seq<Json>)
    | JObject(members: seq<(string, Json)>)
}

/** The Task value type of src/task.ts: schema validation of the raw stream
    fields on construction, and `incrRetry`. */
module TaskModel {
  import opened Wrappers
  import opened Resp
  import Decimal
  import opened Payload
  import opened Transformers

  datatype Task = Task(id: Reply, dataString: string, dataObj: Json, dedupKey: string, retryCount: nat)

  /** Why the constructor throws. */
  datatype TaskError =
    | RequiresId          // the falsy-id check: "Task requires an ID"
    | NotAnObject         // the schema rejects a value that is not an object
    | Invalid(key: string) // the schema rejects one of its own keys
    | NotAllowed          // a key outside the schema
    | UnreadableValue     // validation passed `undefined` through; reading `.data` throws
    | BadJson             // the payload text does not decode

  const SchemaKeys: set<string> := {"data", "dedupKey", "retryCount"}

  /** The validated (and converted) raw value. */
  datatype RawData = RawData(data: string, dedupKey: string, retryCount: nat)

  /** A required string; the empty string is allowed. */
  function StringField(fields: map<string, Slot>, key: string): (r: Result<string, TaskError>)
    ensures r.Success? <==> key in fields && fields[key].Some? && fields[key].value.Bulk?
    ensures r.Success? ==> r.value == fields[key].value.text
  {
    if key in fields && fields[key].Some? && fields[key].value.Bulk? then Success(fields[key].value.text)
    else Failure(Invalid(key))
  }

  /** `Number.MAX_SAFE_INTEGER`: a number schema rejects any value above
      it as unsafe. */
  const MaxSafeInteger: nat := 9007199254740991

  /** A required non-negative safe integer; with conversion on, a string of
      decimal digits stands for its value. */
  function CountField(fields: map<string, Slot>): (r: Result<nat, TaskError>)
    ensures r.Success? <==> "retryCount" in fields && IsCount(fields["retryCount"])
    ensures r.Success? ==> r.value == CountOf(fields["retryCount"]) <= MaxSafeInteger
  {
    var key := "retryCount";
    if key !in fields || fields[key].None? then Failure(Invalid(key))
    else
      match fields[key].value
      case Integer(n) => if 0 <= n <= MaxSafeInteger then Success(n) else Failure(Invalid(key))
      case Bulk(s) =>
        if Decimal.ParseNat(s).Some? && Decimal.ParseNat(s).value <= MaxSafeInteger then Success(Decimal.ParseNat(s).value)
        else Failure(Invalid(key))
      case _ => Failure(Invalid(key))
  }

  /** Validation against the schema with conversion and no unknown keys.
      `undefined` passes through as `None` (it is not required). */
  function Validate(raw: ObjectReply): Result<Option<RawData>, TaskError> {
    match raw
    case Unchanged(None) => Success(None)
    case Unchanged(Some(_)) => Failure(NotAnObject)
    case Object(fields) =>
      var data :- StringField(fields, "data");
      var dedupKey :- StringField(fields, "dedupKey");
      var retryCount :- CountField(fields);
      if fields.Keys <= SchemaKeys then Success(Some(RawData(data, dedupKey, retryCount)))
      else Failure(NotAllowed)
  }

  // Independent description of what the schema accepts.

  predicate IsText(v: Slot) {
    v.Some? && v.value.Bulk?
  }

  /** An integer from 0 to `MaxSafeInteger`, or digits that convert to one. */
  predicate IsCount(v: Slot) {
    v.Some? &&
    match v.value
    case Integer(n) => 0 <= n <= MaxSafeInteger
    case Bulk(s) => |s| >= 1 && Decimal.AllDigits(s) && Decimal.Value(s) <= MaxSafeInteger
    case _ => false
  }

  function CountOf(v: Slot): nat
    requires IsCount(v)
  {
    match v.value
    case Integer(n) => n
    case Bulk(s) => Decimal.Value(s)
  }

  predicate Conforms(fields: map<string, Slot>) {
    && fields.Keys == SchemaKeys
    && IsText(fields["data"])
    && IsText(fields["dedupKey"])
    && IsCount(fields["retryCount"])
  }

  /** `new Task(id, rawData)`; `decode` is `JSON.parse`, `None` when it throws. */
  function New(id: Slot, raw: ObjectReply, decode: string -> Option<Json>): (r: Result<Task, TaskError>)
    ensures !Truthy(id) ==> r == Failure(RequiresId)
    ensures r.Success? <==> Truthy(id) && raw.Object? && Conforms(raw.fields)
                            && decode(raw.fields["data"].value.text).Some?
    ensures r.Success? ==>
              && r.value.id == id.value
              && r.value.dataString == raw.fields["data"].value.text
              && Some(r.value.dataObj) == decode(r.value.dataString)
              && r.value.dedupKey == raw.fields["dedupKey"].value.text
              && r.value.retryCount == CountOf(raw.fields["retryCount"])
  {
    if !Truthy(id) then Failure(RequiresId)
    else
      var value :- Validate(raw);
      if value.None? then Failure(UnreadableValue)
      else
        var v := value.value;
        match decode(v.data)
        case None => Failure(BadJson)
        case Some(obj) => Success(Task(id.value, v.data, obj, v.dedupKey, v.retryCount))
  }

  /** `incrRetry()`: the retry count goes up by one and nothing else changes. */
  function IncrRetry(t: Task): (r: Task)
    ensures r.retryCount == t.retryCount + 1
    ensures r.id == t.id && r.dataString == t.dataString && r.dataObj == t.dataObj && r.dedupKey == t.dedupKey
  {
    t.(retryCount := t.retryCount + 1)
  }

  /** A retry count written as decimal text converts back to the same count,
      as the constructor sees a retry count read back from the stream. */
  lemma NewConvertsCountText(id: Reply, data: string, dedupKey: string, n: nat, decode: string -> Option<Json>)
    requires Truthy(Some(id)) && decode(data).Some? && n <= MaxSafeInteger
    ensures var raw := Object(map["data" := Some(Bulk(data)), "dedupKey" := Some(Bulk(dedupKey)),
                                  "retryCount" := Some(Bulk(Decimal.Show(n)))]);
            New(Some(id), raw, decode) == Success(Task(id, data, decode(data).value, dedupKey, n))
  {
    Decimal.ParseNatOfShow(n);
    Decimal.ValueOfShow(n);
  }

  /** A count above the safe-integer range is rejected even when written as
      digits. */
  lemma NewRejectsUnsafeCount(id: Reply, data: string, dedupKey: string, n: nat, decode: string -> Option<Json>)
    requires n > MaxSafeInteger
    ensures var raw := Object(map["data" := Some(Bulk(data)), "dedupKey" := Some(Bulk(dedupKey)),
                                  "retryCount" := Some(Bulk(Decimal.Show(n)))]);
            New(Some(id), raw, decode).Failure?
  {
    Decimal.ValueOfShow(n);
  }
}
