/** The `Filter` class: its stored session context and its three hooks
    `inlet`, `stream` and `outlet`. Each hook is a pure function from the
    filter's state and the hook's arguments to the value handed back to the
    pipeline, the filter's next state and the log entries it prints. */
module DevLogger {
  import opened Outcomes
  import opened Values
  import opened Text
  import opened Settings
  import opened LogFormat
  import Utf8

  /** The filter instance: its valves and the identity and model id of the
      last inbound request that carried a (truthy) user. */
  datatype Filter = Filter(valves: Valves, lastUserInfo: Dict, lastModelId: Value)

  /** A filter as `__init__` leaves it. */
  const Initial := Filter(DefaultValves, map[], NA)

  datatype Hook = InletHook | StreamHook | OutletHook

  /** One printed log record. */
  datatype Entry =
    | Logged(block: Block)                        // a `_print_log` block
    | StreamDict(chunk: Value)                    // "(Dict) AI streaming: ..."
    | StreamBytes(text: string)                   // "(Bytes) AI streaming: ..."
    | StreamBytesRaw(raw: seq<byte>)              // "(Bytes) AI streaming (raw): ..."
    | StreamUnknown(typeName: string, data: string)  // "(Unknown Type: ...) Data: ..."
    | HookError(hook: Hook)                       // an exception caught at the hook boundary

  /** What one hook call produces. */
  datatype Step<T> = Step(returned: T, filter: Filter, log: seq<Entry>)

  /** The entry of a `try` block around one `_print_log` call. */
  function Guarded(hook: Hook, block: Try<Block>): Entry
  {
    match block
    case Ok(b) => Logged(b)
    case Raise => HookError(hook)
  }

  // ---------------------------------------------------------------- inlet

  /** The session context saved by `inlet`: only a truthy user (not None,
      not `{}`) overwrites it. A model dict without "id" is recorded as
      "N/A" (see `InletAsWritten` for the code as written). */
  function Remember(f: Filter, user: Option<Dict>, model: Option<Dict>): (r: Filter)
    ensures r.valves == f.valves
    ensures TruthyDict(user) ==> r.lastUserInfo == user.value
    ensures TruthyDict(user) && TruthyDict(model) && "id" in model.value ==> r.lastModelId == model.value["id"]
    ensures TruthyDict(user) && (!TruthyDict(model) || "id" !in model.value) ==> r.lastModelId == NA
    ensures !TruthyDict(user) ==> r == f
  {
    if TruthyDict(user) then
      f.(lastUserInfo := user.value,
         lastModelId := if TruthyDict(model) then Get(model.value, "id", NA) else NA)
    else f
  }

  /** `body["messages"][-1]`, or `{}` when the key is absent or the
      sequence is empty. Raises where `len()` or indexing raises. */
  function LastMessage(body: Dict): (r: Try<Value>)
    ensures "messages" !in body ==> r == Ok(EmptyDict)
    ensures "messages" in body && Len(body["messages"]) == Some(0) ==> r == Ok(EmptyDict)
    ensures "messages" in body && Len(body["messages"]).None? ==> r.Raise?
    ensures "messages" in body && body["messages"].PyList? && |body["messages"].items| > 0 ==>
              r == Ok(body["messages"].items[|body["messages"].items| - 1])
    ensures "messages" in body && !body["messages"].PyList? && Len(body["messages"]) != Some(0) ==>
              r.Raise? || !r.value.PyDict?
  {
    if "messages" !in body then Ok(EmptyDict)
    else
      match body["messages"]
      case PyList(items) => if |items| == 0 then Ok(EmptyDict) else Ok(items[|items| - 1])
      case PyStr(s) => if |s| == 0 then Ok(EmptyDict) else Ok(PyStr([s[|s| - 1]]))
      case PyBytes(b) => if |b| == 0 then Ok(EmptyDict) else Ok(PyInt(b[|b| - 1]))
      case PyDict(d) => if |d| == 0 then Ok(EmptyDict) else Raise
      case _ => Raise
  }

  /** The part of `inlet` after the context is saved: the gate and the
      guarded INLET block, which reads the stored context. */
  function InletLogging(f: Filter, body: Dict, user: Option<Dict>): Step<Dict>
  {
    if !f.valves.enabled || !f.valves.logInlet || user.None? then
      Step(body, f, [])
    else
      var block := match LastMessage(body)
        case Raise => Raise
        case Ok(m) => PrintLog(f.valves, InletTag, f.lastUserInfo, f.lastModelId, m);
      Step(body, f, [Guarded(InletHook, block)])
  }

  /** `Filter.inlet`. */
  function Inlet(f: Filter, body: Dict, user: Option<Dict>, model: Option<Dict>): (r: Step<Dict>)
    ensures r.returned == body
    ensures r.filter.valves == f.valves
    ensures TruthyDict(user) ==> r.filter.lastUserInfo == user.value
    ensures TruthyDict(user) && !TruthyDict(model) ==> r.filter.lastModelId == NA
    ensures TruthyDict(user) && TruthyDict(model) && "id" in model.value ==>
              r.filter.lastModelId == model.value["id"]
    ensures TruthyDict(user) && TruthyDict(model) && "id" !in model.value ==>
              r.filter.lastModelId == NA
    ensures !TruthyDict(user) ==> r.filter == f
    ensures |r.log| <= 1
    ensures r.log == [] <==> !f.valves.enabled || !f.valves.logInlet || user.None?
  {
    InletLogging(Remember(f, user, model), body, user)
  }

  /** The outcome of `inlet` as written, where the `__model__["id"]` lookup
      on line 119 sits outside the `try` and its `KeyError` escapes. */
  datatype InletOutcome = Returned(step: Step<Dict>) | Raised(filter: Filter)

  /** `Filter.inlet` exactly as written. */
  function InletAsWritten(f: Filter, body: Dict, user: Option<Dict>, model: Option<Dict>): (r: InletOutcome)
    ensures r.Raised? <==> TruthyDict(user) && TruthyDict(model) && "id" !in model.value
    ensures r.Raised? ==> r.filter == f.(lastUserInfo := user.value)
    ensures r.Returned? ==> r.step.returned == body
  {
    if TruthyDict(user) then
      var saved := f.(lastUserInfo := user.value);
      if TruthyDict(model) && "id" !in model.value then
        Raised(saved)
      else
        var f' := saved.(lastModelId := if TruthyDict(model) then model.value["id"] else NA);
        Returned(InletLogging(f', body, user))
    else
      Returned(InletLogging(f, body, user))
  }

  /** A truthy user with a non-empty model dict lacking "id" makes the
      inlet hook raise instead of handing the body back, with the user
      already saved but the model id left stale. */
  lemma InletAsWrittenRaisesOnModelWithoutId(f: Filter, body: Dict)
    ensures
      var user := map["email" := PyStr("a@example.com")];
      var model := map["name" := PyStr("some-model")];
      InletAsWritten(f, body, Some(user), Some(model))
        == Raised(f.(lastUserInfo := user))
  {
  }

  /** On every other input the corrected hook behaves exactly as written. */
  lemma InletAsWrittenAgreesOtherwise(f: Filter, body: Dict, user: Option<Dict>, model: Option<Dict>)
    requires !(TruthyDict(user) && TruthyDict(model) && "id" !in model.value)
    ensures InletAsWritten(f, body, user, model) == Returned(Inlet(f, body, user, model))
  {
  }

  /** The overwrite precedes the enable check: the context is captured even
      when logging is off, and a falsy user never touches it. */
  lemma InletCapturesContextWhileDisabled(f: Filter, body: Dict, user: Option<Dict>, model: Option<Dict>)
    requires !f.valves.enabled || !f.valves.logInlet
    ensures Inlet(f, body, user, model).log == []
    ensures Inlet(f, body, user, model).filter == Remember(f, user, model)
  {
  }

  /** An open INLET gate logs the last message of the body, under the
      context just stored. */
  lemma InletLogsLastMessage(f: Filter, body: Dict, user: Option<Dict>, model: Option<Dict>)
    requires f.valves.enabled && f.valves.logInlet && user.Some?
    requires "messages" in body && body["messages"].PyList? && |body["messages"].items| > 0
    requires var last := body["messages"].items[|body["messages"].items| - 1];
             last.PyDict? && Get(last.fields, "content", PyStr("")).PyStr?
    ensures
      var r := Inlet(f, body, user, model);
      var last := body["messages"].items[|body["messages"].items| - 1];
      var text := Get(last.fields, "content", PyStr("")).s;
      r.log == [Logged(Block(
        tag := InletTag,
        email := Get(r.filter.lastUserInfo, "email", NA),
        userRole := Get(r.filter.lastUserInfo, "role", NA),
        modelId := r.filter.lastModelId,
        messageRole := Get(last.fields, "role", NA),
        content := PyStr(Truncate(text, f.valves.truncateMessage)),
        userDetail := if f.valves.logUserInfo then Some(r.filter.lastUserInfo) else None))]
  {
  }

  /** Without messages the INLET block shows an empty record: empty
      content and role "N/A". */
  lemma InletWithoutMessagesLogsEmptyRecord(f: Filter, body: Dict, user: Option<Dict>, model: Option<Dict>)
    requires f.valves.enabled && f.valves.logInlet && user.Some?
    requires "messages" !in body || body["messages"] == PyList([])
    ensures |Inlet(f, body, user, model).log| == 1
    ensures Inlet(f, body, user, model).log[0].Logged?
    ensures Inlet(f, body, user, model).log[0].block.content == PyStr("")
    ensures Inlet(f, body, user, model).log[0].block.messageRole == NA
  {
  }

  /** An empty user dict is not saved, yet it passes the `is None` gate:
      the INLET block shows the previously stored identity and model id. */
  lemma InletEmptyUserLogsStoredContext(f: Filter, body: Dict, model: Option<Dict>)
    requires f.valves.enabled && f.valves.logInlet
    ensures Inlet(f, body, Some(map[]), model).filter == f
    ensures |Inlet(f, body, Some(map[]), model).log| == 1
    ensures Inlet(f, body, Some(map[]), model).log[0].Logged? ==>
              var b := Inlet(f, body, Some(map[]), model).log[0].block;
              b.email == Get(f.lastUserInfo, "email", NA) && b.modelId == f.lastModelId
              && b.userRole == Get(f.lastUserInfo, "role", NA)
              && b.userDetail == (if f.valves.logUserInfo then Some(f.lastUserInfo) else None)
  {
  }

  // --------------------------------------------------------------- outlet

  /** Where the backward scan for an assistant message stops. */
  datatype Scan = Found(index: nat) | NonDict(index: nat) | NoAssistant

  predicate IsAssistant(m: Value)
  {
    m.PyDict? && Get(m.fields, "role", PyNone) == PyStr("assistant")
  }

  /** Every message from `from` on is a dict whose role is not "assistant". */
  ghost predicate PassedOver(items: seq<Value>, from: nat)
  {
    forall j :: from <= j < |items| ==> items[j].PyDict? && !IsAssistant(items[j])
  }

  /** `for msg in reversed(messages)`: stops at the first assistant message
      from the end, or raises at the first non-dict (which has no `get`). */
  function ScanAssistant(items: seq<Value>): (r: Scan)
    ensures r.Found? ==> r.index < |items| && IsAssistant(items[r.index]) && PassedOver(items, r.index + 1)
    ensures r.NonDict? ==> r.index < |items| && !items[r.index].PyDict? && PassedOver(items, r.index + 1)
    ensures r.NoAssistant? ==> PassedOver(items, 0)
    decreases |items|
  {
    if |items| == 0 then NoAssistant
    else
      var m := items[|items| - 1];
      if !m.PyDict? then NonDict(|items| - 1)
      else if IsAssistant(m) then Found(|items| - 1)
      else ScanAssistant(items[..|items| - 1])
  }

  /** The message the OUTLET block shows, or `{}` when there is none. */
  function LastAssistantMessage(body: Dict): (r: Try<Value>)
    ensures "messages" !in body ==> r == Ok(EmptyDict)
    ensures "messages" in body && Len(body["messages"]) == Some(0) ==> r == Ok(EmptyDict)
    ensures "messages" in body && !body["messages"].PyList? && Len(body["messages"]) != Some(0) ==> r.Raise?
    ensures r.Ok? ==> r.value == EmptyDict || IsAssistant(r.value)
    ensures "messages" in body && body["messages"].PyList? ==>
              var items := body["messages"].items;
              && ((forall j :: 0 <= j < |items| ==> items[j].PyDict?) ==> r.Ok?)
              && (r == Ok(EmptyDict) ==> PassedOver(items, 0))
              && (forall i :: 0 <= i < |items| && IsAssistant(items[i]) && PassedOver(items, i + 1) ==>
                    r == Ok(items[i]))
              && (r.Ok? && IsAssistant(r.value) ==>
                    exists i :: 0 <= i < |items| && items[i] == r.value && PassedOver(items, i + 1))
  {
    if "messages" !in body then Ok(EmptyDict)
    else
      match body["messages"]
      case PyList(items) =>
        (match ScanAssistant(items)
         case Found(i) => Ok(items[i])
         case NoAssistant => Ok(EmptyDict)
         case NonDict(_) => Raise)
      case PyStr(s) => if |s| == 0 then Ok(EmptyDict) else Raise
      case PyBytes(b) => if |b| == 0 then Ok(EmptyDict) else Raise
      case PyDict(d) => if |d| == 0 then Ok(EmptyDict) else Raise
      case _ => Raise
  }

  /** `__model__["id"] if __model__ is not None else "N/A"`, inside the try. */
  function OutletModelId(model: Option<Dict>): (r: Try<Value>)
    ensures r.Raise? <==> model.Some? && "id" !in model.value
    ensures model.None? ==> r == Ok(NA)
    ensures model.Some? && "id" in model.value ==> r == Ok(model.value["id"])
  {
    if model.None? then Ok(NA)
    else if "id" in model.value then Ok(model.value["id"])
    else Raise
  }

  /** `Filter.outlet`. */
  function Outlet(f: Filter, body: Dict, user: Option<Dict>, model: Option<Dict>): (r: Step<Dict>)
    ensures r.returned == body
    ensures r.filter == f
    ensures |r.log| <= 1
    ensures r.log == [] <==> !f.valves.enabled || !f.valves.logOutlet || user.None?
  {
    if !f.valves.enabled || !f.valves.logOutlet || user.None? then
      Step(body, f, [])
    else
      var block :=
        match OutletModelId(model)
        case Raise => Raise
        case Ok(modelId) =>
          match LastAssistantMessage(body)
          case Raise => Raise
          case Ok(m) => PrintLog(f.valves, OutletTag, f.lastUserInfo, modelId, m);
      Step(body, f, [Guarded(OutletHook, block)])
  }

  /** An open OUTLET gate logs the last assistant message, under the stored
      identity and the model id of the passed descriptor (else "N/A"). */
  lemma OutletLogsLastAssistant(f: Filter, body: Dict, user: Option<Dict>, model: Option<Dict>, i: nat)
    requires f.valves.enabled && f.valves.logOutlet && user.Some?
    requires model.None? || "id" in model.value
    requires "messages" in body && body["messages"].PyList?
    requires var items := body["messages"].items;
             i < |items| && IsAssistant(items[i]) && Get(items[i].fields, "content", PyStr("")).PyStr?
             && forall j :: i < j < |items| ==> items[j].PyDict? && !IsAssistant(items[j])
    ensures
      var m := body["messages"].items[i];
      var text := Get(m.fields, "content", PyStr("")).s;
      Outlet(f, body, user, model).log == [Logged(Block(
        tag := OutletTag,
        email := Get(f.lastUserInfo, "email", NA),
        userRole := Get(f.lastUserInfo, "role", NA),
        modelId := if model.None? then NA else model.value["id"],
        messageRole := PyStr("assistant"),
        content := PyStr(Truncate(text, f.valves.truncateMessage)),
        userDetail := None))]
  {
    var items := body["messages"].items;
    assert ScanAssistant(items) == Found(i);
  }

  /** Of the messages user, assistant, user, assistant, the fourth is logged. */
  lemma OutletLogsFourthOfFour(f: Filter, user: Dict, a1: string, a2: string)
    requires f.valves.enabled && f.valves.logOutlet
    ensures
      var u := PyDict(map["role" := PyStr("user"), "content" := PyStr("q")]);
      var a := (t: string) => PyDict(map["role" := PyStr("assistant"), "content" := PyStr(t)]);
      var body := map["messages" := PyList([u, a(a1), u, a(a2)])];
      var r := Outlet(f, body, Some(user), None);
      |r.log| == 1 && r.log[0].Logged?
      && r.log[0].block.content == PyStr(Truncate(a2, f.valves.truncateMessage))
  {
    var u := PyDict(map["role" := PyStr("user"), "content" := PyStr("q")]);
    var a := (t: string) => PyDict(map["role" := PyStr("assistant"), "content" := PyStr(t)]);
    var body := map["messages" := PyList([u, a(a1), u, a(a2)])];
    OutletLogsLastAssistant(f, body, Some(user), None, 3);
  }

  /** A model descriptor that is present but has no "id" (even `{}`) makes
      the OUTLET block raise; the hook prints its error line instead. */
  lemma OutletModelWithoutIdIsReported(f: Filter, body: Dict, user: Dict, model: Dict)
    requires f.valves.enabled && f.valves.logOutlet
    requires "id" !in model
    ensures Outlet(f, body, Some(user), Some(model)).log == [HookError(OutletHook)]
  {
  }

  /** Whatever an OUTLET block shows as identity comes from the stored
      context. */
  lemma OutletShowsStoredIdentity(f: Filter, body: Dict, user: Option<Dict>, model: Option<Dict>)
    ensures forall e :: e in Outlet(f, body, user, model).log && e.Logged? ==>
              e.block.email == Get(f.lastUserInfo, "email", NA)
              && e.block.userRole == Get(f.lastUserInfo, "role", NA)
              && e.block.tag == OutletTag
  {
  }

  /** OUTLET shows the stored identity, never the user passed to it. */
  lemma OutletIgnoresPassedUser(f: Filter, body: Dict, u1: Dict, u2: Dict, model: Option<Dict>)
    ensures Outlet(f, body, Some(u1), model) == Outlet(f, body, Some(u2), model)
  {
  }

  /** OUTLET never shows the stored model id. */
  lemma OutletIgnoresStoredModelId(f: Filter, x: Value, body: Dict, user: Option<Dict>, model: Option<Dict>)
    ensures Outlet(f.(lastModelId := x), body, user, model).log == Outlet(f, body, user, model).log
  {
  }

  // --------------------------------------------------------------- stream

  /** `v[0]` of a truthy value. */
  function FirstItem(v: Value): Try<Value>
  {
    match v
    case PyList(items) => if |items| > 0 then Ok(items[0]) else Raise
    case PyStr(s) => if |s| > 0 then Ok(PyStr([s[0]])) else Raise
    case PyBytes(b) => if |b| > 0 then Ok(PyInt(b[0])) else Raise
    case _ => Raise
  }

  /** `event["choices"][0].get("delta", {}).get("content")` when the event
      has truthy choices, else "". */
  function DictChunk(event: Dict): (r: Try<Value>)
    ensures "choices" !in event || !Truthy(event["choices"]) ==> r == Ok(PyStr(""))
    ensures r.Raise? || Truthy(r.value) ==> "choices" in event && Truthy(event["choices"])
    ensures "choices" in event && event["choices"].PyList? && |event["choices"].items| > 0
            && event["choices"].items[0].PyDict?
            && Get(event["choices"].items[0].fields, "delta", EmptyDict).PyDict? ==>
              r == Ok(Get(Get(event["choices"].items[0].fields, "delta", EmptyDict).fields, "content", PyNone))
    ensures "choices" in event && Truthy(event["choices"]) && !event["choices"].PyList? ==> r.Raise?
    ensures r.Raise? <==> ("choices" in event && Truthy(event["choices"])
              && (!event["choices"].PyList? || !event["choices"].items[0].PyDict?
                  || !Get(event["choices"].items[0].fields, "delta", EmptyDict).PyDict?))
  {
    if "choices" in event && Truthy(event["choices"]) then
      match FirstItem(event["choices"])
      case Raise => Raise
      case Ok(choice) =>
        if !choice.PyDict? then Raise
        else
          var delta := Get(choice.fields, "delta", EmptyDict);
          if !delta.PyDict? then Raise
          else Ok(Get(delta.fields, "content", PyNone))
    else Ok(PyStr(""))
  }

  /** The entries one event produces: a dict by its delta content, bytes by
      whether they decode as UTF-8, anything else by its type and a bounded
      prefix of `strOf(event)` (Python's `str()` of the event). */
  function StreamEntries(event: Value, strOf: Value -> string): (r: seq<Entry>)
    ensures |r| <= 1
  {
    match event
    case PyDict(d) =>
      (match DictChunk(d)
       case Raise => [HookError(StreamHook)]
       case Ok(c) => if Truthy(c) then [StreamDict(c)] else [])
    case PyBytes(b) =>
      (match Utf8.Decode(b)
       case Some(t) => [StreamBytes(Strip(t))]
       case None => [StreamBytesRaw(b)])
    case _ => [StreamUnknown(TypeName(event), Take(strOf(event), 100))]
  }

  /** `Filter.stream`. */
  function Stream(f: Filter, event: Value, strOf: Value -> string): (r: Step<Value>)
    ensures r.returned == event
    ensures r.filter == f
    ensures |r.log| <= 1
    ensures !f.valves.enabled || !f.valves.logStream ==> r.log == []
  {
    if !f.valves.enabled || !f.valves.logStream then Step(event, f, [])
    else Step(event, f, StreamEntries(event, strOf))
  }

  /** A dict event whose first choice carries a delta logs that delta's
      content exactly when the content is truthy. */
  lemma StreamLogsDeltaContent(f: Filter, d: Dict, strOf: Value -> string)
    requires f.valves.enabled && f.valves.logStream
    requires "choices" in d && d["choices"].PyList? && |d["choices"].items| > 0
    requires var choice := d["choices"].items[0];
             choice.PyDict? && Get(choice.fields, "delta", EmptyDict).PyDict?
    ensures
      var delta := Get(d["choices"].items[0].fields, "delta", EmptyDict);
      var c := Get(delta.fields, "content", PyNone);
      Stream(f, PyDict(d), strOf).log == if Truthy(c) then [StreamDict(c)] else []
  {
  }

  /** A dict event without choices, or with falsy choices, prints nothing
      and raises nothing. */
  lemma StreamDictWithoutChoicesIsSilent(f: Filter, d: Dict, strOf: Value -> string)
    requires "choices" !in d || !Truthy(d["choices"])
    ensures Stream(f, PyDict(d), strOf).log == []
  {
  }

  /** `{"choices": [{"delta": {"content": "hi"}}]}` logs "hi" as a dict chunk. */
  lemma StreamLogsHi(f: Filter, strOf: Value -> string)
    requires f.valves.enabled && f.valves.logStream
    ensures
      var delta := PyDict(map["content" := PyStr("hi")]);
      var event := map["choices" := PyList([PyDict(map["delta" := delta])])];
      Stream(f, PyDict(event), strOf).log == [StreamDict(PyStr("hi"))]
  {
    var delta := PyDict(map["content" := PyStr("hi")]);
    var event := map["choices" := PyList([PyDict(map["delta" := delta])])];
    StreamLogsDeltaContent(f, event, strOf);
  }

  /** Bytes that encode a text log that text, stripped; bytes that encode
      no text are logged raw. */
  lemma StreamClassifiesBytes(f: Filter, b: seq<byte>, strOf: Value -> string)
    requires f.valves.enabled && f.valves.logStream
    ensures forall t :: Utf8.Encode(t) == b ==> Stream(f, PyBytes(b), strOf).log == [StreamBytes(Strip(t))]
    ensures (forall t :: Utf8.Encode(t) != b) <==> Stream(f, PyBytes(b), strOf).log == [StreamBytesRaw(b)]
  {
    forall t | Utf8.Encode(t) == b
      ensures Stream(f, PyBytes(b), strOf).log == [StreamBytes(Strip(t))]
    {
      Utf8.DecodeIffEncode(b, t);
    }
    if Utf8.Decode(b).Some? {
      Utf8.EncodeDecode(b);
    }
  }

  /** Any other event logs its type and at most 100 leading characters of
      its string form. */
  lemma StreamUnknownIsBounded(f: Filter, event: Value, strOf: Value -> string)
    requires f.valves.enabled && f.valves.logStream
    requires !event.PyDict? && !event.PyBytes?
    ensures |Stream(f, event, strOf).log| == 1
    ensures Stream(f, event, strOf).log[0].StreamUnknown?
    ensures Stream(f, event, strOf).log[0].typeName == TypeName(event)
    ensures var data := Stream(f, event, strOf).log[0].data;
            |data| <= 100 && data == strOf(event)[..|data|]
            && (|strOf(event)| <= 100 ==> data == strOf(event))
            && (|strOf(event)| > 100 ==> |data| == 100)
  {
  }
}
