/** The draft bridge and its conversation in one process. */
module DraftBridge {
  /*
   Validation of model output and broker records, fixed dispatch, and the bounded conversation loop.
   Provider and broker are arbitrary oracles.
   */

  import opened Common

  /**
   Everything the bridge calls: the provider's answer to the n-th request, the broker's answer to the
   n-th request (zero is the initial public read), the JSON text codec, and strict base64.
   `None` stands for any failure, which always ends the run.
   */
  datatype Oracles = Oracles(
    provider: (nat, seq<Json>) -> Option<Json>,
    broker: (nat, Json) -> Option<Json>,
    decode: string -> Option<Json>,
    encode: Json -> string,
    base64: string -> Option<seq<int>>,
    brokerHash: string)

  /**
   Why a run fails. In one process only the provider, its output and a dispatch can fail; two parties may also
   fall out over a frame or fall silent.
   */
  datatype Failure = ProviderFailed | OutputRefused | DispatchFailed | FrameRejected | PeerSilent

  type Outcome = Result<Json, Failure>

  const TURNS: nat := 8

  // ---- text formats ----

  predicate Hex64(v: Json)
  {
    v.JString? && |v.text| == 64 &&
    forall i :: 0 <= i < 64 ==> '0' <= v.text[i] <= '9' || 'a' <= v.text[i] <= 'f'
  }

  predicate Alphanumeric(c: char)
  {
    '0' <= c <= '9' || 'a' <= c <= 'z' || 'A' <= c <= 'Z'
  }

  /** `[a-zA-Z0-9_.-]{1,128}` */
  predicate NameText(v: Json)
  {
    v.JString? && 1 <= |v.text| <= 128 &&
    forall i :: 0 <= i < |v.text| ==> Alphanumeric(v.text[i]) || v.text[i] in "_.-"
  }

  /** `[A-Za-z0-9_-]{1,128}` */
  predicate CallId(v: Json)
  {
    v.JString? && 1 <= |v.text| <= 128 &&
    forall i :: 0 <= i < |v.text| ==> Alphanumeric(v.text[i]) || v.text[i] in "_-"
  }

  /** `[a-z][a-z0-9_]{0,63}` */
  predicate Identifier(text: string)
  {
    1 <= |text| <= 64 && 'a' <= text[0] <= 'z' &&
    forall i :: 0 <= i < |text| ==> 'a' <= text[i] <= 'z' || '0' <= text[i] <= '9' || text[i] == '_'
  }

  predicate SourceName(text: string)
  {
    |text| > 3 && text[|text| - 3..] == ".py" && Identifier(text[..|text| - 3])
  }

  // ---- broker records ----

  const BINDINGS: set<string> :=
    {"capsule_hash", "scaffold_hash", "contract_hash", "task_id", "predecessor_hash", "slot_id"}

  predicate IsState(v: Json, state: string)
  {
    v.JObject? && Member(v.fields, "state") == JString(state)
  }

  predicate Bound(fields: map<string, Json>, capsuleHash: string)
  {
    && Member(fields, "capsule_hash") == JString(capsuleHash)
    && Hex64(Member(fields, "capsule_hash"))
    && Hex64(Member(fields, "scaffold_hash"))
    && Hex64(Member(fields, "contract_hash"))
    && (Member(fields, "predecessor_hash") == JNull || Hex64(Member(fields, "predecessor_hash")))
    && NameText(Member(fields, "task_id"))
    && NameText(Member(fields, "slot_id"))
  }

  predicate Capsule(o: Oracles, fields: map<string, Json>)
  {
    && fields.Keys == BINDINGS + {"state", "authority", "filename", "function", "sources"}
    && fields["state"] == JString("DRAFT_CAPSULE")
    && fields["sources"].JObject? && 1 <= |fields["sources"].fields| <= 8
    && fields["filename"].JString? && fields["filename"].text in fields["sources"].fields
    && fields["function"].JString? && Identifier(fields["function"].text)
    && forall name :: name in fields["sources"].fields ==> SourceOk(o, name, fields["sources"].fields[name])
  }

  predicate SourceOk(o: Oracles, name: string, source: Json)
  {
    SourceName(name) && source.JString? && |source.text| <= 349528 && o.base64(source.text).Some?
  }

  predicate AdmittedDraft(o: Oracles, fields: map<string, Json>, capsule: map<string, Json>)
  {
    && fields.Keys == BINDINGS + {"state", "authority", "broker_hash", "candidate_hash", "index_hash"}
    && fields["state"] == JString("STRUCTURALLY_ADMITTED_DRAFT")
    && fields["broker_hash"] == JString(o.brokerHash)
    && (forall name :: name in BINDINGS ==> name in capsule && fields[name] == capsule[name])
    && Hex64(fields["candidate_hash"])
    && Hex64(fields["index_hash"])
  }

  /** `_projection` returns its argument unchanged when this holds and raises otherwise. */
  predicate Projects(o: Oracles, value: Json, capsuleHash: string, capsule: Option<Json>)
  {
    && value.JObject?
    && Member(value.fields, "authority") == JString("NONE")
    && if IsState(value, "DRAFT_REJECTED") || IsState(value, "DRAFT_UNAVAILABLE") then
         value.fields.Keys == {"state", "authority"}
       else
         && Bound(value.fields, capsuleHash)
         && match capsule
            case None => Capsule(o, value.fields)
            case Some(p) => p.JObject? && AdmittedDraft(o, value.fields, p.fields)
  }

  /** The public capsule a run starts from. */
  predicate PublicCapsule(o: Oracles, value: Json, capsuleHash: string)
  {
    Projects(o, value, capsuleHash, None) && IsState(value, "DRAFT_CAPSULE")
  }

  predicate Ending(result: Json)
  {
    IsState(result, "STRUCTURALLY_ADMITTED_DRAFT") || IsState(result, "DRAFT_UNAVAILABLE")
  }

  // ---- model output ----

  predicate IsCall(item: Json)
  {
    item.JObject? && Member(item.fields, "type") == JString("function_call")
  }

  predicate CallOk(o: Oracles, fields: map<string, Json>, seen: set<string>)
  {
    && fields.Keys <= {"type", "id", "call_id", "name", "arguments", "status"}
    && Member(fields, "name") in {JString("public"), JString("submit")}
    && CallId(Member(fields, "call_id"))
    && Member(fields, "call_id").text !in seen
    && ("status" in fields ==> fields["status"] == JString("completed"))
    && Member(fields, "arguments").JString? && |Member(fields, "arguments").text| <= 131072
    && o.decode(Member(fields, "arguments").text).Some?
    && var arguments := o.decode(Member(fields, "arguments").text).value;
       && arguments.JObject?
       && arguments.fields.Keys == if Member(fields, "name") == JString("public") then {} else {"body_base64"}
  }

  predicate MessageOk(fields: map<string, Json>)
  {
    && Member(fields, "role") == JString("assistant")
    && Member(fields, "content").JArray?
    && forall i :: 0 <= i < |Member(fields, "content").items| ==> TextPart(Member(fields, "content").items[i])
  }

  predicate TextPart(part: Json)
  {
    part.JObject? && Member(part.fields, "type") == JString("output_text")
  }

  predicate ItemOk(o: Oracles, item: Json, seen: set<string>)
  {
    && item.JObject?
    && match Member(item.fields, "type")
       case JString("function_call") => CallOk(o, item.fields, seen)
       case JString("message") => MessageOk(item.fields)
       case JString("reasoning") =>
         item.fields.Keys <= {"type", "id", "summary", "content", "encrypted_content", "status"}
       case _ => false
  }

  function CallsIn(items: seq<Json>): (calls: seq<Json>)
  {
    if items == [] then []
    else CallsIn(items[..|items| - 1]) + if IsCall(items[|items| - 1]) then [items[|items| - 1]] else []
  }

  predicate ResponseOk(response: Json, model: string)
  {
    && response.JObject?
    && Member(response.fields, "model") == JString(model)
    && Member(response.fields, "status") == JString("completed")
    && Member(response.fields, "error") == JNull
    && Member(response.fields, "output").JArray?
    && |Member(response.fields, "output").items| <= 128
  }

  function Output(response: Json): seq<Json>
  {
    if response.JObject? && Member(response.fields, "output").JArray?
    then Member(response.fields, "output").items
    else []
  }

  /** The single validated call of a response, if it has one. */
  function CallOf(o: Oracles, response: Json, model: string, seen: set<string>): Result<Option<Json>, Failure>
  {
    if !ResponseOk(response, model) then Err(OutputRefused)
    else if exists i :: 0 <= i < |Output(response)| && !ItemOk(o, Output(response)[i], seen) then Err(OutputRefused)
    else
      var calls := CallsIn(Output(response));
      if |calls| > 1 then Err(OutputRefused)
      else if calls == [] then Ok(None)
      else Ok(Some(calls[0]))
  }

  function IdOf(call: Json): string
  {
    if call.JObject? && Member(call.fields, "call_id").JString? then Member(call.fields, "call_id").text else ""
  }

  predicate NamedPublic(call: Json)
  {
    call.JObject? && Member(call.fields, "name") == JString("public")
  }

  lemma {:induction false} CallsComeFrom(items: seq<Json>)
    ensures forall c :: c in CallsIn(items) ==> c in items && IsCall(c)
  {
    if items != [] {
      CallsComeFrom(items[..|items| - 1]);
    }
  }

  /** A returned call is an item of the response, is well formed, and its identifier is new. */
  lemma CallIsFresh(o: Oracles, response: Json, model: string, seen: set<string>)
    ensures var r := CallOf(o, response, model, seen);
      r.Ok? && r.value.Some? ==>
        && r.value.value in Output(response)
        && r.value.value.JObject? && CallOk(o, r.value.value.fields, seen)
        && IdOf(r.value.value) !in seen
  {
    var r := CallOf(o, response, model, seen);
    if r.Ok? && r.value.Some? {
      var calls := CallsIn(Output(response));
      CallsComeFrom(Output(response));
      assert calls[0] in calls;
      var i :| 0 <= i < |Output(response)| && Output(response)[i] == calls[0];
      assert ItemOk(o, Output(response)[i], seen);
    }
  }

  /** `_call`: scan every item, refuse a second call, and remember the identifier. */
  method ReadCall(o: Oracles, response: Json, model: string, seen: set<string>)
    returns (r: Result<Option<Json>, Failure>, seen': set<string>)
    ensures r == CallOf(o, response, model, seen)
    ensures seen' == if r.Ok? && r.value.Some? then seen + {IdOf(r.value.value)} else seen
  {
    seen' := seen;
    if !ResponseOk(response, model) {
      return Err(OutputRefused), seen;
    }
    var output := Output(response);
    var calls: seq<Json> := [];
    for i := 0 to |output|
      invariant forall k :: 0 <= k < i ==> ItemOk(o, output[k], seen)
      invariant calls == CallsIn(output[..i])
    {
      if !ItemOk(o, output[i], seen) {
        return Err(OutputRefused), seen;
      }
      assert output[..i + 1][..|output[..i + 1]| - 1] == output[..i];
      if IsCall(output[i]) {
        calls := calls + [output[i]];
      }
    }
    assert output[..|output|] == output;
    if |calls| > 1 {
      return Err(OutputRefused), seen;
    }
    if calls == [] {
      return Ok(None), seen;
    }
    return Ok(Some(calls[0])), seen + {IdOf(calls[0])};
  }

  // ---- dispatch ----

  function PublicRequest(): Json
  {
    JObject(map["operation" := JString("public")])
  }

  function SubmitRequest(encoded: string, capsuleHash: string, capsule: Json): Json
  {
    var fields := if capsule.JObject? then capsule.fields else map[];
    JObject(map[
      "operation" := JString("submit"),
      "body_base64" := JString(encoded),
      "capsule_hash" := JString(capsuleHash),
      "scaffold_hash" := Member(fields, "scaffold_hash"),
      "slot_id" := Member(fields, "slot_id")])
  }

  predicate BodyOk(o: Oracles, encoded: Json)
  {
    && encoded.JString? && |encoded.text| <= 87384
    && o.base64(encoded.text).Some?
    && var body := o.base64(encoded.text).value;
       0 < |body| <= 65536 && body[|body| - 1] == 10
  }

  function Ask(o: Oracles, n: nat, request: Json, capsuleHash: string, capsule: Option<Json>): Outcome
  {
    var answer := o.broker(n, request);
    if answer.None? || !Projects(o, answer.value, capsuleHash, capsule) then Err(DispatchFailed) else Ok(answer.value)
  }

  /** What a dispatch asks the broker, and the capsule its answer is held against; nothing for any other call. */
  function DispatchRequest(o: Oracles, call: Json, capsuleHash: string, capsule: Json): Option<(Json, Option<Json>)>
  {
    if !call.JObject? || !Member(call.fields, "arguments").JString? then None
    else
      var decoded := o.decode(Member(call.fields, "arguments").text);
      if decoded.None? || !decoded.value.JObject? then None
      else
        var arguments := decoded.value.fields;
        if NamedPublic(call) then if arguments == map[] then Some((PublicRequest(), None)) else None
        else if Member(call.fields, "name") != JString("submit") || arguments.Keys != {"body_base64"}
          || !BodyOk(o, arguments["body_base64"]) then None
        else Some((SubmitRequest(arguments["body_base64"].text, capsuleHash, capsule), Some(capsule)))
  }

  /** `_dispatch`: only the two fixed operations, with every binding taken from the capsule. */
  function Dispatch(o: Oracles, n: nat, call: Json, capsuleHash: string, capsule: Json): Outcome
  {
    match DispatchRequest(o, call, capsuleHash, capsule)
    case None => Err(DispatchFailed)
    case Some((request, against)) =>
      var result := Ask(o, n, request, capsuleHash, against);
      if result.Ok? && NamedPublic(call) && result.value != capsule then Err(DispatchFailed) else result
  }

  /** What a submission to the broker must look like: five members, with every binding from the capsule. */
  ghost predicate BoundSubmission(o: Oracles, request: Json, call: Json, capsuleHash: string, capsule: Json)
  {
    && call.JObject? && Member(call.fields, "arguments").JString?
    && request.JObject? && capsule.JObject?
    && request.fields.Keys == {"operation", "body_base64", "capsule_hash", "scaffold_hash", "slot_id"}
    && request.fields["operation"] == JString("submit")
    && request.fields["capsule_hash"] == JString(capsuleHash)
    && request.fields["scaffold_hash"] == Member(capsule.fields, "scaffold_hash")
    && request.fields["slot_id"] == Member(capsule.fields, "slot_id")
    && BodyOk(o, request.fields["body_base64"])
    && o.decode(Member(call.fields, "arguments").text) == Some(JObject(map["body_base64" := request.fields["body_base64"]]))
  }

  /** The request a call makes is the public read, or a submission bound to the capsule. */
  lemma RequestIsFixed(o: Oracles, call: Json, capsuleHash: string, capsule: Json)
    requires capsule.JObject?
    ensures var asked := DispatchRequest(o, call, capsuleHash, capsule);
      asked.Some? ==>
        if NamedPublic(call) then asked.value == (PublicRequest(), None)
        else asked.value.1 == Some(capsule) && BoundSubmission(o, asked.value.0, call, capsuleHash, capsule)
  {
    if DispatchRequest(o, call, capsuleHash, capsule).Some? && !NamedPublic(call) {
      var arguments := o.decode(Member(call.fields, "arguments").text).value.fields;
      assert arguments == map["body_base64" := arguments["body_base64"]];
    }
  }

  /**
   A dispatch makes at most that one request: any other broker that answers it alike, or any broker at all
   when there is none, gives the same result.
   */
  lemma DispatchAsksOnce(
      o: Oracles, provider: (nat, seq<Json>) -> Option<Json>, broker: (nat, Json) -> Option<Json>,
      n: nat, call: Json, capsuleHash: string, capsule: Json)
    ensures var o' := o.(provider := provider, broker := broker);
      var asked := DispatchRequest(o, call, capsuleHash, capsule);
      && DispatchRequest(o', call, capsuleHash, capsule) == asked
      && ((asked.Some? ==> broker(n, asked.value.0) == o.broker(n, asked.value.0)) ==>
            Dispatch(o', n, call, capsuleHash, capsule) == Dispatch(o, n, call, capsuleHash, capsule))
  {
    match DispatchRequest(o, call, capsuleHash, capsule)
    case None =>
    case Some((request, against)) =>
      if o.broker(n, request).Some? {
        ProjectionIgnoresOracles(o, provider, broker, o.broker(n, request).value, capsuleHash, against);
      }
  }

  lemma ProjectionIgnoresOracles(
      o: Oracles, provider: (nat, seq<Json>) -> Option<Json>, broker: (nat, Json) -> Option<Json>,
      value: Json, capsuleHash: string, capsule: Option<Json>)
    ensures Projects(o.(provider := provider, broker := broker), value, capsuleHash, capsule) <==>
      Projects(o, value, capsuleHash, capsule)
  {
  }

  /**
   A result that a dispatch releases is the broker's answer to that request: the unchanged public capsule, or
   the answer to a bound submission, which as an admitted draft carries the capsule's own bindings.
   */
  lemma DispatchIsBound(o: Oracles, n: nat, call: Json, capsuleHash: string, capsule: Json)
    requires capsule.JObject?
    ensures var asked := DispatchRequest(o, call, capsuleHash, capsule);
      var result := Dispatch(o, n, call, capsuleHash, capsule);
      result.Ok? ==>
        && asked.Some? && o.broker(n, asked.value.0) == Some(result.value)
        && (NamedPublic(call) ==> result.value == capsule)
        && (!NamedPublic(call) && IsState(result.value, "STRUCTURALLY_ADMITTED_DRAFT") ==>
              forall name :: name in BINDINGS ==> Member(result.value.fields, name) == Member(capsule.fields, name))
  {
    RequestIsFixed(o, call, capsuleHash, capsule);
  }

  // ---- the conversation in one process ----

  /** What the conversation needs once model, capsule and oracles are fixed. */
  datatype Bridge = Bridge(
    provider: (nat, seq<Json>) -> Option<Json>,
    encode: Json -> string,
    callOf: (Json, set<string>) -> Result<Option<Json>, Failure>,
    dispatch: (nat, Json) -> Outcome)

  function BridgeOf(o: Oracles, model: string, capsuleHash: string, capsule: Json): Bridge
  {
    Bridge(
      o.provider,
      o.encode,
      (response: Json, seen: set<string>) => CallOf(o, response, model, seen),
      (n: nat, call: Json) => Dispatch(o, n, call, capsuleHash, capsule))
  }

  function OpeningHistory(encode: Json -> string, task: string, capsule: Json): seq<Json>
  {
    [JObject(map[
      "role" := JString("user"),
      "content" := JString(encode(JObject(map["task" := JString(task), "capsule" := capsule])))])]
  }

  /** The history after one answered call. */
  function Extended(encode: Json -> string, history: seq<Json>, response: Json, call: Json, result: Json): seq<Json>
  {
    history + Output(response) + [JObject(map[
      "type" := JString("function_call_output"),
      "call_id" := JString(IdOf(call)),
      "output" := JString(encode(result))])]
  }

  function Report(state: string): Json
  {
    JObject(map["state" := JString(state), "authority" := JString("NONE")])
  }

  datatype Step =
    | Ends(outcome: Outcome)
    | Goes(history: seq<Json>, seen: set<string>)

  /** What the result of a dispatched call does to the conversation. */
  function AfterCall(
      encode: Json -> string, history: seq<Json>, seen: set<string>, response: Json, call: Json, result: Outcome): Step
  {
    if result.Err? || Ending(result.value) then Ends(result)
    else Goes(Extended(encode, history, response, call, result.value), seen + {IdOf(call)})
  }

  /** One turn of the conversation. */
  function ConverseTurn(b: Bridge, turn: nat, history: seq<Json>, seen: set<string>): Step
  {
    var response := b.provider(turn, history);
    if response.None? then Ends(Err(ProviderFailed))
    else
      var call := b.callOf(response.value, seen);
      if call.Err? then Ends(Err(OutputRefused))
      else if call.value.None? then Ends(Ok(Report("NO_DRAFT")))
      else
        AfterCall(b.encode, history, seen, response.value, call.value.value, b.dispatch(turn + 1, call.value.value))
  }

  /** The result of the conversation from one turn on: the sequential reference. */
  function Converse(b: Bridge, turn: nat, history: seq<Json>, seen: set<string>): Outcome
    decreases TURNS - turn
  {
    if turn >= TURNS then Ok(Report("TURN_LIMIT"))
    else
      match ConverseTurn(b, turn, history, seen)
      case Ends(outcome) => outcome
      case Goes(history', seen') => Converse(b, turn + 1, history', seen')
  }

  /** `_run` from the initial public read on. */
  function Direct(o: Oracles, model: string, capsuleHash: string, task: string): Outcome
  {
    var capsule := o.broker(0, PublicRequest());
    if capsule.None? || !PublicCapsule(o, capsule.value, capsuleHash) then Err(DispatchFailed)
    else
      Converse(BridgeOf(o, model, capsuleHash, capsule.value), 0, OpeningHistory(o.encode, task, capsule.value), {})
  }

  /** The end of a turn: stop on a final result, otherwise extend the history. */
  method Conclude(
      encode: Json -> string, history: seq<Json>, seen: set<string>, response: Json, call: Json, result: Outcome,
      seen': set<string>)
    returns (step: Step)
    requires seen' == seen + {IdOf(call)}
    ensures step == AfterCall(encode, history, seen, response, call, result)
  {
    if result.Err? || Ending(result.value) {
      return Ends(result);
    }
    step := Goes(Extended(encode, history, response, call, result.value), seen');
  }

  /** One turn of the loop of `_run`. */
  method RunTurn(
      o: Oracles, model: string, capsuleHash: string, capsule: Json, turn: nat, history: seq<Json>, seen: set<string>)
    returns (step: Step)
    ensures step == ConverseTurn(BridgeOf(o, model, capsuleHash, capsule), turn, history, seen)
  {
    var response := o.provider(turn, history);
    if response.None? {
      return Ends(Err(ProviderFailed));
    }
    var call, seen' := ReadCall(o, response.value, model, seen);
    if call.Err? {
      return Ends(Err(OutputRefused));
    }
    if call.value.None? {
      return Ends(Ok(Report("NO_DRAFT")));
    }
    var result := Dispatch(o, turn + 1, call.value.value, capsuleHash, capsule);
    step := Conclude(o.encode, history, seen, response.value, call.value.value, result, seen');
  }

  /** The loop of `_run`. */
  method RunLoop(
      o: Oracles, model: string, capsuleHash: string, capsule: Json, opening: seq<Json>, ghost b: Bridge)
    returns (r: Outcome)
    requires b == BridgeOf(o, model, capsuleHash, capsule)
    ensures r == Converse(b, 0, opening, {})
  {
    var history := opening;
    var seen: set<string> := {};
    for turn := 0 to TURNS
      invariant Converse(b, 0, opening, {}) == Converse(b, turn, history, seen)
    {
      var step := RunTurn(o, model, capsuleHash, capsule, turn, history, seen);
      if step.Ends? {
        return step.outcome;
      }
      history, seen := step.history, step.seen;
    }
    r := Ok(Report("TURN_LIMIT"));
  }

  /** `_run`. */
  method Run(o: Oracles, model: string, capsuleHash: string, task: string) returns (r: Outcome)
    ensures r == Direct(o, model, capsuleHash, task)
  {
    var read := o.broker(0, PublicRequest());
    if read.None? || !PublicCapsule(o, read.value, capsuleHash) {
      return Err(DispatchFailed);
    }
    r := RunLoop(o, model, capsuleHash, read.value, OpeningHistory(o.encode, task, read.value),
      BridgeOf(o, model, capsuleHash, read.value));
  }

  /** A failure of the provider, its output or a dispatch. */
  predicate OwnFailure(outcome: Outcome)
  {
    outcome.Err? ==> outcome.error in {ProviderFailed, OutputRefused, DispatchFailed}
  }

  /** No dispatch fails for any other reason. */
  ghost predicate OwnFailures(b: Bridge)
  {
    forall n, call {:trigger b.dispatch(n, call)} :: OwnFailure(b.dispatch(n, call))
  }

  lemma {:induction false} ConverseFailsAlone(b: Bridge, turn: nat, history: seq<Json>, seen: set<string>)
    requires OwnFailures(b)
    ensures OwnFailure(Converse(b, turn, history, seen))
    decreases TURNS - turn
  {
    if turn < TURNS {
      match ConverseTurn(b, turn, history, seen)
      case Ends(_) =>
      case Goes(history', seen') => ConverseFailsAlone(b, turn + 1, history', seen');
    }
  }

  /** The run in one process fails only by the provider, its output or a dispatch. */
  lemma DirectFailsAlone(o: Oracles, model: string, capsuleHash: string, task: string)
    ensures OwnFailure(Direct(o, model, capsuleHash, task))
  {
    var capsule := o.broker(0, PublicRequest());
    if capsule.Some? && PublicCapsule(o, capsule.value, capsuleHash) {
      var b := BridgeOf(o, model, capsuleHash, capsule.value);
      forall n, call ensures OwnFailure(b.dispatch(n, call)) {
        DispatchFailsAlone(o, n, call, capsuleHash, capsule.value);
      }
      ConverseFailsAlone(b, 0, OpeningHistory(o.encode, task, capsule.value), {});
    }
  }

  lemma DispatchFailsAlone(o: Oracles, n: nat, call: Json, capsuleHash: string, capsule: Json)
    ensures OwnFailure(Dispatch(o, n, call, capsuleHash, capsule))
  {
  }
}
