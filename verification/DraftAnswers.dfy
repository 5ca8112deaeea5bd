/** Frame by frame: what the session answers. */
module DraftAnswers {
  import opened Common
  import opened DraftBridge
  import opened DraftSession
  import opened DraftTrace
  import opened DraftWire
  import opened DraftForms

  /*
   The answer to each frame the session receives, in terms of the frames before it and the answers it gave to them.
   The first two frames are the opening; from then on responses of the provider and results of calls alternate.
   */

  function Told(rules: SessionRules, frames: seq<Json>, k: nat): Option<Json>
    requires k <= |frames|
  {
    Honest(rules, frames[..k])
  }

  function StateAt(rules: SessionRules, frames: seq<Json>, k: nat): Session
    requires k <= |frames|
  {
    SessionAfter(rules, frames[..k])
  }

  // ---- frames by their members ----

  predicate IsAsk(frame: Option<Json>, operation: string, name: string)
  {
    && frame.Some? && frame.value.JObject? && frame.value.fields.Keys == {"operation", name}
    && frame.value.fields["operation"] == JString(operation)
  }

  /** The session asked the provider with this history. */
  predicate AskedProvider(frame: Option<Json>, history: seq<Json>)
  {
    IsAsk(frame, "provider", "history") && frame.value.fields["history"] == JArray(history)
  }

  predicate AskedCall(frame: Option<Json>, call: Json)
  {
    IsAsk(frame, "call", "call") && frame.value.fields["call"] == call
  }

  predicate Finished(frame: Option<Json>, state: string)
  {
    IsAsk(frame, "finish", "state") && frame.value.fields["state"] == JString(state)
  }

  ghost predicate AsksNothing(frame: Option<Json>)
  {
    (forall history :: !AskedProvider(frame, history)) && forall call :: !AskedCall(frame, call)
  }

  /** The identifiers of the calls asked for in the first rounds. */
  function CalledIds(rules: SessionRules, frames: seq<Json>, i: nat): set<string>
    requires 2 + 2 * i <= |frames|
  {
    if i == 0 then {}
    else
      var asked := Told(rules, frames, 1 + 2 * i);
      CalledIds(rules, frames, i - 1) + if IsAsk(asked, "call", "call") then {IdOf(asked.value.fields["call"])} else {}
  }

  // ---- what is in order ----

  /** The first frame names the model, a task and a public capsule under its own hash. */
  predicate Starts(o: Oracles, task: TaskRules, frame: Json, text: string, capsule: map<string, Json>, capsuleHash: string)
  {
    && frame == JObject(map["model" := JString("gpt-5.6-terra"), "task" := JString(text), "capsule" := JObject(capsule)])
    && !task.blank(text) && task.utf8Length(text) <= 65536
    && Holds(capsule, "capsule_hash", capsuleHash) && PublicFollows(o, capsule, capsuleHash)
  }

  /** A response is answered with its only call, with the end if it has none, or not at all if it is not in order. */
  ghost predicate AnswersResponse(o: Oracles, seen: set<string>, response: Json, answer: Option<Json>)
  {
    && (answer.Some? ==>
          || (Finished(answer, "NO_DRAFT") && Reads(o, response, seen, None))
          || exists call :: AskedCall(answer, call) && Reads(o, response, seen, Some(call)))
    && (answer.None? ==> forall call :: !Reads(o, response, seen, call))
  }

  ghost predicate Reads(o: Oracles, response: Json, seen: set<string>, call: Option<Json>)
  {
    ResponseFollows(o, response, "gpt-5.6-terra", seen) && OnlyCall(response, call)
  }

  /**
   A result is answered with the end if it is a final one, or the eighth; otherwise with a request that shows the
   response and the result; and not at all if it may not be released, or is a public read of another capsule.
   */
  ghost predicate AnswersResult(
      o: Oracles, capsule: map<string, Json>, capsuleHash: string, i: nat, history: seq<Json>, response: Json, call: Json,
      result: Json, answer: Option<Json>)
  {
    var public := call.JObject? && Holds(call.fields, "name", "public");
    if !Released(o, result, capsuleHash, if public then None else Some(JObject(capsule))) then answer == None
    else if Tells(result, "state", "STRUCTURALLY_ADMITTED_DRAFT") then Finished(answer, "STRUCTURALLY_ADMITTED_DRAFT")
    else if Tells(result, "state", "DRAFT_UNAVAILABLE") then Finished(answer, "DRAFT_UNAVAILABLE")
    else if public && result != JObject(capsule) then answer == None
    else if i == 7 then Finished(answer, "TURN_LIMIT")
    else
      exists next :: AskedProvider(answer, next)
        && Appends(o, Round(history, Some(response), Some(call), Some(Ok(result))), next)
  }

  // ---- states behind the answers ----

  /** The session waits for a response to its i-th request. */
  ghost predicate AwaitsResponse(
      rules: SessionRules, frames: seq<Json>, k: nat, capsule: Json, i: nat, history: seq<Json>, seen: set<string>)
    requires k <= |frames|
  {
    && k == 2 + 2 * i && i < 8 && capsule == CapsuleIn(frames[0]) && rules.initialOk(frames[0])
    && AskedProvider(Told(rules, frames, k), history) && seen == CalledIds(rules, frames, i)
  }

  /** The session waits for the result of its i-th call. */
  ghost predicate AwaitsResult(
      rules: SessionRules, frames: seq<Json>, k: nat, capsule: Json, i: nat, history: seq<Json>,
      seen: set<string>, response: Json, call: Json)
    requires k <= |frames|
  {
    && k == 3 + 2 * i && i < 8 && capsule == CapsuleIn(frames[0]) && rules.initialOk(frames[0])
    && AskedProvider(Told(rules, frames, k - 1), history)
    && AskedCall(Told(rules, frames, k), call) && response == frames[k - 1]
    && seen == CalledIds(rules, frames, i) + {IdOf(call)}
    && rules.callOf(response, CalledIds(rules, frames, i)) == Ok(Some(call))
  }

  /** What a session that has not stopped remembers. */
  ghost predicate Remembers(rules: SessionRules, frames: seq<Json>, k: nat)
    requires k <= |frames|
  {
    match StateAt(rules, frames, k)
    case AwaitInitial => k == 0
    case AwaitContinue(initial) => k == 1 && initial == frames[0]
    case AwaitResponse(capsule, turn, history, seen) => AwaitsResponse(rules, frames, k, capsule, turn, history, seen)
    case AwaitResult(capsule, turn, history, seen, response, call) =>
      AwaitsResult(rules, frames, k, capsule, turn, history, seen, response, call)
    case Stopped => AsksNothing(Told(rules, frames, k))
  }

  lemma OneStep(rules: SessionRules, frames: seq<Json>, k: nat)
    requires k < |frames|
    ensures var step := SessionStep(rules, StateAt(rules, frames, k), frames[k]);
      StateAt(rules, frames, k + 1) == step.0 && Told(rules, frames, k + 1) == step.1
  {
    assert frames[..k + 1][..k] == frames[..k] && frames[..k + 1][k] == frames[k];
  }

  lemma ProviderShape(history: seq<Json>)
    ensures AskedProvider(Some(ProviderFrame(history)), history)
    ensures forall h :: AskedProvider(Some(ProviderFrame(history)), h) ==> h == history
    ensures !IsAsk(Some(ProviderFrame(history)), "call", "call")
  {
  }

  lemma CallShape(call: Json)
    ensures AskedCall(Some(CallFrame(call)), call)
    ensures forall h :: !AskedProvider(Some(CallFrame(call)), h)
  {
  }

  lemma FinishShape(state: string)
    ensures Finished(Some(FinishFrame(state)), state) && AsksNothing(Some(FinishFrame(state)))
    ensures !IsAsk(Some(FinishFrame(state)), "call", "call")
  {
  }

  lemma OpeningRemembered(rules: SessionRules, frames: seq<Json>, k: nat)
    requires k < |frames| && Remembers(rules, frames, k)
    requires StateAt(rules, frames, k).AwaitInitial? || StateAt(rules, frames, k).AwaitContinue?
    ensures Remembers(rules, frames, k + 1)
  {
    OneStep(rules, frames, k);
    match StateAt(rules, frames, k)
    case AwaitContinue(initial) =>
      ProviderShape(OpeningHistory(rules.encode, TaskIn(initial), CapsuleIn(initial)));
    case _ =>
  }

  lemma ResponseRemembered(
      rules: SessionRules, frames: seq<Json>, k: nat, capsule: Json, turn: nat, history: seq<Json>, seen: set<string>)
    requires k < |frames| && StateAt(rules, frames, k) == AwaitResponse(capsule, turn, history, seen)
    requires AwaitsResponse(rules, frames, k, capsule, turn, history, seen)
    ensures Remembers(rules, frames, k + 1)
  {
    OneStep(rules, frames, k);
    var call := rules.callOf(frames[k], seen);
    FinishShape("NO_DRAFT");
    if call.Ok? && call.value.Some? {
      CallShape(call.value.value);
      assert AwaitsResult(rules, frames, k + 1, capsule, turn, history, seen + {IdOf(call.value.value)}, frames[k],
        call.value.value);
    }
  }

  lemma CalledNext(rules: SessionRules, frames: seq<Json>, i: nat, call: Json)
    requires 4 + 2 * i <= |frames| && AskedCall(Told(rules, frames, 3 + 2 * i), call)
    ensures CalledIds(rules, frames, i + 1) == CalledIds(rules, frames, i) + {IdOf(call)}
  {
    assert 1 + 2 * (i + 1) == 3 + 2 * i;
  }

  lemma ResultStep(
      rules: SessionRules, capsule: Json, turn: nat, history: seq<Json>, seen: set<string>, response: Json, call: Json, frame: Json)
    returns (state: string, extended: seq<Json>)
    ensures var (next, answer) := SessionStep(rules, AwaitResult(capsule, turn, history, seen, response, call), frame);
      if next.Stopped? then answer.None? || answer == Some(FinishFrame(state))
      else turn < 7 && next == AwaitResponse(capsule, turn + 1, extended, seen) && answer == Some(ProviderFrame(extended))
  {
    state := if Ending(frame) then StateText(frame) else "TURN_LIMIT";
    extended := Extended(rules.encode, history, response, call, frame);
  }

  lemma ResultRemembered(
      rules: SessionRules, frames: seq<Json>, k: nat, capsule: Json, turn: nat, history: seq<Json>, seen: set<string>,
      response: Json, call: Json)
    requires k < |frames| && StateAt(rules, frames, k) == AwaitResult(capsule, turn, history, seen, response, call)
    requires AwaitsResult(rules, frames, k, capsule, turn, history, seen, response, call)
    ensures Remembers(rules, frames, k + 1)
  {
    var state, extended := ResultStep(rules, capsule, turn, history, seen, response, call, frames[k]);
    OneStep(rules, frames, k);
    if StateAt(rules, frames, k + 1).Stopped? {
      FinishShape(state);
    } else {
      ProviderShape(extended);
      CalledNext(rules, frames, turn, call);
      assert AwaitsResponse(rules, frames, k + 1, capsule, turn + 1, extended, seen);
    }
  }

  lemma StoppedRemembered(rules: SessionRules, frames: seq<Json>, k: nat)
    requires k < |frames| && StateAt(rules, frames, k).Stopped?
    ensures Remembers(rules, frames, k + 1) && Told(rules, frames, k + 1) == None
  {
    OneStep(rules, frames, k);
  }

  lemma {:induction false} AlwaysRemembers(rules: SessionRules, frames: seq<Json>, k: nat)
    requires k <= |frames|
    ensures Remembers(rules, frames, k)
  {
    if k > 0 {
      AlwaysRemembers(rules, frames, k - 1);
      match StateAt(rules, frames, k - 1)
      case AwaitInitial => OpeningRemembered(rules, frames, k - 1);
      case AwaitContinue(_) => OpeningRemembered(rules, frames, k - 1);
      case AwaitResponse(capsule, turn, history, seen) =>
        ResponseRemembered(rules, frames, k - 1, capsule, turn, history, seen);
      case AwaitResult(capsule, turn, history, seen, response, call) =>
        ResultRemembered(rules, frames, k - 1, capsule, turn, history, seen, response, call);
      case Stopped => StoppedRemembered(rules, frames, k - 1);
    }
  }

  // ---- so each frame is answered like that ----

  /** The first frame is answered with the runtime report, whatever it is. */
  lemma AnswersFirst(rules: SessionRules, frames: seq<Json>)
    requires |frames| > 0
    ensures Told(rules, frames, 1) == Some(JObject(map["operation" := JString("ready"), "runtime" := rules.runtime]))
  {
    OneStep(rules, frames, 0);
    assert frames[..0] == [];
  }

  lemma InitialFields(frame: Json)
    requires frame.JObject? && frame.fields.Keys == {"model", "task", "capsule"}
    requires frame.fields["model"] == JString(MODEL) && frame.fields["task"].JString?
    ensures frame ==
      JObject(map["model" := JString("gpt-5.6-terra"), "task" := JString(TaskIn(frame)), "capsule" := CapsuleIn(frame)])
  {
    assert frame.fields == map["model" := JString("gpt-5.6-terra"), "task" := JString(TaskIn(frame)), "capsule" := CapsuleIn(frame)];
  }

  lemma CapsuleIsPublic(o: Oracles, capsule: Json, capsuleHash: string)
    requires PublicCapsule(o, capsule, capsuleHash)
    ensures capsule.JObject? && PublicFollows(o, capsule.fields, capsuleHash) && Holds(capsule.fields, "capsule_hash", capsuleHash)
  {
    PublicIs(o, capsule, capsuleHash);
  }

  lemma StartsAsRead(o: Oracles, task: TaskRules, frame: Json)
    requires InitialOk(o, task, frame)
    ensures CapsuleIn(frame).JObject?
    ensures Starts(o, task, frame, TaskIn(frame), CapsuleIn(frame).fields, CapsuleHash(CapsuleIn(frame)))
  {
    InitialFields(frame);
    CapsuleIsPublic(o, CapsuleIn(frame), CapsuleHash(CapsuleIn(frame)));
  }

  lemma PublicIsCapsule(o: Oracles, capsule: map<string, Json>, capsuleHash: string)
    requires PublicFollows(o, capsule, capsuleHash)
    ensures PublicCapsule(o, JObject(capsule), capsuleHash) && CapsuleHash(JObject(capsule)) == capsuleHash
  {
    PublicIs(o, JObject(capsule), capsuleHash);
  }

  lemma StartFields(frame: Json, text: string, capsule: Json)
    requires frame == JObject(map["model" := JString("gpt-5.6-terra"), "task" := JString(text), "capsule" := capsule])
    ensures frame.fields.Keys == {"model", "task", "capsule"} && frame.fields["model"] == JString(MODEL)
    ensures TaskIn(frame) == text && CapsuleIn(frame) == capsule
    ensures frame.fields["task"] == JString(text) && frame.fields["capsule"] == capsule
  {
  }

  lemma StartsOk(o: Oracles, task: TaskRules, frame: Json, text: string, capsule: map<string, Json>, capsuleHash: string)
    requires Starts(o, task, frame, text, capsule, capsuleHash)
    ensures InitialOk(o, task, frame) && TaskIn(frame) == text && CapsuleIn(frame) == JObject(capsule)
    ensures CapsuleHash(JObject(capsule)) == capsuleHash
  {
    PublicIsCapsule(o, capsule, capsuleHash);
    StartFields(frame, text, JObject(capsule));
  }

  lemma SecondStep(rules: SessionRules, frames: seq<Json>)
    requires |frames| > 1
    ensures Told(rules, frames, 2) ==
      if frames[1] != JObject(map["operation" := JString("continue")]) || !rules.initialOk(frames[0]) then None
      else Some(ProviderFrame(OpeningHistory(rules.encode, TaskIn(frames[0]), CapsuleIn(frames[0]))))
  {
    OneStep(rules, frames, 0);
    OneStep(rules, frames, 1);
    assert frames[..0] == [];
  }

  /** The second frame must be the go-ahead; then, if the first was in order, the session asks with the opening. */
  lemma AnswersSecond(
      o: Oracles, task: TaskRules, runtime: Json, frames: seq<Json>, text: string, capsule: map<string, Json>, capsuleHash: string)
    requires |frames| > 1 && Starts(o, task, frames[0], text, capsule, capsuleHash)
    ensures var answer := Told(RulesOf(o, task, runtime), frames, 2);
      if frames[1] == JObject(map["operation" := JString("continue")])
      then exists history :: AskedProvider(answer, history) && Opens(o, text, JObject(capsule), history)
      else answer == None
  {
    SecondStep(RulesOf(o, task, runtime), frames);
    StartsOk(o, task, frames[0], text, capsule, capsuleHash);
    ProviderShape(OpeningHistory(o.encode, text, JObject(capsule)));
  }

  /** A session whose first frame is not in order never asks for anything. */
  lemma AnswersNoStart(o: Oracles, task: TaskRules, runtime: Json, frames: seq<Json>, k: nat)
    requires 1 < k <= |frames|
    requires forall text, capsule, capsuleHash :: !Starts(o, task, frames[0], text, capsule, capsuleHash)
    ensures AsksNothing(Told(RulesOf(o, task, runtime), frames, k))
  {
    if InitialOk(o, task, frames[0]) {
      StartsAsRead(o, task, frames[0]);
    }
    NeverAsks(RulesOf(o, task, runtime), frames, k);
  }

  lemma NeverAsks(rules: SessionRules, frames: seq<Json>, k: nat)
    requires 1 < k <= |frames| && !rules.initialOk(frames[0])
    ensures AsksNothing(Told(rules, frames, k))
  {
    AlwaysRemembers(rules, frames, k);
  }

  ghost predicate AsksProvider(rules: SessionRules, frames: seq<Json>, k: nat)
    requires k <= |frames|
  {
    exists history :: AskedProvider(Told(rules, frames, k), history)
  }

  ghost predicate AsksCall(rules: SessionRules, frames: seq<Json>, k: nat)
    requires k <= |frames|
  {
    exists call :: AskedCall(Told(rules, frames, k), call)
  }

  function ResponseAnswer(call: Result<Option<Json>, Failure>): Option<Json>
  {
    if call.Err? then None
    else if call.value.None? then Some(FinishFrame("NO_DRAFT")) else Some(CallFrame(call.value.value))
  }

  lemma Parity(i: int, j: int)
    ensures 2 + 2 * i != 3 + 2 * j
  {
  }

  lemma EvenState(rules: SessionRules, frames: seq<Json>, i: nat)
    requires 2 + 2 * i <= |frames|
    ensures StateAt(rules, frames, 2 + 2 * i).AwaitResponse? || StateAt(rules, frames, 2 + 2 * i).Stopped?
  {
    AlwaysRemembers(rules, frames, 2 + 2 * i);
    match StateAt(rules, frames, 2 + 2 * i)
    case AwaitResult(_, turn, _, _, _, _) => Parity(i, turn);
    case _ =>
  }

  /** After an even number of frames the session has stopped or waits for a response. */
  lemma AtEven(rules: SessionRules, frames: seq<Json>, i: nat) returns (history: seq<Json>)
    requires 2 + 2 * i <= |frames|
    ensures StateAt(rules, frames, 2 + 2 * i) ==
      if AsksProvider(rules, frames, 2 + 2 * i) then AwaitResponse(CapsuleIn(frames[0]), i, history, CalledIds(rules, frames, i))
      else Stopped
  {
    EvenState(rules, frames, i);
    AlwaysRemembers(rules, frames, 2 + 2 * i);
    var s := StateAt(rules, frames, 2 + 2 * i);
    if s.Stopped? {
      history := [];
    } else {
      history := s.history;
      assert AwaitsResponse(rules, frames, 2 + 2 * i, s.capsule, s.turn, s.history, s.seen);
      assert s.turn == i;
    }
  }

  lemma ResponseStepIs(
      rules: SessionRules, capsule: Json, turn: nat, history: seq<Json>, seen: set<string>, response: Json)
    ensures SessionStep(rules, AwaitResponse(capsule, turn, history, seen), response).1 == ResponseAnswer(rules.callOf(response, seen))
  {
  }

  lemma ResponseStepAt(
      rules: SessionRules, frames: seq<Json>, k: nat, capsule: Json, turn: nat, history: seq<Json>, seen: set<string>)
    requires k < |frames| && StateAt(rules, frames, k) == AwaitResponse(capsule, turn, history, seen)
    ensures Told(rules, frames, k + 1) == ResponseAnswer(rules.callOf(frames[k], seen))
  {
    OneStep(rules, frames, k);
    ResponseStepIs(rules, capsule, turn, history, seen, frames[k]);
  }

  lemma OddStep(rules: SessionRules, frames: seq<Json>, i: nat, k: nat)
    requires k == 2 + 2 * i < |frames|
    ensures Told(rules, frames, k + 1) ==
      if AsksProvider(rules, frames, k) then ResponseAnswer(rules.callOf(frames[k], CalledIds(rules, frames, i))) else None
  {
    var history := AtEven(rules, frames, i);
    if AsksProvider(rules, frames, k) {
      ResponseStepAt(rules, frames, k, CapsuleIn(frames[0]), i, history, CalledIds(rules, frames, i));
    } else {
      StoppedRemembered(rules, frames, k);
    }
  }

  lemma ResponseAnswered(o: Oracles, seen: set<string>, response: Json, answer: Option<Json>)
    requires answer == ResponseAnswer(CallOf(o, response, MODEL, seen))
    ensures AnswersResponse(o, seen, response, answer)
  {
    var read := CallOf(o, response, MODEL, seen);
    forall call ensures read == Ok(call) <==> Reads(o, response, seen, call) {
      CallExactly(o, response, "gpt-5.6-terra", seen, call);
    }
    FinishShape("NO_DRAFT");
    if read.Ok? && read.value.Some? {
      CallShape(read.value.value);
    }
  }

  /** A response to a request is answered as above, and nothing is answered where none was asked. */
  lemma AnswersOdd(o: Oracles, task: TaskRules, runtime: Json, frames: seq<Json>, i: nat)
    requires 2 + 2 * i < |frames|
    ensures var rules := RulesOf(o, task, runtime);
      var answer := Told(rules, frames, 3 + 2 * i);
      if AsksProvider(rules, frames, 2 + 2 * i)
      then AnswersResponse(o, CalledIds(rules, frames, i), frames[2 + 2 * i], answer) else answer == None
  {
    var rules := RulesOf(o, task, runtime);
    OddStep(rules, frames, i, 2 + 2 * i);
    if AsksProvider(rules, frames, 2 + 2 * i) {
      ResponseAnswered(o, CalledIds(rules, frames, i), frames[2 + 2 * i], Told(rules, frames, 3 + 2 * i));
    }
  }

  /** After an odd number of frames the session has stopped or waits for the result of a call. */
  lemma AtOdd(rules: SessionRules, frames: seq<Json>, i: nat) returns (history: seq<Json>, seen: set<string>, call: Json)
    requires 3 + 2 * i <= |frames|
    ensures if AsksCall(rules, frames, 3 + 2 * i) then
        && StateAt(rules, frames, 3 + 2 * i) == AwaitResult(CapsuleIn(frames[0]), i, history, seen, frames[2 + 2 * i], call)
        && AskedProvider(Told(rules, frames, 2 + 2 * i), history) && AskedCall(Told(rules, frames, 3 + 2 * i), call)
        && i < 8 && rules.callOf(frames[2 + 2 * i], CalledIds(rules, frames, i)) == Ok(Some(call))
      else StateAt(rules, frames, 3 + 2 * i) == Stopped
  {
    AlwaysRemembers(rules, frames, 3 + 2 * i);
    match StateAt(rules, frames, 3 + 2 * i)
    case AwaitResult(_, _, remembered, known, _, asked) =>
      history, seen, call := remembered, known, asked;
    case _ =>
      history, seen, call := [], {}, JNull;
  }

  /** Nothing is answered where no call was asked for. */
  lemma AnswersNoCall(rules: SessionRules, frames: seq<Json>, i: nat)
    requires 3 + 2 * i < |frames| && !AsksCall(rules, frames, 3 + 2 * i)
    ensures Told(rules, frames, 4 + 2 * i) == None
  {
    var history, seen, call := AtOdd(rules, frames, i);
    OneStep(rules, frames, 3 + 2 * i);
  }

  function ResultAnswer(accepted: bool, result: Json, other: bool, turn: nat, extended: seq<Json>): Option<Json>
  {
    if !accepted then None
    else if Ending(result) then Some(FinishFrame(StateText(result)))
    else if other then None
    else if turn >= 7 then Some(FinishFrame("TURN_LIMIT"))
    else Some(ProviderFrame(extended))
  }

  lemma ResultStepIs(
      rules: SessionRules, capsule: Json, turn: nat, history: seq<Json>, seen: set<string>, response: Json, call: Json, result: Json)
    requires turn < 8
    ensures SessionStep(rules, AwaitResult(capsule, turn, history, seen, response, call), result).1 ==
      ResultAnswer(rules.accepts(capsule, call, result), result, NamedPublic(call) && result != capsule, turn,
        Extended(rules.encode, history, response, call, result))
  {
  }

  lemma EvenStep(rules: SessionRules, frames: seq<Json>, i: nat, history: seq<Json>, call: Json)
    requires 3 + 2 * i < |frames| && AskedProvider(Told(rules, frames, 2 + 2 * i), history)
    requires AskedCall(Told(rules, frames, 3 + 2 * i), call)
    ensures i < 8 && rules.callOf(frames[2 + 2 * i], CalledIds(rules, frames, i)) == Ok(Some(call))
    ensures var capsule, result := CapsuleIn(frames[0]), frames[3 + 2 * i];
      Told(rules, frames, 4 + 2 * i) ==
        ResultAnswer(rules.accepts(capsule, call, result), result, NamedPublic(call) && result != capsule, i,
          Extended(rules.encode, history, frames[2 + 2 * i], call, result))
  {
    var remembered, seen, asked := AtOdd(rules, frames, i);
    assert remembered == history && asked == call;
    OneStep(rules, frames, 3 + 2 * i);
    ResultStepIs(rules, CapsuleIn(frames[0]), i, history, seen, frames[2 + 2 * i], call, frames[3 + 2 * i]);
  }

  lemma FinalIsEnding(result: Json)
    ensures Ending(result) <==> Tells(result, "state", "STRUCTURALLY_ADMITTED_DRAFT") || Tells(result, "state", "DRAFT_UNAVAILABLE")
    ensures forall state :: Tells(result, "state", state) ==> StateText(result) == state
  {
  }

  lemma ResultAnswered(
      o: Oracles, capsule: map<string, Json>, capsuleHash: string, i: nat, history: seq<Json>, response: Json, call: Json,
      result: Json, accepted: bool, extended: seq<Json>, answer: Option<Json>)
    requires accepted <==> Released(o, result, capsuleHash, if NamedPublic(call) then None else Some(JObject(capsule)))
    requires i < 8 && Appends(o, Round(history, Some(response), Some(call), Some(Ok(result))), extended)
    requires answer == ResultAnswer(accepted, result, NamedPublic(call) && result != JObject(capsule), i, extended)
    ensures AnswersResult(o, capsule, capsuleHash, i, history, response, call, result, answer)
  {
    assert NamedPublic(call) <==> call.JObject? && Holds(call.fields, "name", "public");
    FinalIsEnding(result);
    if !accepted {
    } else if Ending(result) {
      FinishShape(StateText(result));
    } else {
      ProviderShape(extended);
      FinishShape("TURN_LIMIT");
    }
  }

  /** The result of a call is answered as above. */
  lemma AnswersEven(
      o: Oracles, task: TaskRules, runtime: Json, frames: seq<Json>, i: nat, text: string, capsule: map<string, Json>,
      capsuleHash: string, history: seq<Json>, call: Json)
    requires 3 + 2 * i < |frames| && Starts(o, task, frames[0], text, capsule, capsuleHash)
    requires AskedProvider(Told(RulesOf(o, task, runtime), frames, 2 + 2 * i), history)
    requires AskedCall(Told(RulesOf(o, task, runtime), frames, 3 + 2 * i), call)
    ensures i < 8 && AnswersResult(o, capsule, capsuleHash, i, history, frames[2 + 2 * i], call, frames[3 + 2 * i],
      Told(RulesOf(o, task, runtime), frames, 4 + 2 * i))
  {
    var rules := RulesOf(o, task, runtime);
    EvenStep(rules, frames, i, history, call);
    StartsOk(o, task, frames[0], text, capsule, capsuleHash);
    var response, result := frames[2 + 2 * i], frames[3 + 2 * i];
    ProjectsExactly(o, result, capsuleHash, if NamedPublic(call) then None else Some(JObject(capsule)));
    AppendsExtended(o, Round(history, Some(response), Some(call), Some(Ok(result))), MODEL, CalledIds(rules, frames, i));
    ResultAnswered(o, capsule, capsuleHash, i, history, response, call, result,
      ResultProjects(o, JObject(capsule), call, result), Extended(o.encode, history, response, call, result),
      Told(rules, frames, 4 + 2 * i));
  }
}
