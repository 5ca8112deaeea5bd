/** The draft session between an operator and its peer. */
module DraftSession {
  /*
   The operator mirrors the history and validates every frame of whatever sits on the other side; the honest
   session keeps the history and asks. Frames are decoded JSON values.
   */

  import opened Common
  import opened DraftBridge

  const MODEL := "gpt-5.6-terra"

  /** Whatever answers the operator: its next frame, given all frames sent to it; `None` if there is none. */
  type Peer = seq<Json> -> Option<Json>

  // ---- frames ----

  function InitialFrame(task: string, capsule: Json): Json
  {
    JObject(map["model" := JString(MODEL), "task" := JString(task), "capsule" := capsule])
  }

  function ReadyFrame(runtime: Json): Json
  {
    JObject(map["operation" := JString("ready"), "runtime" := runtime])
  }

  function ContinueFrame(): Json
  {
    JObject(map["operation" := JString("continue")])
  }

  function ProviderFrame(history: seq<Json>): Json
  {
    JObject(map["operation" := JString("provider"), "history" := JArray(history)])
  }

  function CallFrame(call: Json): Json
  {
    JObject(map["operation" := JString("call"), "call" := call])
  }

  function FinishFrame(state: string): Json
  {
    JObject(map["operation" := JString("finish"), "state" := JString(state)])
  }

  function StateText(result: Json): string
  {
    if result.JObject? && Member(result.fields, "state").JString? then Member(result.fields, "state").text else ""
  }

  // ---- the runtime report the operator insists on ----

  const CAPABILITY_SETS: set<string> := {"CapInh", "CapPrm", "CapEff", "CapBnd", "CapAmb"}

  const NAMESPACES: set<string> := {"user", "mnt", "pid", "ipc", "net", "cgroup"}

  /** `name:[digits]` with one to twenty digits. */
  predicate NamespaceText(name: string, v: Json)
  {
    && v.JString?
    && |name| + 4 <= |v.text| <= |name| + 23
    && v.text[..|name| + 2] == name + ":["
    && v.text[|v.text| - 1] == ']'
    && forall i :: |name| + 2 <= i < |v.text| - 1 ==> '0' <= v.text[i] <= '9'
  }

  predicate RuntimeOk(v: Json)
  {
    && v.JObject?
    && v.fields.Keys == {
         "uid", "gid", "pid", "uid_map", "gid_map", "setgroups", "capabilities",
         "no_new_privs", "seccomp_mode", "seccomp_filters", "namespaces"}
    && v.fields["uid"] == JInt(65532) && v.fields["gid"] == JInt(65532) && v.fields["pid"] == JInt(1)
    && v.fields["no_new_privs"] == JInt(1) && v.fields["seccomp_mode"] == JInt(2)
    && v.fields["uid_map"] == JArray([JInt(65532), JInt(65532), JInt(1)])
    && v.fields["gid_map"] == JArray([JInt(65532), JInt(65532), JInt(1)])
    && v.fields["setgroups"] == JString("deny")
    && v.fields["capabilities"] == JObject(map name | name in CAPABILITY_SETS :: JString("0000000000000000"))
    && v.fields["seccomp_filters"].JInt? && 2 <= v.fields["seccomp_filters"].number <= 4096
    && v.fields["namespaces"].JObject? && v.fields["namespaces"].fields.Keys == NAMESPACES
    && forall name :: name in NAMESPACES ==> NamespaceText(name, v.fields["namespaces"].fields[name])
  }

  predicate ReadyOk(frame: Json)
  {
    && frame.JObject? && frame.fields.Keys == {"operation", "runtime"}
    && frame.fields["operation"] == JString("ready") && RuntimeOk(frame.fields["runtime"])
  }

  // ---- the operator ----

  datatype Progress =
    | Ended(outcome: Outcome)
    | Continued(history: seq<Json>, seen: set<string>, sent: seq<Json>, request: Json)

  /** The second half of a turn: the result of the dispatched call is sent. */
  function AnswerCall(
      b: Bridge, peer: Peer, history: seq<Json>, seen: set<string>, sent: seq<Json>,
      response: Json, call: Json, result: Outcome): Progress
  {
    if result.Err? then Ended(result)
    else
      var next := peer(sent + [result.value]);
      if next.None? then Ended(Err(PeerSilent))
      else if Ending(result.value) then
        Ended(if next.value == FinishFrame(StateText(result.value)) then result else Err(FrameRejected))
      else
        Continued(Extended(b.encode, history, response, call, result.value), seen + {IdOf(call)},
          sent + [result.value], next.value)
  }

  /** One turn: `sent` are the frames sent so far, `request` the last frame received. */
  function Turn(
      b: Bridge, peer: Peer, turn: nat, history: seq<Json>, seen: set<string>, sent: seq<Json>, request: Json): Progress
  {
    if request != ProviderFrame(history) then Ended(Err(FrameRejected))
    else
      var response := b.provider(turn, history);
      if response.None? then Ended(Err(ProviderFailed))
      else
        var call := b.callOf(response.value, seen);
        if call.Err? then Ended(Err(OutputRefused))
        else
          var asked := peer(sent + [response.value]);
          if asked.None? then Ended(Err(PeerSilent))
          else if call.value.None? then
            Ended(if asked.value == FinishFrame("NO_DRAFT") then Ok(Report("NO_DRAFT")) else Err(FrameRejected))
          else if asked.value != CallFrame(call.value.value) then Ended(Err(FrameRejected))
          else
            AnswerCall(b, peer, history, seen, sent + [response.value], response.value, call.value.value,
              b.dispatch(turn + 1, call.value.value))
  }

  /** The operator from one turn on. */
  function ServeFrom(
      b: Bridge, peer: Peer, turn: nat, history: seq<Json>, seen: set<string>, sent: seq<Json>, request: Json): Outcome
    decreases TURNS - turn
  {
    if turn >= TURNS then
      if request == FinishFrame("TURN_LIMIT") then Ok(Report("TURN_LIMIT")) else Err(FrameRejected)
    else
      match Turn(b, peer, turn, history, seen, sent, request)
      case Ended(outcome) => outcome
      case Continued(history', seen', sent', request') =>
        ServeFrom(b, peer, turn + 1, history', seen', sent', request')
  }

  function Serve(b: Bridge, peer: Peer, capsule: Json, task: string): Outcome
  {
    var initial := InitialFrame(task, capsule);
    var ready := peer([initial]);
    if ready.None? then Err(PeerSilent)
    else if !ReadyOk(ready.value) then Err(FrameRejected)
    else
      var request := peer([initial, ContinueFrame()]);
      if request.None? then Err(PeerSilent)
      else
        ServeFrom(b, peer, 0, OpeningHistory(b.encode, task, capsule), {}, [initial, ContinueFrame()], request.value)
  }

  /** `container_operator.run` around the session: the initial public read, then `serve`. */
  function Operate(o: Oracles, peer: Peer, capsuleHash: string, task: string): Outcome
  {
    var capsule := o.broker(0, PublicRequest());
    if capsule.None? || !PublicCapsule(o, capsule.value, capsuleHash) then Err(DispatchFailed)
    else Serve(BridgeOf(o, MODEL, capsuleHash, capsule.value), peer, capsule.value, task)
  }

  // ---- the honest session ----

  datatype Session =
    | AwaitInitial
    | AwaitContinue(initial: Json)
    | AwaitResponse(capsule: Json, turn: nat, history: seq<Json>, seen: set<string>)
    | AwaitResult(capsule: Json, turn: nat, history: seq<Json>, seen: set<string>, response: Json, call: Json)
    | Stopped

  /** The session's own view of the capsule hash it was given. */
  function CapsuleHash(capsule: Json): string
  {
    if capsule.JObject? && Member(capsule.fields, "capsule_hash").JString?
    then Member(capsule.fields, "capsule_hash").text else ""
  }

  /** What the session requires of the task text: not blank, and bounded once encoded. */
  datatype TaskRules = TaskRules(blank: string -> bool, utf8Length: string -> nat)

  predicate TaskOk(rules: TaskRules, text: string)
  {
    !rules.blank(text) && rules.utf8Length(text) <= 65536
  }

  predicate InitialOk(o: Oracles, rules: TaskRules, initial: Json)
  {
    && initial.JObject? && initial.fields.Keys == {"model", "task", "capsule"}
    && initial.fields["model"] == JString(MODEL)
    && initial.fields["task"].JString? && TaskOk(rules, initial.fields["task"].text)
    && initial.fields["capsule"].JObject?
    && PublicCapsule(o, initial.fields["capsule"], CapsuleHash(initial.fields["capsule"]))
  }

  function CapsuleIn(initial: Json): Json
  {
    if initial.JObject? then Member(initial.fields, "capsule") else JNull
  }

  function TaskIn(initial: Json): string
  {
    if initial.JObject? && Member(initial.fields, "task").JString? then Member(initial.fields, "task").text else ""
  }

  /** The session checks a result as the operator's dispatch does. */
  predicate ResultProjects(o: Oracles, capsule: Json, call: Json, result: Json)
  {
    Projects(o, result, CapsuleHash(capsule), if NamedPublic(call) then None else Some(capsule))
  }

  /** The session's checks, with its oracles fixed, and the runtime report it sends. */
  datatype SessionRules = SessionRules(
    runtime: Json,
    encode: Json -> string,
    initialOk: Json -> bool,
    callOf: (Json, set<string>) -> Result<Option<Json>, Failure>,
    accepts: (Json, Json, Json) -> bool)

  function RulesOf(o: Oracles, rules: TaskRules, runtime: Json): SessionRules
  {
    SessionRules(
      runtime,
      o.encode,
      (initial: Json) => InitialOk(o, rules, initial),
      (response: Json, seen: set<string>) => CallOf(o, response, MODEL, seen),
      (capsule: Json, call: Json, result: Json) => ResultProjects(o, capsule, call, result))
  }

  /** One received frame: the new state and the frame sent in return, if the session does not fail. */
  function SessionStep(rules: SessionRules, s: Session, frame: Json): (Session, Option<Json>)
  {
    match s
    case AwaitInitial => (AwaitContinue(frame), Some(ReadyFrame(rules.runtime)))
    case AwaitContinue(initial) =>
      if frame != ContinueFrame() || !rules.initialOk(initial) then (Stopped, None)
      else
        var history := OpeningHistory(rules.encode, TaskIn(initial), CapsuleIn(initial));
        (AwaitResponse(CapsuleIn(initial), 0, history, {}), Some(ProviderFrame(history)))
    case AwaitResponse(capsule, turn, history, seen) =>
      var call := rules.callOf(frame, seen);
      if call.Err? then (Stopped, None)
      else if call.value.None? then (Stopped, Some(FinishFrame("NO_DRAFT")))
      else
        (AwaitResult(capsule, turn, history, seen + {IdOf(call.value.value)}, frame, call.value.value),
         Some(CallFrame(call.value.value)))
    case AwaitResult(capsule, turn, history, seen, response, call) =>
      if !rules.accepts(capsule, call, frame) then (Stopped, None)
      else if Ending(frame) then (Stopped, Some(FinishFrame(StateText(frame))))
      else if NamedPublic(call) && frame != capsule then (Stopped, None)
      else
        var extended := Extended(rules.encode, history, response, call, frame);
        if turn + 1 >= TURNS then (Stopped, Some(FinishFrame("TURN_LIMIT")))
        else (AwaitResponse(capsule, turn + 1, extended, seen), Some(ProviderFrame(extended)))
    case Stopped => (Stopped, None)
  }

  function SessionAfter(rules: SessionRules, frames: seq<Json>): Session
  {
    if frames == [] then AwaitInitial
    else SessionStep(rules, SessionAfter(rules, frames[..|frames| - 1]), frames[|frames| - 1]).0
  }

  /** The honest session as a peer of the operator. */
  function Honest(rules: SessionRules, frames: seq<Json>): Option<Json>
  {
    if frames == [] then None
    else SessionStep(rules, SessionAfter(rules, frames[..|frames| - 1]), frames[|frames| - 1]).1
  }

  function HonestPeer(rules: SessionRules): Peer
  {
    (frames: seq<Json>) => Honest(rules, frames)
  }

  /** `state` and `peer` are what the stepwise session is in and answers after each list of frames. */
  ghost predicate Plays(rules: SessionRules, peer: Peer, state: seq<Json> -> Session)
  {
    && state([]) == AwaitInitial
    && forall frames, frame {:trigger Played(rules, peer, state, frames, frame)} ::
         Played(rules, peer, state, frames, frame)
  }

  ghost predicate Played(
      rules: SessionRules, peer: Peer, state: seq<Json> -> Session, frames: seq<Json>, frame: Json)
  {
    var (next, out) := SessionStep(rules, state(frames), frame);
    state(frames + [frame]) == next && peer(frames + [frame]) == out
  }

  lemma HonestPlays(rules: SessionRules)
    ensures Plays(rules, HonestPeer(rules), (frames: seq<Json>) => SessionAfter(rules, frames))
  {
    var peer, state := HonestPeer(rules), (frames: seq<Json>) => SessionAfter(rules, frames);
    forall frames, frame ensures Played(rules, peer, state, frames, frame) {
      assert (frames + [frame])[..|frames|] == frames;
    }
  }

  // ---- the session's own loop ----

  /** The session's side of the wire: its operator's answer to the frames sent so far. */
  type Operator = seq<Json> -> Option<Json>

  /** The frames sent are the peer's answers to the frames received, and those are the operator's to these. */
  ghost predicate Wire(peer: Peer, operator: Operator, received: seq<Json>, sent: seq<Json>)
  {
    && |sent| <= |received| <= |sent| + 1
    && (forall i :: 0 <= i < |sent| ==> Some(sent[i]) == peer(received[..i + 1]))
    && (forall i :: 0 <= i < |received| ==> Some(received[i]) == operator(sent[..i]))
  }

  lemma WireSend(peer: Peer, operator: Operator, received: seq<Json>, sent: seq<Json>, out: Json)
    requires Wire(peer, operator, received, sent) && |sent| + 1 == |received| && peer(received) == Some(out)
    ensures Wire(peer, operator, received, sent + [out])
  {
    assert received[..|received|] == received;
    forall i | 0 <= i < |received| ensures Some(received[i]) == operator((sent + [out])[..i]) {
      assert (sent + [out])[..i] == sent[..i];
    }
  }

  lemma WireReceive(peer: Peer, operator: Operator, received: seq<Json>, sent: seq<Json>, frame: Json)
    requires Wire(peer, operator, received, sent) && |sent| == |received| && operator(sent) == Some(frame)
    ensures Wire(peer, operator, received + [frame], sent)
  {
    assert sent[..|sent|] == sent;
    forall i | 0 <= i < |sent| ensures Some(sent[i]) == peer((received + [frame])[..i + 1]) {
      assert (received + [frame])[..i + 1] == received[..i + 1];
    }
  }

  /** Why a session stopped: it announced a final state, the operator went silent, or it refused a frame. */
  ghost predicate StoppedWell(
      peer: Peer, operator: Operator, finish: Option<string>, received: seq<Json>, sent: seq<Json>)
  {
    && Wire(peer, operator, received, sent)
    && if finish.Some? then |sent| == |received| > 0 && sent[|sent| - 1] == FinishFrame(finish.value)
       else if |sent| == |received| then operator(sent).None? else peer(received).None?
  }

  /** Where the session stands after a turn that did not end it. */
  ghost predicate TurnDone(peer: Peer, state: seq<Json> -> Session, capsule: Json,
      turn: nat, history: seq<Json>, seen: set<string>, received: seq<Json>)
  {
    if turn < TURNS then
      state(received) == AwaitResponse(capsule, turn, history, seen) && peer(received) == Some(ProviderFrame(history))
    else peer(received) == Some(FinishFrame("TURN_LIMIT"))
  }

  /** One turn of the session's loop; `finish` is its final state, if this turn decides it. */
  method SessionTurn(
      o: Oracles, operator: Operator, capsule: Json, turn: nat, history: seq<Json>, seen: set<string>,
      before: seq<Json>, out: seq<Json>, ghost rules: SessionRules, ghost peer: Peer, ghost state: seq<Json> -> Session)
    returns (ended: bool, finish: Option<string>, history': seq<Json>, seen': set<string>, received: seq<Json>, sent: seq<Json>)
    requires turn < TURNS && Plays(rules, peer, state) && SessionOf(o, rules)
    requires Wire(peer, operator, before, out) && |out| + 1 == |before|
    requires TurnDone(peer, state, capsule, turn, history, seen, before)
    ensures ended ==> StoppedWell(peer, operator, finish, received, sent) && |sent| <= |out| + 3
    ensures !ended ==>
      && Wire(peer, operator, received, sent) && |sent| + 1 == |received| == |out| + 3
      && TurnDone(peer, state, capsule, turn + 1, history', seen', received)
  {
    ended, finish, history', seen', received := true, None, history, seen, before;
    WireSend(peer, operator, received, out, ProviderFrame(history));
    sent := out + [ProviderFrame(history)];
    var response := operator(sent);
    if response.None? {
      return;
    }
    assert Played(rules, peer, state, received, response.value);
    WireReceive(peer, operator, received, sent, response.value);
    received := received + [response.value];
    var call, ids := ReadCall(o, response.value, MODEL, seen);
    assert rules.callOf(response.value, seen) == call;
    if call.Err? {
      return;
    }
    if call.value.None? {
      WireSend(peer, operator, received, sent, FinishFrame("NO_DRAFT"));
      sent, finish := sent + [FinishFrame("NO_DRAFT")], Some("NO_DRAFT");
      return;
    }
    WireSend(peer, operator, received, sent, CallFrame(call.value.value));
    sent := sent + [CallFrame(call.value.value)];
    ended, finish, history', seen', received, sent := SessionResult(
      o, operator, capsule, turn, history, ids, response.value, call.value.value, received, sent, rules, peer, state);
  }

  /** The abstract rules of a session are those of these oracles. */
  ghost predicate SessionOf(o: Oracles, rules: SessionRules)
  {
    exists task: TaskRules :: rules == RulesOf(o, task, rules.runtime)
  }

  /** The second half of a session turn: the result of the call. */
  method SessionResult(
      o: Oracles, operator: Operator, capsule: Json, turn: nat, history: seq<Json>,
      seen: set<string>, response: Json, call: Json, before: seq<Json>, out: seq<Json>,
      ghost rules: SessionRules, ghost peer: Peer, ghost state: seq<Json> -> Session)
    returns (ended: bool, finish: Option<string>, history': seq<Json>, seen': set<string>, received: seq<Json>, sent: seq<Json>)
    requires turn < TURNS && Plays(rules, peer, state) && SessionOf(o, rules)
    requires Wire(peer, operator, before, out) && |out| == |before|
    requires state(before) == AwaitResult(capsule, turn, history, seen, response, call)
    ensures ended ==> StoppedWell(peer, operator, finish, received, sent) && |sent| <= |out| + 1
    ensures !ended ==>
      && Wire(peer, operator, received, sent) && |sent| + 1 == |received| == |out| + 1
      && TurnDone(peer, state, capsule, turn + 1, history', seen', received)
  {
    ended, finish, history', seen', received, sent := true, None, history, seen, before, out;
    var result := operator(sent);
    if result.None? {
      return;
    }
    assert Played(rules, peer, state, received, result.value);
    WireReceive(peer, operator, received, sent, result.value);
    received := received + [result.value];
    assert rules.accepts(capsule, call, result.value) == ResultProjects(o, capsule, call, result.value);
    if !ResultProjects(o, capsule, call, result.value) {
      return;
    }
    if Ending(result.value) {
      WireSend(peer, operator, received, sent, FinishFrame(StateText(result.value)));
      sent, finish := sent + [FinishFrame(StateText(result.value))], Some(StateText(result.value));
      return;
    }
    if NamedPublic(call) && result.value != capsule {
      return;
    }
    ended, history' := false, Extended(o.encode, history, response, call, result.value);
  }

  /** `main` up to the first request: the ready frame, the operator's go-ahead, and the checks of `run`. */
  method Greet(
      o: Oracles, task: TaskRules, runtime: Json, operator: Operator,
      ghost rules: SessionRules, ghost peer: Peer, ghost state: seq<Json> -> Session)
    returns (ready: bool, capsule: Json, history: seq<Json>, received: seq<Json>, sent: seq<Json>)
    requires rules == RulesOf(o, task, runtime) && Plays(rules, peer, state)
    ensures |sent| <= 1
    ensures !ready ==> StoppedWell(peer, operator, None, received, sent)
    ensures ready ==>
      && Wire(peer, operator, received, sent) && |sent| == 1 && |received| == 2
      && TurnDone(peer, state, capsule, 0, history, {}, received)
  {
    ready, capsule, history, received, sent := false, JNull, [], [], [];
    var initial := operator(sent);
    if initial.None? {
      return;
    }
    assert Played(rules, peer, state, received, initial.value);
    WireReceive(peer, operator, received, sent, initial.value);
    received := received + [initial.value];
    WireSend(peer, operator, received, sent, ReadyFrame(runtime));
    sent := sent + [ReadyFrame(runtime)];
    var go := operator(sent);
    if go.None? {
      return;
    }
    assert Played(rules, peer, state, received, go.value);
    WireReceive(peer, operator, received, sent, go.value);
    received := received + [go.value];
    if go.value != ContinueFrame() || !InitialOk(o, task, initial.value) {
      return;
    }
    ready, capsule := true, CapsuleIn(initial.value);
    history := OpeningHistory(o.encode, TaskIn(initial.value), capsule);
  }

  /** `main` and `run` of the session: everything it sends is what the stepwise session answers. */
  method RunSession(o: Oracles, task: TaskRules, runtime: Json, operator: Operator)
    returns (finish: Option<string>, received: seq<Json>, sent: seq<Json>)
    ensures StoppedWell(HonestPeer(RulesOf(o, task, runtime)), operator, finish, received, sent)
    ensures |sent| <= 2 + 2 * TURNS
  {
    ghost var rules := RulesOf(o, task, runtime);
    ghost var state := (frames: seq<Json>) => SessionAfter(rules, frames);
    HonestPlays(rules);
    finish, received, sent := Converses(o, task, runtime, operator, rules, HonestPeer(rules), state);
  }

  /** The loop of `run`, for any way of playing the stepwise session. */
  method Converses(
      o: Oracles, task: TaskRules, runtime: Json, operator: Operator,
      ghost rules: SessionRules, ghost peer: Peer, ghost state: seq<Json> -> Session)
    returns (finish: Option<string>, received: seq<Json>, sent: seq<Json>)
    requires rules == RulesOf(o, task, runtime) && Plays(rules, peer, state)
    ensures StoppedWell(peer, operator, finish, received, sent)
    ensures |sent| <= 2 + 2 * TURNS
  {
    var ready, capsule, history, in0, out0 := Greet(o, task, runtime, operator, rules, peer, state);
    finish, received, sent := None, in0, out0;
    if !ready {
      return;
    }
    assert SessionOf(o, rules);
    var seen: set<string> := {};
    for turn := 0 to TURNS
      invariant Wire(peer, operator, received, sent) && |sent| + 1 == |received| == 2 + 2 * turn
      invariant TurnDone(peer, state, capsule, turn, history, seen, received)
    {
      var ended;
      ended, finish, history, seen, received, sent := SessionTurn(
        o, operator, capsule, turn, history, seen, received, sent, rules, peer, state);
      if ended {
        return;
      }
    }
    WireSend(peer, operator, received, sent, FinishFrame("TURN_LIMIT"));
    sent, finish := sent + [FinishFrame("TURN_LIMIT")], Some("TURN_LIMIT");
  }

  // ---- refinement: two parties compute what one process computes ----

  /** Operator and session read responses alike, and what the operator's dispatch passes the session accepts. */
  ghost predicate Agrees(b: Bridge, rules: SessionRules, capsule: Json)
  {
    && b.encode == rules.encode
    && b.callOf == rules.callOf
    && forall n, call {:trigger DispatchAgrees(b, rules, capsule, n, call)} :: DispatchAgrees(b, rules, capsule, n, call)
  }

  ghost predicate DispatchAgrees(b: Bridge, rules: SessionRules, capsule: Json, n: nat, call: Json)
  {
    var result := b.dispatch(n, call);
    result.Ok? ==> rules.accepts(capsule, call, result.value) && (NamedPublic(call) ==> result.value == capsule)
  }

  lemma CapsuleHashIs(o: Oracles, capsule: Json, capsuleHash: string)
    requires PublicCapsule(o, capsule, capsuleHash)
    ensures CapsuleHash(capsule) == capsuleHash && PublicCapsule(o, capsule, CapsuleHash(capsule))
  {
  }

  lemma DispatchProjects(o: Oracles, n: nat, call: Json, capsuleHash: string, capsule: Json)
    requires CapsuleHash(capsule) == capsuleHash
    ensures var result := Dispatch(o, n, call, capsuleHash, capsule);
      result.Ok? ==> ResultProjects(o, capsule, call, result.value) && (NamedPublic(call) ==> result.value == capsule)
  {
  }

  lemma BridgeAgrees(o: Oracles, task: TaskRules, runtime: Json, capsuleHash: string, capsule: Json)
    requires PublicCapsule(o, capsule, capsuleHash)
    ensures Agrees(BridgeOf(o, MODEL, capsuleHash, capsule), RulesOf(o, task, runtime), capsule)
  {
    var b, rules := BridgeOf(o, MODEL, capsuleHash, capsule), RulesOf(o, task, runtime);
    CapsuleHashIs(o, capsule, capsuleHash);
    forall n, call ensures DispatchAgrees(b, rules, capsule, n, call) {
      DispatchProjects(o, n, call, capsuleHash, capsule);
    }
  }

  /** The session waits for exactly the answer the operator is about to give, with the same history. */
  ghost predicate InStep(
      peer: Peer, state: seq<Json> -> Session, capsule: Json,
      turn: nat, history: seq<Json>, seen: set<string>, sent: seq<Json>, request: Json)
  {
    TurnDone(peer, state, capsule, turn, history, seen, sent) && peer(sent) == Some(request)
  }

  lemma CallRefines(
      b: Bridge, rules: SessionRules, peer: Peer, state: seq<Json> -> Session, capsule: Json,
      turn: nat, history: seq<Json>, seen: set<string>, sent: seq<Json>, response: Json, call: Json, result: Outcome)
    requires Plays(rules, peer, state) && Agrees(b, rules, capsule) && turn < TURNS
    requires state(sent) == AwaitResult(capsule, turn, history, seen + {IdOf(call)}, response, call)
    requires result == b.dispatch(turn + 1, call)
    ensures match AnswerCall(b, peer, history, seen, sent, response, call, result)
      case Ended(outcome) => outcome == result && (result.Ok? ==> Ending(result.value))
      case Continued(history', seen', sent', request') =>
        && result.Ok? && !Ending(result.value)
        && history' == Extended(b.encode, history, response, call, result.value) && seen' == seen + {IdOf(call)}
        && InStep(peer, state, capsule, turn + 1, history', seen', sent', request')
  {
    assert DispatchAgrees(b, rules, capsule, turn + 1, call);
    if result.Ok? {
      assert Played(rules, peer, state, sent, result.value);
    }
  }

  /** One turn of the operator against the session is one turn of the single process. */
  lemma TurnRefines(
      b: Bridge, rules: SessionRules, peer: Peer, state: seq<Json> -> Session,
      capsule: Json, turn: nat, history: seq<Json>, seen: set<string>, sent: seq<Json>, request: Json)
    requires Plays(rules, peer, state) && Agrees(b, rules, capsule) && turn < TURNS
    requires InStep(peer, state, capsule, turn, history, seen, sent, request)
    ensures var step := ConverseTurn(b, turn, history, seen);
      match Turn(b, peer, turn, history, seen, sent, request)
      case Ended(outcome) => step == Ends(outcome)
      case Continued(history', seen', sent', request') =>
        && step == Goes(history', seen')
        && InStep(peer, state, capsule, turn + 1, history', seen', sent', request')
  {
    var response := b.provider(turn, history);
    if response.Some? {
      var call := b.callOf(response.value, seen);
      assert Played(rules, peer, state, sent, response.value);
      if call.Ok? && call.value.Some? {
        CallRefines(b, rules, peer, state, capsule, turn, history, seen, sent + [response.value],
          response.value, call.value.value, b.dispatch(turn + 1, call.value.value));
      }
    }
  }

  lemma {:induction false} ConversationRefines(
      b: Bridge, rules: SessionRules, peer: Peer, state: seq<Json> -> Session,
      capsule: Json, turn: nat, history: seq<Json>, seen: set<string>, sent: seq<Json>, request: Json)
    requires Plays(rules, peer, state) && Agrees(b, rules, capsule)
    requires InStep(peer, state, capsule, turn, history, seen, sent, request)
    ensures ServeFrom(b, peer, turn, history, seen, sent, request) == Converse(b, turn, history, seen)
    decreases TURNS - turn
  {
    if turn < TURNS {
      TurnRefines(b, rules, peer, state, capsule, turn, history, seen, sent, request);
      match Turn(b, peer, turn, history, seen, sent, request)
      case Ended(_) =>
      case Continued(history', seen', sent', request') =>
        ConversationRefines(b, rules, peer, state, capsule, turn + 1, history', seen', sent', request');
    }
  }

  lemma InitialIsOk(o: Oracles, task: TaskRules, capsule: Json, text: string)
    requires PublicCapsule(o, capsule, CapsuleHash(capsule)) && TaskOk(task, text)
    ensures var initial := InitialFrame(text, capsule);
      InitialOk(o, task, initial) && CapsuleIn(initial) == capsule && TaskIn(initial) == text
  {
  }

  lemma ReadyIsOk(runtime: Json)
    requires RuntimeOk(runtime)
    ensures ReadyOk(ReadyFrame(runtime))
  {
  }

  lemma Opening(
      rules: SessionRules, peer: Peer, state: seq<Json> -> Session, initial: Json, capsule: Json, text: string)
    requires Plays(rules, peer, state)
    requires rules.initialOk(initial) && CapsuleIn(initial) == capsule && TaskIn(initial) == text
    ensures var history := OpeningHistory(rules.encode, text, capsule);
      && peer([initial]) == Some(ReadyFrame(rules.runtime))
      && InStep(peer, state, capsule, 0, history, {}, [initial, ContinueFrame()], ProviderFrame(history))
  {
    var go := ContinueFrame();
    assert Played(rules, peer, state, [], initial);
    assert [] + [initial] == [initial];
    assert Played(rules, peer, state, [initial], go);
    assert [initial] + [go] == [initial, go];
  }

  /** The rules a session applies to the first frame and to its runtime are met. */
  ghost predicate Admissible(rules: SessionRules, initial: Json, capsule: Json, text: string)
  {
    && rules.initialOk(initial) && CapsuleIn(initial) == capsule && TaskIn(initial) == text
    && ReadyOk(ReadyFrame(rules.runtime))
  }

  lemma IsAdmissible(o: Oracles, task: TaskRules, runtime: Json, capsuleHash: string, capsule: Json, text: string)
    requires RuntimeOk(runtime) && TaskOk(task, text) && PublicCapsule(o, capsule, capsuleHash)
    ensures Admissible(RulesOf(o, task, runtime), InitialFrame(text, capsule), capsule, text)
  {
    CapsuleHashIs(o, capsule, capsuleHash);
    ReadyIsOk(runtime);
    InitialIsOk(o, task, capsule, text);
  }

  lemma ServeRefines(
      rules: SessionRules, peer: Peer, state: seq<Json> -> Session, b: Bridge, capsule: Json, text: string)
    requires Plays(rules, peer, state) && Agrees(b, rules, capsule)
    requires Admissible(rules, InitialFrame(text, capsule), capsule, text)
    ensures Serve(b, peer, capsule, text) == Converse(b, 0, OpeningHistory(b.encode, text, capsule), {})
  {
    var initial, history := InitialFrame(text, capsule), OpeningHistory(b.encode, text, capsule);
    Opening(rules, peer, state, initial, capsule, text);
    ConversationRefines(b, rules, peer, state, capsule, 0, history, {}, [initial, ContinueFrame()], ProviderFrame(history));
  }

  /**
   With an honest session on the other side, the operator's run gives the result of the one-process run on the
   same provider and broker, failures included. Since the one process knows no frames, no frame is rejected
   and nobody falls silent.
   */
  lemma TwoPartiesRefineOne(o: Oracles, task: TaskRules, runtime: Json, capsuleHash: string, text: string)
    requires RuntimeOk(runtime) && TaskOk(task, text)
    ensures var outcome := Operate(o, HonestPeer(RulesOf(o, task, runtime)), capsuleHash, text);
      && outcome == Direct(o, MODEL, capsuleHash, text)
      && outcome != Err(FrameRejected) && outcome != Err(PeerSilent)
  {
    DirectFailsAlone(o, MODEL, capsuleHash, text);
    var rules, capsule := RulesOf(o, task, runtime), o.broker(0, PublicRequest());
    HonestPlays(rules);
    if capsule.Some? && PublicCapsule(o, capsule.value, capsuleHash) {
      var b := BridgeOf(o, MODEL, capsuleHash, capsule.value);
      IsAdmissible(o, task, runtime, capsuleHash, capsule.value, text);
      BridgeAgrees(o, task, runtime, capsuleHash, capsule.value);
      ServeRefines(rules, HonestPeer(rules), (frames: seq<Json>) => SessionAfter(rules, frames), b, capsule.value, text);
    }
  }
}
