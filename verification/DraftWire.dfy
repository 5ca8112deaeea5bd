/** Frame by frame: what a draft session's operator does. */
module DraftWire {
  import opened Common
  import opened DraftBridge
  import opened DraftSession
  import opened DraftTrace

  /*
   The conversation told from its records: which frame stands where, what the model is shown next, which results
   end a run, and why a run failed. Everything is said of the values themselves.
   */

  predicate Tells(v: Json, name: string, text: string)
  {
    v.JObject? && name in v.fields && v.fields[name] == JString(text)
  }

  predicate Final(result: Json)
  {
    Tells(result, "state", "STRUCTURALLY_ADMITTED_DRAFT") || Tells(result, "state", "DRAFT_UNAVAILABLE")
  }

  predicate OwnReport(result: Json, state: string)
  {
    result == JObject(map["state" := JString(state), "authority" := JString("NONE")])
  }

  // ---- what the model is shown ----

  /** The first request: one user message with the task and the capsule. */
  ghost predicate Opens(o: Oracles, task: string, capsule: Json, history: seq<Json>)
  {
    history == [JObject(map[
      "role" := JString("user"),
      "content" := JString(o.encode(JObject(map["task" := JString(task), "capsule" := capsule])))])]
  }

  /** The next request: the last one, the output items of its response in order, and the result under the call's identifier. */
  ghost predicate Appends(o: Oracles, r: Round, next: seq<Json>)
  {
    match (r.response, r.call, r.result)
    case (Some(JObject(response)), Some(JObject(call)), Some(Ok(result))) =>
      && "output" in response && response["output"].JArray? && "call_id" in call
      && next == r.history + response["output"].items + [JObject(map[
           "type" := JString("function_call_output"),
           "call_id" := call["call_id"],
           "output" := JString(o.encode(result))])]
    case _ => false
  }

  /** All rounds but the last had a call whose result was no final one, and the next request shows it. */
  ghost predicate GoesOn(o: Oracles, rounds: seq<Round>, i: nat)
    requires i + 1 < |rounds|
  {
    && rounds[i].result.Some? && rounds[i].result.value.Ok? && !Final(rounds[i].result.value.value)
    && Appends(o, rounds[i], rounds[i + 1].history)
  }

  ghost predicate Talked(o: Oracles, task: string, capsule: Json, rounds: seq<Round>)
  {
    && |rounds| <= 8
    && (|rounds| > 0 ==> Opens(o, task, capsule, rounds[0].history))
    && forall i {:trigger GoesOn(o, rounds, i)} :: 0 <= i < |rounds| - 1 ==> GoesOn(o, rounds, i)
  }

  // ---- which frame stands where ----

  predicate AsksProvider(frame: Json, history: seq<Json>)
  {
    frame == JObject(map["operation" := JString("provider"), "history" := JArray(history)])
  }

  predicate AsksCall(frame: Json, call: Json)
  {
    frame == JObject(map["operation" := JString("call"), "call" := call])
  }

  predicate Finishes(frame: Json, state: string)
  {
    frame == JObject(map["operation" := JString("finish"), "state" := JString(state)])
  }

  /** The i-th round, once its result was sent: two frames each way, and the single call of the response. */
  ghost predicate Through(o: Oracles, rounds: seq<Round>, sent: seq<Json>, received: seq<Json>, i: nat)
    requires i < |rounds|
  {
    var r := rounds[i];
    && |sent| >= 4 + 2 * i && |received| >= 3 + 2 * i
    && AsksProvider(received[1 + 2 * i], r.history)
    && r.response == Some(sent[2 + 2 * i])
    && r.call.Some? && CallOf(o, sent[2 + 2 * i], "gpt-5.6-terra", IdsOf(rounds[..i])) == Ok(r.call)
    && AsksCall(received[2 + 2 * i], r.call.value)
    && r.result == Some(Ok(sent[3 + 2 * i]))
  }

  ghost predicate AllThrough(o: Oracles, rounds: seq<Round>, sent: seq<Json>, received: seq<Json>, n: nat)
    requires n <= |rounds|
  {
    forall i {:trigger Through(o, rounds, sent, received, i)} :: 0 <= i < n ==> Through(o, rounds, sent, received, i)
  }

  // ---- how a run ends ----

  /** How a run ends before its first request. */
  ghost predicate EndsGreeting(o: Oracles, task: string, capsule: Json, t: Trace)
  {
    match |t.received|
    case 0 => |t.sent| == 1 && t.outcome == Err(PeerSilent)
    case 1 =>
      if ReadyOk(t.received[0]) then |t.sent| == 2 && t.outcome == Err(PeerSilent)
      else |t.sent| == 1 && t.outcome == Err(FrameRejected)
    case 2 =>
      && |t.sent| == 2 && ReadyOk(t.received[0]) && t.outcome == Err(FrameRejected)
      && forall history :: Opens(o, task, capsule, history) ==> !AsksProvider(t.received[1], history)
    case _ => false
  }

  /** How a run ends with its i-th request. Nothing is dispatched but the call that the peer asked for as well. */
  ghost predicate EndsRequest(o: Oracles, rounds: seq<Round>, i: nat, sent: seq<Json>, received: seq<Json>, outcome: Outcome)
    requires |rounds| == i + 1
  {
    match rounds[i].response
    case None => Undispatched(rounds[i]) && |sent| == |received| == 2 + 2 * i && outcome == Err(ProviderFailed)
    case Some(response) =>
      match CallOf(o, response, "gpt-5.6-terra", IdsOf(rounds[..i]))
      case Err(_) => Undispatched(rounds[i]) && |sent| == |received| == 2 + 2 * i && outcome == Err(OutputRefused)
      case Ok(call) =>
        && |sent| >= 3 + 2 * i && sent[2 + 2 * i] == response
        && if |received| < 3 + 2 * i then Undispatched(rounds[i]) && |sent| == 3 + 2 * i && outcome == Err(PeerSilent)
           else
             match call
             case None =>
               && Undispatched(rounds[i]) && |sent| == |received| == 3 + 2 * i
               && if Finishes(received[2 + 2 * i], "NO_DRAFT") then outcome.Ok? && OwnReport(outcome.value, "NO_DRAFT")
                  else outcome == Err(FrameRejected)
             case Some(c) =>
               if AsksCall(received[2 + 2 * i], c) then
                 rounds[i].call == call && rounds[i].result.Some? && EndsCall(o, rounds[i], i, sent, received, outcome)
               else Undispatched(rounds[i]) && |sent| == |received| == 3 + 2 * i && outcome == Err(FrameRejected)
  }

  predicate Undispatched(r: Round)
  {
    r.call.None? && r.result.None?
  }

  /** How a run ends once its i-th request led to a dispatch. */
  ghost predicate EndsCall(o: Oracles, r: Round, i: nat, sent: seq<Json>, received: seq<Json>, outcome: Outcome)
    requires r.result.Some?
  {
    match r.result.value
    case Err(failure) => |sent| == |received| == 3 + 2 * i && outcome == Err(failure)
    case Ok(result) =>
      && |sent| == 4 + 2 * i && sent[3 + 2 * i] == result
      && if |received| < 4 + 2 * i then |received| == 3 + 2 * i && outcome == Err(PeerSilent)
         else |received| == 4 + 2 * i && EndsTold(o, r, i, result, received[3 + 2 * i], outcome)
  }

  /** How a run ends on the answer to the result of a call. */
  ghost predicate EndsTold(o: Oracles, r: Round, i: nat, result: Json, answer: Json, outcome: Outcome)
  {
    if Tells(result, "state", "STRUCTURALLY_ADMITTED_DRAFT") then
      outcome == if Finishes(answer, "STRUCTURALLY_ADMITTED_DRAFT") then Ok(result) else Err(FrameRejected)
    else if Tells(result, "state", "DRAFT_UNAVAILABLE") then
      outcome == if Finishes(answer, "DRAFT_UNAVAILABLE") then Ok(result) else Err(FrameRejected)
    else if i == 7 then
      if Finishes(answer, "TURN_LIMIT") then outcome.Ok? && OwnReport(outcome.value, "TURN_LIMIT")
      else outcome == Err(FrameRejected)
    else outcome == Err(FrameRejected) && forall next :: Appends(o, r, next) ==> !AsksProvider(answer, next)
  }

  /** How a run got to its i-th request. */
  ghost predicate LeadsTo(o: Oracles, task: string, capsule: Json, rounds: seq<Round>, i: nat, sent: seq<Json>, received: seq<Json>)
    requires |rounds| == i + 1
  {
    && Talked(o, task, capsule, rounds) && AllThrough(o, rounds, sent, received, i)
    && |received| >= 2 + 2 * i && ReadyOk(received[0]) && AsksProvider(received[1 + 2 * i], rounds[i].history)
  }

  predicate Greets(task: string, capsule: Json, sent: seq<Json>)
  {
    && |sent| > 0
    && sent[0] == JObject(map["model" := JString("gpt-5.6-terra"), "task" := JString(task), "capsule" := capsule])
    && (|sent| > 1 ==> sent[1] == JObject(map["operation" := JString("continue")]))
  }

  /** The operator's run, frame by frame. */
  ghost predicate Wired(o: Oracles, task: string, capsule: Json, t: Trace)
  {
    && Greets(task, capsule, t.sent)
    && if |t.rounds| == 0 then EndsGreeting(o, task, capsule, t)
       else
         && LeadsTo(o, task, capsule, t.rounds, |t.rounds| - 1, t.sent, t.received)
         && EndsRequest(o, t.rounds, |t.rounds| - 1, t.sent, t.received, t.outcome)
  }

  // ---- the trace is wired ----

  /** What the next request must show. */
  ghost predicate Shows(o: Oracles, task: string, capsule: Json, rounds: seq<Round>, history: seq<Json>)
  {
    if rounds == [] then Opens(o, task, capsule, history)
    else
      var r := rounds[|rounds| - 1];
      r.result.Some? && r.result.value.Ok? && !Final(r.result.value.value) && Appends(o, r, history)
  }

  /** What holds between two turns. */
  ghost predicate Between(o: Oracles, task: string, capsule: Json, n: nat, s: Running)
  {
    && n <= 8 && |s.rounds| == n && |s.sent| == |s.received| == 2 + 2 * n
    && Greets(task, capsule, s.sent) && ReadyOk(s.received[0]) && s.seen == IdsOf(s.rounds)
    && Talked(o, task, capsule, s.rounds) && AllThrough(o, s.rounds, s.sent, s.received, n)
    && Shows(o, task, capsule, s.rounds, s.history)
  }

  lemma TalksOn(o: Oracles, task: string, capsule: Json, rounds: seq<Round>, r: Round)
    requires |rounds| < 8 && Talked(o, task, capsule, rounds) && Shows(o, task, capsule, rounds, r.history)
    ensures Talked(o, task, capsule, rounds + [r])
  {
    var more := rounds + [r];
    forall i | 0 <= i < |more| - 1 ensures GoesOn(o, more, i) {
      if i < |rounds| - 1 {
        assert GoesOn(o, rounds, i);
      }
    }
  }

  lemma StaysThrough(
      o: Oracles, rounds: seq<Round>, sent: seq<Json>, received: seq<Json>, r: Round, sent': seq<Json>, received': seq<Json>)
    requires AllThrough(o, rounds, sent, received, |rounds|) && sent <= sent' && received <= received'
    ensures AllThrough(o, rounds + [r], sent', received', |rounds|)
  {
    forall i | 0 <= i < |rounds| ensures Through(o, rounds + [r], sent', received', i) {
      assert Through(o, rounds, sent, received, i);
      assert (rounds + [r])[..i] == rounds[..i];
    }
  }

  /** A validated call has an identifier, and its response a list of output items. */
  lemma CallHasText(o: Oracles, response: Json, model: string, seen: set<string>)
    ensures var r := CallOf(o, response, model, seen);
      r.Ok? && r.value.Some? ==>
        && response.JObject? && "output" in response.fields && response.fields["output"].JArray?
        && Output(response) == response.fields["output"].items
        && r.value.value.JObject? && "call_id" in r.value.value.fields
        && r.value.value.fields["call_id"] == JString(IdOf(r.value.value))
  {
    CallIsFresh(o, response, model, seen);
  }

  lemma AppendsExtended(o: Oracles, r: Round, model: string, seen: set<string>)
    requires r.response.Some? && r.call.Some? && CallOf(o, r.response.value, model, seen) == Ok(r.call)
    requires r.result.Some? && r.result.value.Ok?
    ensures forall next :: Appends(o, r, next) <==>
      next == Extended(o.encode, r.history, r.response.value, r.call.value, r.result.value.value)
  {
    CallHasText(o, r.response.value, model, seen);
  }

  /** A turn that made its request. */
  lemma RequestLeads(
      o: Oracles, task: string, capsule: Json, n: nat, s: Running, r: Round, sent: seq<Json>, received: seq<Json>)
    requires Between(o, task, capsule, n, s) && n < 8 && r.history == s.history
    requires s.sent <= sent && s.received <= received && AsksProvider(s.received[1 + 2 * n], s.history)
    ensures LeadsTo(o, task, capsule, s.rounds + [r], n, sent, received) && Greets(task, capsule, sent)
    ensures (s.rounds + [r])[..n] == s.rounds
  {
    TalksOn(o, task, capsule, s.rounds, r);
    StaysThrough(o, s.rounds, s.sent, s.received, r, sent, received);
  }

  /** A turn that goes on. */
  lemma GoesBetween(o: Oracles, task: string, capsule: Json, n: nat, s: Running, r: Round, u: Running)
    requires Between(o, task, capsule, n, s) && n < 8 && r.history == s.history && u.rounds == s.rounds + [r]
    requires s.sent <= u.sent && s.received <= u.received && |u.sent| == |u.received| == 4 + 2 * n
    requires Through(o, u.rounds, u.sent, u.received, n) && !Final(u.sent[3 + 2 * n]) && Appends(o, r, u.history)
    requires u.seen == IdsOf(u.rounds)
    ensures Between(o, task, capsule, n + 1, u)
  {
    TalksOn(o, task, capsule, s.rounds, r);
    StaysThrough(o, s.rounds, s.sent, s.received, r, u.sent, u.received);
    forall i | 0 <= i < n + 1 ensures Through(o, u.rounds, u.sent, u.received, i) {
      assert i < n ==> Through(o, s.rounds + [r], u.sent, u.received, i);
    }
  }

  ghost predicate TurnedWired(o: Oracles, task: string, capsule: Json, n: nat, t: Turned)
  {
    match t.end
    case None => Between(o, task, capsule, n + 1, t.running)
    case Some(outcome) => Wired(o, task, capsule, Trace(t.running.rounds, t.running.sent, t.running.received, outcome))
  }

  lemma ThroughEnds(o: Oracles, rounds: seq<Round>, i: nat, sent: seq<Json>, received: seq<Json>, outcome: Outcome)
    requires |rounds| == i + 1 && Through(o, rounds, sent, received, i) && |sent| == |received| == 4 + 2 * i
    requires EndsTold(o, rounds[i], i, sent[3 + 2 * i], received[3 + 2 * i], outcome)
    ensures EndsRequest(o, rounds, i, sent, received, outcome)
  {
  }

  /** The run got through its n-th round, and nothing is open. */
  ghost predicate Done(o: Oracles, task: string, capsule: Json, n: nat, s: Running)
    requires n < |s.rounds|
  {
    && |s.rounds| == n + 1 && |s.sent| == |s.received| == 4 + 2 * n && Greets(task, capsule, s.sent)
    && LeadsTo(o, task, capsule, s.rounds, n, s.sent, s.received) && Through(o, s.rounds, s.sent, s.received, n)
  }

  lemma BetweenIsDone(o: Oracles, task: string, capsule: Json, n: nat, s: Running)
    requires Between(o, task, capsule, n, s) && n > 0
    ensures Done(o, task, capsule, n - 1, s)
  {
    assert Through(o, s.rounds, s.sent, s.received, n - 1);
  }

  /** The run ends on the frame that should have asked for the next request, or finished after eight. */
  lemma EndsDone(o: Oracles, task: string, capsule: Json, n: nat, s: Running, outcome: Outcome)
    requires n < |s.rounds| && Done(o, task, capsule, n, s)
    requires EndsTold(o, s.rounds[n], n, s.sent[3 + 2 * n], s.received[3 + 2 * n], outcome)
    ensures Wired(o, task, capsule, Trace(s.rounds, s.sent, s.received, outcome))
  {
    ThroughEnds(o, s.rounds, n, s.sent, s.received, outcome);
  }

  lemma ShowsOne(o: Oracles, r: Round, history: seq<Json>, answer: Json, i: nat, result: Json)
    requires Appends(o, r, history) && i < 7 && answer != ProviderFrame(history) && !Final(result)
    ensures EndsTold(o, r, i, result, answer, Err(FrameRejected))
  {
  }

  lemma BetweenShows(o: Oracles, task: string, capsule: Json, n: nat, s: Running)
    requires |s.rounds| == n + 1 && Through(o, s.rounds, s.sent, s.received, n) && Shows(o, task, capsule, s.rounds, s.history)
    ensures !Final(s.sent[3 + 2 * n]) && Appends(o, s.rounds[n], s.history)
  {
    ResultShows(o, s.rounds[n], s.history, s.sent[3 + 2 * n]);
  }

  lemma ResultShows(o: Oracles, r: Round, history: seq<Json>, result: Json)
    requires r.result == Some(Ok(result)) && !Final(r.result.value.value) && Appends(o, r, history)
    ensures !Final(result) && Appends(o, r, history)
  {
  }

  /** The peer did not ask for the first request, or for the next one. */
  lemma EndsUngreeted(o: Oracles, task: string, capsule: Json, s: Running)
    requires Between(o, task, capsule, 0, s) && s.received[1] != ProviderFrame(s.history)
    ensures Wired(o, task, capsule, Trace(s.rounds, s.sent, s.received, Err(FrameRejected)))
  {
  }

  lemma EndsUnasked(o: Oracles, task: string, capsule: Json, n: nat, s: Running)
    requires n < 7 && Between(o, task, capsule, n + 1, s) && s.received[3 + 2 * n] != ProviderFrame(s.history)
    ensures Wired(o, task, capsule, Trace(s.rounds, s.sent, s.received, Err(FrameRejected)))
  {
    BetweenIsDone(o, task, capsule, n + 1, s);
    BetweenShows(o, task, capsule, n, s);
    ShowsOne(o, s.rounds[n], s.history, s.received[3 + 2 * n], n, s.sent[3 + 2 * n]);
    EndsDone(o, task, capsule, n, s, Err(FrameRejected));
  }

  lemma EndsLimit(o: Oracles, task: string, capsule: Json, s: Running, outcome: Outcome)
    requires Between(o, task, capsule, 8, s)
    requires outcome == if s.received[17] == FinishFrame("TURN_LIMIT") then Ok(Report("TURN_LIMIT")) else Err(FrameRejected)
    ensures Wired(o, task, capsule, Trace(s.rounds, s.sent, s.received, outcome))
  {
    BetweenIsDone(o, task, capsule, 8, s);
    BetweenShows(o, task, capsule, 7, s);
    LimitTold(o, s.rounds[7], s.sent[17], s.received[17]);
    EndsDone(o, task, capsule, 7, s, outcome);
  }

  lemma LimitTold(o: Oracles, r: Round, result: Json, answer: Json)
    requires !Final(result)
    ensures EndsTold(o, r, 7, result, answer,
      if answer == FinishFrame("TURN_LIMIT") then Ok(Report("TURN_LIMIT")) else Err(FrameRejected))
  {
  }

  /** A turn that ends after its request, whatever else it did. */
  lemma EndsAsked(
      o: Oracles, task: string, capsule: Json, n: nat, s: Running, r: Round, sent: seq<Json>, received: seq<Json>,
      outcome: Outcome)
    requires Between(o, task, capsule, n, s) && n < 8 && r.history == s.history
    requires s.sent <= sent && s.received <= received && AsksProvider(s.received[1 + 2 * n], s.history)
    requires EndsRequest(o, s.rounds + [r], n, sent, received, outcome)
    ensures Wired(o, task, capsule, Trace(s.rounds + [r], sent, received, outcome))
  {
    RequestLeads(o, task, capsule, n, s, r, sent, received);
  }

  lemma ResponseEnds(o: Oracles, b: Bridge, peer: Peer, n: nat, s: Running, response: Json, call: Option<Json>)
    requires |s.rounds| == n && |s.sent| == |s.received| == 2 + 2 * n
    requires CallOf(o, response, MODEL, IdsOf(s.rounds)) == Ok(call)
    requires var t := Sends(peer, s, response); !Heard(t) || call.None? || LastReceived(t) != CallFrame(call.value)
    ensures var t, r := Sends(peer, s, response), Round(s.history, Some(response), None, None);
      var end := TraceCall(b, peer, n, s, t, response, call);
      && end.end.Some? && end.running == Noted(t, r)
      && EndsRequest(o, s.rounds + [r], n, t.sent, t.received, end.end.value)
  {
    var r := Round(s.history, Some(response), None, None);
    assert (s.rounds + [r])[..n] == s.rounds;
  }

  /** The turn once its response is sent: it ends on the answer, unless the call is dispatched. */
  lemma ResponseIsWired(
      o: Oracles, peer: Peer, b: Bridge, task: string, capsule: Json, n: nat, s: Running, response: Json, call: Option<Json>)
    requires Between(o, task, capsule, n, s) && n < 8 && AsksProvider(s.received[1 + 2 * n], s.history)
    requires CallOf(o, response, MODEL, IdsOf(s.rounds)) == Ok(call)
    requires var t := Sends(peer, s, response); !Heard(t) || call.None? || LastReceived(t) != CallFrame(call.value)
    ensures TurnedWired(o, task, capsule, n, TraceCall(b, peer, n, s, Sends(peer, s, response), response, call))
  {
    var t, r := Sends(peer, s, response), Round(s.history, Some(response), None, None);
    ResponseEnds(o, b, peer, n, s, response, call);
    EndsAsked(o, task, capsule, n, s, r, t.sent, t.received, TraceCall(b, peer, n, s, t, response, call).end.value);
  }

  /** What the dispatched half of a turn adds: one round, the response, and the result if there is one. */
  lemma AnswerAdds(
      o: Oracles, peer: Peer, b: Bridge, n: nat, s: Running, t: Running, r: Round, response: Json, call: Json, result: Outcome)
    requires b.encode == o.encode && |s.sent| == |s.received| == 2 + 2 * n
    requires r == Round(s.history, Some(response), Some(call), Some(result))
    requires CallOf(o, response, MODEL, IdsOf(s.rounds)) == Ok(Some(call))
    requires t == Sends(peer, s, response) && Heard(t) && LastReceived(t) == CallFrame(call)
    ensures var u := TraceAnswer(b, peer, Noted(t, r), response, call, result).running;
      u.rounds == s.rounds + [r] && s.sent <= u.sent && s.received <= u.received
    ensures var end := TraceAnswer(b, peer, Noted(t, r), response, call, result);
      end.end.None? ==>
        && |end.running.sent| == |end.running.received| == 4 + 2 * n && end.running.sent[2 + 2 * n] == response
        && end.running.received[2 + 2 * n] == CallFrame(call)
        && result.Ok? && end.running.sent[3 + 2 * n] == result.value && !Final(result.value)
        && Appends(o, r, end.running.history) && end.running.seen == s.seen + {IdOf(call)}
  {
    if result.Ok? {
      AppendsExtended(o, r, MODEL, IdsOf(s.rounds));
    }
  }

  lemma DispatchEnds(
      o: Oracles, task: string, capsule: Json, n: nat, s: Running, r: Round, u: Running, outcome: Outcome)
    requires Between(o, task, capsule, n, s) && n < 8 && AsksProvider(s.received[1 + 2 * n], s.history) && r.history == s.history
    requires u.rounds == s.rounds + [r] && s.sent <= u.sent && s.received <= u.received
    requires EndsRequest(o, s.rounds + [r], n, u.sent, u.received, outcome)
    ensures Wired(o, task, capsule, Trace(u.rounds, u.sent, u.received, outcome))
  {
    EndsAsked(o, task, capsule, n, s, r, u.sent, u.received, outcome);
  }

  lemma DispatchGoesOn(
      o: Oracles, task: string, capsule: Json, n: nat, s: Running, r: Round, u: Running, response: Json, call: Json, result: Json)
    requires Between(o, task, capsule, n, s) && n < 8 && AsksProvider(s.received[1 + 2 * n], s.history)
    requires r == Round(s.history, Some(response), Some(call), Some(Ok(result)))
    requires CallOf(o, response, MODEL, IdsOf(s.rounds)) == Ok(Some(call))
    requires u.rounds == s.rounds + [r] && s.sent <= u.sent && s.received <= u.received
    requires |u.sent| == |u.received| == 4 + 2 * n && u.sent[2 + 2 * n] == response
    requires u.received[2 + 2 * n] == CallFrame(call) && u.sent[3 + 2 * n] == result && !Final(result)
    requires Appends(o, r, u.history) && u.seen == s.seen + {IdOf(call)}
    ensures Between(o, task, capsule, n + 1, u)
  {
    RoundThrough(o, s.rounds, n, s.received, r, u.sent, u.received, response, call, result);
    IdsAdded(s.rounds, r);
    GoesBetween(o, task, capsule, n, s, r, u);
  }

  lemma IdsAdded(rounds: seq<Round>, r: Round)
    ensures IdsOf(rounds + [r]) == IdsOf(rounds) + if r.call.Some? then {IdOf(r.call.value)} else {}
  {
    assert (rounds + [r])[..|rounds|] == rounds;
  }

  lemma RoundThrough(
      o: Oracles, rounds: seq<Round>, n: nat, before: seq<Json>, r: Round, sent: seq<Json>, received: seq<Json>,
      response: Json, call: Json, result: Json)
    requires |rounds| == n && |before| == 2 + 2 * n && before <= received && AsksProvider(before[1 + 2 * n], r.history)
    requires r.response == Some(response) && r.call == Some(call) && r.result == Some(Ok(result))
    requires CallOf(o, response, MODEL, IdsOf(rounds)) == Ok(Some(call))
    requires |sent| == |received| == 4 + 2 * n && sent[2 + 2 * n] == response
    requires received[2 + 2 * n] == CallFrame(call) && sent[3 + 2 * n] == result
    ensures Through(o, rounds + [r], sent, received, n)
  {
    assert (rounds + [r])[..n] == rounds && (rounds + [r])[n] == r;
    assert received[1 + 2 * n] == before[1 + 2 * n];
  }

  lemma CallEnds(
      o: Oracles, peer: Peer, b: Bridge, n: nat, s: Running, r: Round, t: Running, response: Json, call: Json, result: Outcome)
    requires |s.rounds| == n < 8 && |s.sent| == |s.received| == 2 + 2 * n
    requires r == Round(s.history, Some(response), Some(call), Some(result))
    requires CallOf(o, response, MODEL, IdsOf(s.rounds)) == Ok(Some(call))
    requires t == Sends(peer, s, response) && Heard(t) && LastReceived(t) == CallFrame(call)
    ensures var end := TraceAnswer(b, peer, Noted(t, r), response, call, result);
      end.end.Some? ==> EndsRequest(o, s.rounds + [r], n, end.running.sent, end.running.received, end.end.value)
  {
    assert (s.rounds + [r])[..n] == s.rounds;
    var end := TraceAnswer(b, peer, Noted(t, r), response, call, result);
    if end.end.Some? {
      assert EndsCall(o, r, n, end.running.sent, end.running.received, end.end.value);
    }
  }

  lemma TurnIsWired(o: Oracles, peer: Peer, capsuleHash: string, task: string, capsule: Json, n: nat, s: Running)
    requires Between(o, task, capsule, n, s) && n < 8
    ensures TurnedWired(o, task, capsule, n, TraceTurn(BridgeOf(o, MODEL, capsuleHash, capsule), peer, n, s))
  {
    if LastReceived(s) != ProviderFrame(s.history) {
      TurnUnasked(o, task, capsule, n, s);
    } else if o.provider(n, s.history).None? || CallOf(o, o.provider(n, s.history).value, MODEL, s.seen).Err? {
      TurnRefused(o, peer, capsuleHash, task, capsule, n, s);
    } else {
      TurnAsked(o, peer, capsuleHash, task, capsule, n, s);
    }
  }

  lemma TurnUnasked(o: Oracles, task: string, capsule: Json, n: nat, s: Running)
    requires Between(o, task, capsule, n, s) && n < 8 && LastReceived(s) != ProviderFrame(s.history)
    ensures Wired(o, task, capsule, Trace(s.rounds, s.sent, s.received, Err(FrameRejected)))
  {
    if n == 0 {
      EndsUngreeted(o, task, capsule, s);
    } else {
      EndsUnasked(o, task, capsule, n - 1, s);
    }
  }

  lemma IsAsked(n: nat, s: Running)
    requires |s.received| == 2 + 2 * n && LastReceived(s) == ProviderFrame(s.history)
    ensures AsksProvider(s.received[1 + 2 * n], s.history)
  {
  }

  lemma TurnRefused(o: Oracles, peer: Peer, capsuleHash: string, task: string, capsule: Json, n: nat, s: Running)
    requires Between(o, task, capsule, n, s) && n < 8 && LastReceived(s) == ProviderFrame(s.history)
    requires var response := o.provider(n, s.history); response.None? || CallOf(o, response.value, MODEL, s.seen).Err?
    ensures TurnedWired(o, task, capsule, n, TraceTurn(BridgeOf(o, MODEL, capsuleHash, capsule), peer, n, s))
  {
    IsAsked(n, s);
    RequestEnds(o, task, capsule, n, s, o.provider(n, s.history));
    TurnResponds(o, peer, capsuleHash, capsule, n, s);
  }

  lemma TurnAsked(o: Oracles, peer: Peer, capsuleHash: string, task: string, capsule: Json, n: nat, s: Running)
    requires Between(o, task, capsule, n, s) && n < 8 && LastReceived(s) == ProviderFrame(s.history)
    requires var response := o.provider(n, s.history); response.Some? && CallOf(o, response.value, MODEL, s.seen).Ok?
    ensures TurnedWired(o, task, capsule, n, TraceTurn(BridgeOf(o, MODEL, capsuleHash, capsule), peer, n, s))
  {
    var response := o.provider(n, s.history).value;
    IsAsked(n, s);
    AskedIsWired(o, peer, capsuleHash, task, capsule, n, s, response, CallOf(o, response, MODEL, s.seen).value);
    TurnResponds(o, peer, capsuleHash, capsule, n, s);
  }

  lemma TurnResponds(o: Oracles, peer: Peer, capsuleHash: string, capsule: Json, n: nat, s: Running)
    requires LastReceived(s) == ProviderFrame(s.history)
    ensures var b := BridgeOf(o, MODEL, capsuleHash, capsule);
      var response := o.provider(n, s.history);
      TraceTurn(b, peer, n, s) ==
        if response.None? then Turned(Noted(s, Round(s.history, None, None, None)), Some(Err(ProviderFailed)))
        else if CallOf(o, response.value, MODEL, s.seen).Err? then
          Turned(Noted(s, Round(s.history, response, None, None)), Some(Err(OutputRefused)))
        else
          TraceCall(b, peer, n, s, Sends(peer, s, response.value), response.value, CallOf(o, response.value, MODEL, s.seen).value)
  {
  }

  lemma RequestEnds(o: Oracles, task: string, capsule: Json, n: nat, s: Running, response: Option<Json>)
    requires Between(o, task, capsule, n, s) && n < 8 && AsksProvider(s.received[1 + 2 * n], s.history)
    requires response.Some? ==> CallOf(o, response.value, MODEL, s.seen).Err?
    ensures TurnedWired(o, task, capsule, n, Turned(Noted(s, Round(s.history, response, None, None)),
      Some(Err(if response.None? then ProviderFailed else OutputRefused))))
  {
    var r := Round(s.history, response, None, None);
    assert (s.rounds + [r])[..n] == s.rounds;
    EndsAsked(o, task, capsule, n, s, r, s.sent, s.received, Err(if response.None? then ProviderFailed else OutputRefused));
  }

  lemma AskedIsWired(
      o: Oracles, peer: Peer, capsuleHash: string, task: string, capsule: Json, n: nat, s: Running, response: Json,
      call: Option<Json>)
    requires Between(o, task, capsule, n, s) && n < 8 && AsksProvider(s.received[1 + 2 * n], s.history)
    requires CallOf(o, response, MODEL, IdsOf(s.rounds)) == Ok(call)
    ensures TurnedWired(o, task, capsule, n,
      TraceCall(BridgeOf(o, MODEL, capsuleHash, capsule), peer, n, s, Sends(peer, s, response), response, call))
  {
    var t := Sends(peer, s, response);
    if !Heard(t) || call.None? || LastReceived(t) != CallFrame(call.value) {
      ResponseIsWired(o, peer, BridgeOf(o, MODEL, capsuleHash, capsule), task, capsule, n, s, response, call);
    } else {
      var b := BridgeOf(o, MODEL, capsuleHash, capsule);
      var result := b.dispatch(n + 1, call.value);
      var r := Round(s.history, Some(response), call, Some(result));
      var end := TraceAnswer(b, peer, Noted(t, r), response, call.value, result);
      AnswerAdds(o, peer, b, n, s, t, r, response, call.value, result);
      if end.end.Some? {
        CallEnds(o, peer, b, n, s, r, t, response, call.value, result);
        DispatchEnds(o, task, capsule, n, s, r, end.running, end.end.value);
      } else {
        DispatchGoesOn(o, task, capsule, n, s, r, end.running, response, call.value, result.value);
      }
    }
  }

  lemma {:induction false} RunIsWired(
      o: Oracles, peer: Peer, capsuleHash: string, task: string, capsule: Json, n: nat, s: Running)
    requires Between(o, task, capsule, n, s)
    ensures Wired(o, task, capsule, TraceFrom(BridgeOf(o, MODEL, capsuleHash, capsule), peer, n, s))
    decreases 8 - n
  {
    var b := BridgeOf(o, MODEL, capsuleHash, capsule);
    if n < 8 {
      var t := TraceTurn(b, peer, n, s);
      TurnIsWired(o, peer, capsuleHash, task, capsule, n, s);
      TraceStep(b, peer, n, s, t);
      if t.end.None? {
        RunIsWired(o, peer, capsuleHash, task, capsule, n + 1, t.running);
      }
    } else {
      LimitIsWired(o, b, peer, task, capsule, s);
    }
  }

  lemma LimitIsWired(o: Oracles, b: Bridge, peer: Peer, task: string, capsule: Json, s: Running)
    requires Between(o, task, capsule, 8, s)
    ensures Wired(o, task, capsule, TraceFrom(b, peer, 8, s))
  {
    EndsLimit(o, task, capsule, s, Closing(s, "TURN_LIMIT", Ok(Report("TURN_LIMIT"))));
  }

  lemma GreetingIsWired(o: Oracles, b: Bridge, peer: Peer, capsule: Json, task: string)
    requires b.encode == o.encode
    ensures var t := Handshake(b, peer, capsule, task);
      match t.end
      case Some(outcome) => Wired(o, task, capsule, Trace([], t.running.sent, t.running.received, outcome))
      case None => Between(o, task, capsule, 0, t.running)
  {
  }

  /** Against any peer, the operator's run is told frame by frame. */
  lemma ServeIsWired(o: Oracles, peer: Peer, capsuleHash: string, capsule: Json, task: string)
    ensures Wired(o, task, capsule, TraceOf(BridgeOf(o, MODEL, capsuleHash, capsule), peer, capsule, task))
  {
    var b := BridgeOf(o, MODEL, capsuleHash, capsule);
    var t := Handshake(b, peer, capsule, task);
    GreetingIsWired(o, b, peer, capsule, task);
    if t.end.None? {
      RunIsWired(o, peer, capsuleHash, task, capsule, 0, t.running);
    }
  }

  ghost predicate Reportable(result: Json)
  {
    || Tells(result, "state", "STRUCTURALLY_ADMITTED_DRAFT") || Tells(result, "state", "DRAFT_UNAVAILABLE")
    || Tells(result, "state", "NO_DRAFT") || Tells(result, "state", "TURN_LIMIT")
  }

  lemma RequestReports(o: Oracles, rounds: seq<Round>, i: nat, sent: seq<Json>, received: seq<Json>, outcome: Outcome)
    requires |rounds| == i + 1 && EndsRequest(o, rounds, i, sent, received, outcome)
    ensures outcome.Ok? ==> Reportable(outcome.value)
  {
  }

  lemma RequestPends(o: Oracles, rounds: seq<Round>, i: nat, sent: seq<Json>, received: seq<Json>, outcome: Outcome)
    requires |rounds| == i + 1 && EndsRequest(o, rounds, i, sent, received, outcome) && i < 7
    requires rounds[i].result.Some? && rounds[i].result.value.Ok? && !Final(rounds[i].result.value.value)
    ensures outcome == Err(FrameRejected) || outcome == Err(PeerSilent)
  {
  }

  /**
   A reported result is an admitted draft, an unavailable broker, a missing draft or the turn limit. A round whose
   result is neither of the first two is followed by another request, unless it is the eighth or the peer, not asking
   for that request, makes the run fail.
   */
  lemma ResultsEndRuns(o: Oracles, peer: Peer, capsuleHash: string, capsule: Json, task: string, i: nat)
    requires i < |TraceOf(BridgeOf(o, MODEL, capsuleHash, capsule), peer, capsule, task).rounds|
    ensures var t := TraceOf(BridgeOf(o, MODEL, capsuleHash, capsule), peer, capsule, task);
      (t.outcome.Ok? ==> Reportable(t.outcome.value)) && Pends(o, t, i)
  {
    var t := TraceOf(BridgeOf(o, MODEL, capsuleHash, capsule), peer, capsule, task);
    ServeIsWired(o, peer, capsuleHash, capsule, task);
    WiredResults(o, task, capsule, t, i);
  }

  lemma WiredResults(o: Oracles, task: string, capsule: Json, t: Trace, i: nat)
    requires Wired(o, task, capsule, t) && i < |t.rounds|
    ensures t.outcome.Ok? ==> Reportable(t.outcome.value)
    ensures Pends(o, t, i)
  {
    RequestReports(o, t.rounds, |t.rounds| - 1, t.sent, t.received, t.outcome);
    if i + 1 < |t.rounds| {
      assert GoesOn(o, t.rounds, i);
    } else {
      LastPends(o, t, i);
    }
  }

  ghost predicate Pends(o: Oracles, t: Trace, i: nat)
    requires i < |t.rounds|
  {
    t.rounds[i].result.Some? && t.rounds[i].result.value.Ok? ==>
      if Final(t.rounds[i].result.value.value) then i + 1 == |t.rounds|
      else if i + 1 < |t.rounds| then Appends(o, t.rounds[i], t.rounds[i + 1].history)
      else i == 7 || t.outcome == Err(FrameRejected) || t.outcome == Err(PeerSilent)
  }

  lemma LastPends(o: Oracles, t: Trace, i: nat)
    requires |t.rounds| == i + 1 && i < 8 && EndsRequest(o, t.rounds, i, t.sent, t.received, t.outcome)
    ensures Pends(o, t, i)
  {
    if i < 7 && t.rounds[i].result.Some? && t.rounds[i].result.value.Ok? && !Final(t.rounds[i].result.value.value) {
      RequestPends(o, t.rounds, i, t.sent, t.received, t.outcome);
    }
  }

  // ---- the same for the run in one process ----

  /** What the i-th request led to: the provider's response to it, and the dispatch of its single call. */
  ghost predicate Asked(o: Oracles, model: string, capsuleHash: string, capsule: Json, rounds: seq<Round>, i: nat)
    requires i < |rounds|
  {
    var r := rounds[i];
    && r.response == o.provider(i, r.history)
    && match r.response
       case None => Undispatched(r)
       case Some(response) =>
         match CallOf(o, response, model, IdsOf(rounds[..i]))
         case Err(_) => Undispatched(r)
         case Ok(call) =>
           r.call == call && if call.None? then r.result.None?
                             else r.result == Some(Dispatch(o, i + 1, call.value, capsuleHash, capsule))
  }

  /** How the run ends with its last request. */
  ghost predicate EndsAlone(o: Oracles, model: string, rounds: seq<Round>, outcome: Outcome)
    requires rounds != []
  {
    var i := |rounds| - 1;
    match rounds[i].response
    case None => outcome == Err(ProviderFailed)
    case Some(response) =>
      match CallOf(o, response, model, IdsOf(rounds[..i]))
      case Err(_) => outcome == Err(OutputRefused)
      case Ok(None) => outcome.Ok? && OwnReport(outcome.value, "NO_DRAFT")
      case Ok(Some(_)) =>
        match rounds[i].result
        case None => false
        case Some(Err(failure)) => outcome == Err(failure)
        case Some(Ok(result)) =>
          if Final(result) then outcome == Ok(result)
          else |rounds| == 8 && outcome.Ok? && OwnReport(outcome.value, "TURN_LIMIT")
  }

  /** The run in one process, request by request. */
  ghost predicate Alone(
      o: Oracles, model: string, capsuleHash: string, task: string, capsule: Json, rounds: seq<Round>, outcome: Outcome)
  {
    && rounds != [] && Talked(o, task, capsule, rounds)
    && AllAsked(o, model, capsuleHash, capsule, rounds) && EndsAlone(o, model, rounds, outcome)
  }

  ghost predicate AllAsked(o: Oracles, model: string, capsuleHash: string, capsule: Json, rounds: seq<Round>)
  {
    forall i {:trigger Asked(o, model, capsuleHash, capsule, rounds, i)} :: 0 <= i < |rounds| ==>
      Asked(o, model, capsuleHash, capsule, rounds, i)
  }

  lemma AsksOn(o: Oracles, model: string, capsuleHash: string, capsule: Json, rounds: seq<Round>, r: Round)
    requires AllAsked(o, model, capsuleHash, capsule, rounds)
    requires Asked(o, model, capsuleHash, capsule, rounds + [r], |rounds|)
    ensures AllAsked(o, model, capsuleHash, capsule, rounds + [r])
  {
    forall i | 0 <= i < |rounds| + 1 ensures Asked(o, model, capsuleHash, capsule, rounds + [r], i) {
      if i < |rounds| {
        assert Asked(o, model, capsuleHash, capsule, rounds, i);
        assert (rounds + [r])[..i] == rounds[..i];
      }
    }
  }

  /** The round that a turn of the run in one process makes. */
  function RoundOf(
      o: Oracles, model: string, capsuleHash: string, capsule: Json, n: nat, history: seq<Json>, seen: set<string>): Round
  {
    var response := o.provider(n, history);
    var call := if response.None? then Err(ProviderFailed) else CallOf(o, response.value, model, seen);
    if call.Err? || call.value.None? then Round(history, response, None, None)
    else Round(history, response, call.value, Some(Dispatch(o, n + 1, call.value.value, capsuleHash, capsule)))
  }

  lemma RoundIsAsked(
      o: Oracles, model: string, capsuleHash: string, capsule: Json, rounds: seq<Round>, history: seq<Json>, r: Round)
    requires r == RoundOf(o, model, capsuleHash, capsule, |rounds|, history, IdsOf(rounds))
    ensures Asked(o, model, capsuleHash, capsule, rounds + [r], |rounds|)
  {
    assert (rounds + [r])[..|rounds|] == rounds;
  }

  /** One turn of the run, told by its round. */
  function StepOf(o: Oracles, model: string, rounds: seq<Round>, r: Round): Step
  {
    if r.response.None? then Ends(Err(ProviderFailed))
    else
      var call := CallOf(o, r.response.value, model, IdsOf(rounds));
      if call.Err? then Ends(Err(OutputRefused))
      else if call.value.None? || r.result.None? then Ends(Ok(Report("NO_DRAFT")))
      else AfterCall(o.encode, r.history, IdsOf(rounds), r.response.value, call.value.value, r.result.value)
  }

  lemma TurnIsStep(
      o: Oracles, model: string, capsuleHash: string, capsule: Json, rounds: seq<Round>, history: seq<Json>, r: Round)
    requires r == RoundOf(o, model, capsuleHash, capsule, |rounds|, history, IdsOf(rounds))
    ensures ConverseTurn(BridgeOf(o, model, capsuleHash, capsule), |rounds|, history, IdsOf(rounds)) == StepOf(o, model, rounds, r)
  {
  }

  /** The round holds the call of its response, if there is one, with its result. */
  ghost predicate Fits(call: Result<Option<Json>, Failure>, r: Round)
  {
    call.Ok? && call.value.Some? ==> r.call == call.value && r.result.Some?
  }

  lemma RoundFits(
      o: Oracles, model: string, capsuleHash: string, capsule: Json, rounds: seq<Round>, history: seq<Json>, r: Round)
    requires r == RoundOf(o, model, capsuleHash, capsule, |rounds|, history, IdsOf(rounds))
    ensures r.history == history && (r.response.Some? ==> Fits(CallOf(o, r.response.value, model, IdsOf(rounds)), r))
  {
  }

  lemma TurnEndsAlone(o: Oracles, model: string, rounds: seq<Round>, r: Round)
    requires r.response.Some? ==> Fits(CallOf(o, r.response.value, model, IdsOf(rounds)), r)
    ensures StepOf(o, model, rounds, r).Ends? ==> EndsAlone(o, model, rounds + [r], StepOf(o, model, rounds, r).outcome)
  {
    assert (rounds + [r])[..|rounds|] == rounds;
  }

  lemma TurnGoesAlone(o: Oracles, model: string, rounds: seq<Round>, r: Round)
    requires r.response.Some? ==> Fits(CallOf(o, r.response.value, model, IdsOf(rounds)), r)
    ensures var step := StepOf(o, model, rounds, r);
      step.Goes? ==>
        && step.seen == IdsOf(rounds + [r])
        && r.response.Some? && r.call.Some? && CallOf(o, r.response.value, model, IdsOf(rounds)) == Ok(r.call)
        && r.result.Some? && r.result.value.Ok? && !Final(r.result.value.value)
        && step.history == Extended(o.encode, r.history, r.response.value, r.call.value, r.result.value.value)
  {
    IdsAdded(rounds, r);
  }

  lemma LimitIsAlone(o: Oracles, model: string, rounds: seq<Round>, r: Round)
    requires |rounds| == 7
    requires r.response.Some? && r.call.Some? && CallOf(o, r.response.value, model, IdsOf(rounds)) == Ok(r.call)
    requires r.result.Some? && r.result.value.Ok? && !Final(r.result.value.value)
    ensures EndsAlone(o, model, rounds + [r], Ok(Report("TURN_LIMIT")))
  {
    assert (rounds + [r])[..|rounds|] == rounds;
  }

  lemma ShowsOn(o: Oracles, task: string, capsule: Json, model: string, rounds: seq<Round>, r: Round, history: seq<Json>)
    requires r.response.Some? && r.call.Some? && CallOf(o, r.response.value, model, IdsOf(rounds)) == Ok(r.call)
    requires r.result.Some? && r.result.value.Ok? && !Final(r.result.value.value)
    requires history == Extended(o.encode, r.history, r.response.value, r.call.value, r.result.value.value)
    ensures Shows(o, task, capsule, rounds + [r], history)
  {
    AppendsExtended(o, r, model, IdsOf(rounds));
  }

  lemma {:induction false} ConverseIsAlone(
      o: Oracles, model: string, capsuleHash: string, task: string, capsule: Json, history: seq<Json>, rounds: seq<Round>)
    returns (all: seq<Round>)
    requires |rounds| < 8 && Talked(o, task, capsule, rounds) && AllAsked(o, model, capsuleHash, capsule, rounds)
    requires Shows(o, task, capsule, rounds, history)
    ensures Alone(o, model, capsuleHash, task, capsule, all,
      Converse(BridgeOf(o, model, capsuleHash, capsule), |rounds|, history, IdsOf(rounds)))
    decreases 8 - |rounds|
  {
    var b := BridgeOf(o, model, capsuleHash, capsule);
    var r := RoundOf(o, model, capsuleHash, capsule, |rounds|, history, IdsOf(rounds));
    all := rounds + [r];
    RoundIsAsked(o, model, capsuleHash, capsule, rounds, history, r);
    TurnIsStep(o, model, capsuleHash, capsule, rounds, history, r);
    RoundFits(o, model, capsuleHash, capsule, rounds, history, r);
    TurnEndsAlone(o, model, rounds, r);
    TurnGoesAlone(o, model, rounds, r);
    AsksOn(o, model, capsuleHash, capsule, rounds, r);
    TalksOn(o, task, capsule, rounds, r);
    ConverseOn(b, |rounds|, history, IdsOf(rounds));
    match ConverseTurn(b, |rounds|, history, IdsOf(rounds))
    case Ends(_) =>
    case Goes(history', _) =>
      if |rounds| < 7 {
        ShowsOn(o, task, capsule, model, rounds, r, history');
        all := ConverseIsAlone(o, model, capsuleHash, task, capsule, history', all);
      } else {
        LimitIsAlone(o, model, rounds, r);
      }
  }

  lemma ConverseOn(b: Bridge, n: nat, history: seq<Json>, seen: set<string>)
    requires n < TURNS
    ensures match ConverseTurn(b, n, history, seen)
      case Ends(outcome) => Converse(b, n, history, seen) == outcome
      case Goes(history', seen') =>
        Converse(b, n, history, seen) == if n == 7 then Ok(Report("TURN_LIMIT")) else Converse(b, n + 1, history', seen')
  {
  }

  /** The run in one process is such a conversation, from the capsule the broker published. */
  lemma DirectIsAlone(o: Oracles, model: string, capsuleHash: string, task: string) returns (rounds: seq<Round>)
    ensures var capsule := o.broker(0, JObject(map["operation" := JString("public")]));
      if capsule.Some? && PublicCapsule(o, capsule.value, capsuleHash)
      then Alone(o, model, capsuleHash, task, capsule.value, rounds, Direct(o, model, capsuleHash, task))
      else Direct(o, model, capsuleHash, task) == Err(DispatchFailed)
  {
    var capsule := o.broker(0, PublicRequest());
    rounds := [];
    if capsule.Some? && PublicCapsule(o, capsule.value, capsuleHash) {
      rounds := ConverseIsAlone(o, model, capsuleHash, task, capsule.value,
        OpeningHistory(o.encode, task, capsule.value), []);
    }
  }
}
