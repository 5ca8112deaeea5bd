/** What the operator of a draft session does. */
module DraftTrace {
  import opened Common
  import opened DraftBridge
  import opened DraftSession

  /*
   The run of `serve` with everything it does written down: the frames it sends, the answers it hears, its
   requests to the provider and its dispatches. Whatever the peer, nothing else decides the outcome.
   */

  /**
   One request to the provider: the history it was made with, the response, the call that was dispatched, if one
   was, and the result of that dispatch.
   */
  datatype Round = Round(history: seq<Json>, response: Option<Json>, call: Option<Json>, result: Option<Outcome>)

  /** The operator between two turns. A frame it sent and heard no answer to is only in `sent`. */
  datatype Running = Running(
    history: seq<Json>, seen: set<string>, sent: seq<Json>, received: seq<Json>, rounds: seq<Round>)

  datatype Trace = Trace(rounds: seq<Round>, sent: seq<Json>, received: seq<Json>, outcome: Outcome)

  datatype Turned = Turned(running: Running, end: Option<Outcome>)

  function Sends(peer: Peer, s: Running, frame: Json): Running
  {
    var sent := s.sent + [frame];
    var answer := peer(sent);
    s.(sent := sent, received := if answer.Some? then s.received + [answer.value] else s.received)
  }

  predicate Heard(s: Running)
  {
    |s.received| == |s.sent|
  }

  function LastReceived(s: Running): Json
  {
    if s.received == [] then JNull else s.received[|s.received| - 1]
  }

  function Noted(s: Running, r: Round): Running
  {
    s.(rounds := s.rounds + [r])
  }

  function Closing(s: Running, state: string, outcome: Outcome): Outcome
  {
    if LastReceived(s) == FinishFrame(state) then outcome else Err(FrameRejected)
  }

  /** The second half of a turn: the result is sent and, if it is not final, becomes part of the history. */
  function TraceAnswer(b: Bridge, peer: Peer, s: Running, response: Json, call: Json, result: Outcome): Turned
  {
    if result.Err? then Turned(s, Some(result))
    else
      var t := Sends(peer, s, result.value);
      if !Heard(t) then Turned(t, Some(Err(PeerSilent)))
      else if Ending(result.value) then Turned(t, Some(Closing(t, StateText(result.value), result)))
      else
        Turned(t.(history := Extended(b.encode, t.history, response, call, result.value), seen := t.seen + {IdOf(call)}),
          None)
  }

  /** The middle of a turn, once the response is validated and sent. */
  function TraceCall(b: Bridge, peer: Peer, turn: nat, s: Running, t: Running, response: Json, call: Option<Json>): Turned
  {
    var open := Noted(t, Round(s.history, Some(response), None, None));
    if !Heard(t) then Turned(open, Some(Err(PeerSilent)))
    else if call.None? then Turned(open, Some(Closing(t, "NO_DRAFT", Ok(Report("NO_DRAFT")))))
    else if LastReceived(t) != CallFrame(call.value) then Turned(open, Some(Err(FrameRejected)))
    else
      var result := b.dispatch(turn + 1, call.value);
      TraceAnswer(b, peer, Noted(t, Round(s.history, Some(response), call, Some(result))), response, call.value, result)
  }

  function TraceTurn(b: Bridge, peer: Peer, turn: nat, s: Running): Turned
  {
    if LastReceived(s) != ProviderFrame(s.history) then Turned(s, Some(Err(FrameRejected)))
    else
      var response := b.provider(turn, s.history);
      if response.None? then Turned(Noted(s, Round(s.history, None, None, None)), Some(Err(ProviderFailed)))
      else
        var call := b.callOf(response.value, s.seen);
        if call.Err? then Turned(Noted(s, Round(s.history, response, None, None)), Some(Err(OutputRefused)))
        else TraceCall(b, peer, turn, s, Sends(peer, s, response.value), response.value, call.value)
  }

  function TraceFrom(b: Bridge, peer: Peer, turn: nat, s: Running): Trace
    decreases TURNS - turn
  {
    if turn >= TURNS then
      Trace(s.rounds, s.sent, s.received, Closing(s, "TURN_LIMIT", Ok(Report("TURN_LIMIT"))))
    else
      var t := TraceTurn(b, peer, turn, s);
      if t.end.Some? then Trace(t.running.rounds, t.running.sent, t.running.received, t.end.value)
      else TraceFrom(b, peer, turn + 1, t.running)
  }

  /** The operator once the go-ahead was sent. */
  function Ready(b: Bridge, capsule: Json, task: string, sent: seq<Json>, received: seq<Json>): Running
  {
    Running(OpeningHistory(b.encode, task, capsule), {}, sent, received, [])
  }

  /** The opening frames: the session reports its runtime and is told to go ahead. */
  function Handshake(b: Bridge, peer: Peer, capsule: Json, task: string): Turned
  {
    var s := Sends(peer, Ready(b, capsule, task, [], []), InitialFrame(task, capsule));
    if !Heard(s) then Turned(s, Some(Err(PeerSilent)))
    else if !ReadyOk(LastReceived(s)) then Turned(s, Some(Err(FrameRejected)))
    else
      var t := Sends(peer, s, ContinueFrame());
      if !Heard(t) then Turned(t, Some(Err(PeerSilent))) else Turned(t, None)
  }

  /** `serve` with everything it does. */
  function TraceOf(b: Bridge, peer: Peer, capsule: Json, task: string): Trace
  {
    var t := Handshake(b, peer, capsule, task);
    if t.end.Some? then Trace([], t.running.sent, t.running.received, t.end.value) else TraceFrom(b, peer, 0, t.running)
  }

  // ---- the trace is the run ----

  /** The traced turn is the operator's turn. */
  ghost predicate Matches(t: Turned, p: Progress)
  {
    match p
    case Ended(outcome) => t.end == Some(outcome)
    case Continued(history, seen, sent, request) =>
      && t.end == None && t.running.history == history && t.running.seen == seen && t.running.sent == sent
      && t.running.received != [] && Heard(t.running) && LastReceived(t.running) == request
  }

  lemma TurnIsTraced(b: Bridge, peer: Peer, turn: nat, s: Running)
    requires s.received != [] && Heard(s)
    ensures Matches(TraceTurn(b, peer, turn, s), Turn(b, peer, turn, s.history, s.seen, s.sent, LastReceived(s)))
  {
  }

  lemma TraceStep(b: Bridge, peer: Peer, turn: nat, s: Running, t: Turned)
    requires turn < TURNS && t == TraceTurn(b, peer, turn, s)
    ensures TraceFrom(b, peer, turn, s) ==
      if t.end.Some? then Trace(t.running.rounds, t.running.sent, t.running.received, t.end.value)
      else TraceFrom(b, peer, turn + 1, t.running)
  {
  }

  lemma TurnGoesOn(b: Bridge, peer: Peer, turn: nat, s: Running)
    requires s.received != [] && Heard(s) && TraceTurn(b, peer, turn, s).end.None?
    ensures var t := TraceTurn(b, peer, turn, s); t.running.received != [] && Heard(t.running)
  {
    TurnIsTraced(b, peer, turn, s);
  }

  /** Two ways of computing an outcome turn by turn agree on what one turn does. */
  ghost predicate StepsAlike(
      turnOf: (nat, Running) -> Turned, one: (nat, Running) -> Outcome, other: (nat, Running) -> Outcome, n: nat, s: Running)
  {
    if n >= TURNS then one(n, s) == other(n, s)
    else
      var t := turnOf(n, s);
      if t.end.Some? then one(n, s) == other(n, s)
      else
        && t.running.received != [] && Heard(t.running)
        && one(n, s) == one(n + 1, t.running) && other(n, s) == other(n + 1, t.running)
  }

  lemma {:induction false} RunsAlike(
      turnOf: (nat, Running) -> Turned, one: (nat, Running) -> Outcome, other: (nat, Running) -> Outcome, n: nat, s: Running)
    requires s.received != [] && Heard(s)
    requires forall k: nat, r: Running {:trigger StepsAlike(turnOf, one, other, k, r)} ::
      r.received != [] && Heard(r) ==> StepsAlike(turnOf, one, other, k, r)
    ensures one(n, s) == other(n, s)
    decreases TURNS - n
  {
    assert StepsAlike(turnOf, one, other, n, s);
    if n < TURNS && turnOf(n, s).end.None? {
      RunsAlike(turnOf, one, other, n + 1, turnOf(n, s).running);
    }
  }

  lemma StepIsTraced(b: Bridge, peer: Peer, n: nat, s: Running)
    requires s.received != [] && Heard(s) && n < TURNS
    ensures var t := TraceTurn(b, peer, n, s);
      var serve := ServeFrom(b, peer, n, s.history, s.seen, s.sent, LastReceived(s));
      if t.end.Some? then serve == t.end.value
      else serve == ServeFrom(b, peer, n + 1, t.running.history, t.running.seen, t.running.sent, LastReceived(t.running))
  {
    TurnIsTraced(b, peer, n, s);
  }

  lemma RunIsTraced(b: Bridge, peer: Peer, turn: nat, s: Running)
    requires s.received != [] && Heard(s)
    ensures TraceFrom(b, peer, turn, s).outcome == ServeFrom(b, peer, turn, s.history, s.seen, s.sent, LastReceived(s))
  {
    var turnOf := (n: nat, r: Running) => TraceTurn(b, peer, n, r);
    var one := (n: nat, r: Running) => TraceFrom(b, peer, n, r).outcome;
    var other := (n: nat, r: Running) => ServeFrom(b, peer, n, r.history, r.seen, r.sent, LastReceived(r));
    forall n: nat, r: Running | r.received != [] && Heard(r) ensures StepsAlike(turnOf, one, other, n, r) {
      if n < TURNS {
        var t := turnOf(n, r);
        TraceStep(b, peer, n, r, t);
        StepIsTraced(b, peer, n, r);
        if t.end.None? {
          TurnGoesOn(b, peer, n, r);
        }
      }
    }
    RunsAlike(turnOf, one, other, turn, s);
  }

  /** The traced outcome is the operator's outcome. */
  lemma ServeIsTraced(b: Bridge, peer: Peer, capsule: Json, task: string)
    ensures TraceOf(b, peer, capsule, task).outcome == Serve(b, peer, capsule, task)
  {
    var initial := InitialFrame(task, capsule);
    var s := Sends(peer, Ready(b, capsule, task, [], []), initial);
    assert [] + [initial] == [initial] && [initial] + [ContinueFrame()] == [initial, ContinueFrame()];
    if Heard(s) && ReadyOk(LastReceived(s)) {
      var t := Sends(peer, s, ContinueFrame());
      if Heard(t) {
        RunIsTraced(b, peer, 0, t);
      }
    }
  }

  // ---- what a trace shows ----

  /** The history once every call of these rounds was answered. */
  function HistoryOf(encode: Json -> string, opening: seq<Json>, rounds: seq<Round>): seq<Json>
  {
    if rounds == [] then opening
    else
      var r, before := rounds[|rounds| - 1], HistoryOf(encode, opening, rounds[..|rounds| - 1]);
      if r.response.Some? && r.call.Some? && r.result.Some? && r.result.value.Ok?
      then Extended(encode, before, r.response.value, r.call.value, r.result.value.value)
      else before
  }

  /** The identifiers of the calls dispatched in these rounds. */
  function IdsOf(rounds: seq<Round>): set<string>
  {
    if rounds == [] then {}
    else
      var r := rounds[|rounds| - 1];
      IdsOf(rounds[..|rounds| - 1]) + if r.call.Some? then {IdOf(r.call.value)} else {}
  }

  /** The frames a round sends: its response once validated, and the result of its call. */
  function FramesOf(b: Bridge, seen: set<string>, r: Round): seq<Json>
  {
    if r.response.None? || b.callOf(r.response.value, seen).Err? then []
    else
      [r.response.value] + if r.result.Some? && r.result.value.Ok? then [r.result.value.value] else []
  }

  function AllFrames(b: Bridge, rounds: seq<Round>): seq<Json>
  {
    if rounds == [] then []
    else
      var before := rounds[..|rounds| - 1];
      AllFrames(b, before) + FramesOf(b, IdsOf(before), rounds[|rounds| - 1])
  }

  /**
   The n-th request carries exactly the opening and what was exchanged since; its response is the provider's; and
   what is dispatched is the single call of that response, with the broker's answer as its result.
   */
  ghost predicate RoundMade(b: Bridge, n: nat, history: seq<Json>, seen: set<string>, r: Round)
  {
    && r.history == history
    && r.response == b.provider(n, history)
    && (r.call.Some? <==> r.result.Some?)
    && (r.call.Some? ==>
          && r.response.Some? && b.callOf(r.response.value, seen) == Ok(r.call)
          && r.result == Some(b.dispatch(n + 1, r.call.value)))
  }

  ghost predicate RoundMadeAt(b: Bridge, opening: seq<Json>, rounds: seq<Round>, i: nat)
    requires i < |rounds|
  {
    RoundMade(b, i, HistoryOf(b.encode, opening, rounds[..i]), IdsOf(rounds[..i]), rounds[i])
  }

  ghost predicate RoundsMade(b: Bridge, opening: seq<Json>, rounds: seq<Round>)
  {
    forall i {:trigger RoundMadeAt(b, opening, rounds, i)} :: 0 <= i < |rounds| ==> RoundMadeAt(b, opening, rounds, i)
  }

  /** Every answer is the peer's to exactly the frames sent before it; at most the last frame went unanswered. */
  ghost predicate Exchanged(peer: Peer, sent: seq<Json>, received: seq<Json>)
  {
    && |received| <= |sent| <= |received| + 1
    && (forall i :: 0 <= i < |received| ==> peer(sent[..i + 1]) == Some(received[i]))
    && (|received| < |sent| ==> peer(sent) == None)
  }

  /** What a successful run reports, and on what last frame. */
  ghost predicate Reported(b: Bridge, rounds: seq<Round>, sent: seq<Json>, received: seq<Json>, result: Json)
  {
    && |received| == |sent| > 0 && received[|received| - 1] == FinishFrame(StateText(result))
    && |rounds| > 0
    && var last := rounds[|rounds| - 1];
       || (last.result == Some(Ok(result)) && Ending(result))
       || (result == Report("NO_DRAFT") && last.response.Some?
           && b.callOf(last.response.value, IdsOf(rounds[..|rounds| - 1])) == Ok(None))
       || (result == Report("TURN_LIMIT") && |rounds| == TURNS && last.result.Some? && last.result.value.Ok?)
  }

  ghost predicate TraceSound(b: Bridge, peer: Peer, opening: seq<Json>, first: seq<Json>, t: Trace)
  {
    && |t.rounds| <= TURNS
    && RoundsMade(b, opening, t.rounds)
    && Exchanged(peer, t.sent, t.received)
    && t.sent == first + AllFrames(b, t.rounds)
    && (t.outcome.Ok? ==> Reported(b, t.rounds, t.sent, t.received, t.outcome.value))
    && (|t.received| < |t.sent| ==> t.outcome == Err(PeerSilent))
  }

  /** What holds between two turns. */
  ghost predicate RunningSound(b: Bridge, peer: Peer, opening: seq<Json>, first: seq<Json>, turn: nat, s: Running)
  {
    && |s.rounds| == turn && RoundsMade(b, opening, s.rounds)
    && s.history == HistoryOf(b.encode, opening, s.rounds) && s.seen == IdsOf(s.rounds)
    && Heard(s) && s.received != [] && Exchanged(peer, s.sent, s.received)
    && s.sent == first + AllFrames(b, s.rounds)
    && (turn > 0 ==> s.rounds[turn - 1].result.Some? && s.rounds[turn - 1].result.value.Ok?)
  }

  lemma RoundAdded(b: Bridge, opening: seq<Json>, rounds: seq<Round>, r: Round)
    requires RoundsMade(b, opening, rounds)
    requires RoundMade(b, |rounds|, HistoryOf(b.encode, opening, rounds), IdsOf(rounds), r)
    ensures RoundsMade(b, opening, rounds + [r])
  {
    var more := rounds + [r];
    forall i | 0 <= i < |more| ensures RoundMadeAt(b, opening, more, i) {
      if i < |rounds| {
        assert RoundMadeAt(b, opening, rounds, i);
        assert more[..i] == rounds[..i];
      } else {
        assert more[..i] == rounds;
      }
    }
  }

  lemma RoundCounts(b: Bridge, opening: seq<Json>, rounds: seq<Round>, r: Round)
    ensures var more := rounds + [r];
      && IdsOf(more) == IdsOf(rounds) + (if r.call.Some? then {IdOf(r.call.value)} else {})
      && AllFrames(b, more) == AllFrames(b, rounds) + FramesOf(b, IdsOf(rounds), r)
      && (r.response.Some? && r.call.Some? && r.result.Some? && r.result.value.Ok? ==>
            HistoryOf(b.encode, opening, more) ==
              Extended(b.encode, HistoryOf(b.encode, opening, rounds), r.response.value, r.call.value, r.result.value.value))
  {
    assert (rounds + [r])[..|rounds|] == rounds;
  }

  /** Sending a frame keeps the exchange in order, whether or not an answer comes. */
  lemma SendExchanges(peer: Peer, s: Running, frame: Json)
    requires Heard(s) && Exchanged(peer, s.sent, s.received)
    ensures var t := Sends(peer, s, frame);
      && t.sent == s.sent + [frame] && Exchanged(peer, t.sent, t.received)
      && (Heard(t) ==> t.received != [] && peer(t.sent) == Some(LastReceived(t)))
      && (!Heard(t) ==> |t.received| < |t.sent|)
  {
    var t := Sends(peer, s, frame);
    forall i | 0 <= i < |t.received| ensures peer(t.sent[..i + 1]) == Some(t.received[i]) {
      if i < |s.received| {
        assert t.sent[..i + 1] == s.sent[..i + 1];
      } else {
        assert t.sent[..i + 1] == t.sent;
      }
    }
  }

  // ---- every trace is sound ----

  lemma ReportText(state: string)
    ensures StateText(Report(state)) == state
  {
  }

  ghost predicate TurnedSound(b: Bridge, peer: Peer, opening: seq<Json>, first: seq<Json>, turn: nat, t: Turned)
  {
    match t.end
    case None => RunningSound(b, peer, opening, first, turn + 1, t.running)
    case Some(outcome) =>
      TraceSound(b, peer, opening, first, Trace(t.running.rounds, t.running.sent, t.running.received, outcome))
  }

  /** A turn that ends before anything is sent. */
  lemma EndsUnsent(
      b: Bridge, peer: Peer, opening: seq<Json>, first: seq<Json>, turn: nat, s: Running, r: Round, outcome: Outcome)
    requires RunningSound(b, peer, opening, first, turn, s) && turn < TURNS && outcome.Err?
    requires RoundMade(b, turn, s.history, s.seen, r) && FramesOf(b, s.seen, r) == []
    ensures TurnedSound(b, peer, opening, first, turn, Turned(Noted(s, r), Some(outcome)))
  {
    RoundAdded(b, opening, s.rounds, r);
    RoundCounts(b, opening, s.rounds, r);
    assert AllFrames(b, s.rounds) + [] == AllFrames(b, s.rounds);
  }

  /** What a turn has done once its response was sent. */
  ghost predicate Opened(b: Bridge, peer: Peer, turn: nat, s: Running, t: Running, response: Json)
  {
    && b.provider(turn, s.history) == Some(response) && b.callOf(response, s.seen).Ok?
    && t == Sends(peer, s, response)
  }

  /** A turn that ends without a dispatch, once its response was sent. */
  lemma EndsOpen(
      b: Bridge, peer: Peer, opening: seq<Json>, first: seq<Json>, turn: nat, s: Running, t: Running,
      response: Json, outcome: Outcome)
    requires RunningSound(b, peer, opening, first, turn, s) && turn < TURNS && Opened(b, peer, turn, s, t, response)
    requires !Heard(t) ==> outcome == Err(PeerSilent)
    requires outcome.Ok? ==>
      outcome == Ok(Report("NO_DRAFT")) && LastReceived(t) == FinishFrame("NO_DRAFT") && b.callOf(response, s.seen) == Ok(None)
    ensures TurnedSound(b, peer, opening, first, turn,
      Turned(Noted(t, Round(s.history, Some(response), None, None)), Some(outcome)))
  {
    var r := Round(s.history, Some(response), None, None);
    RoundAdded(b, opening, s.rounds, r);
    RoundCounts(b, opening, s.rounds, r);
    SendExchanges(peer, s, response);
    ReportText("NO_DRAFT");
    assert FramesOf(b, s.seen, r) == [response];
    assert (first + AllFrames(b, s.rounds)) + [response] == first + (AllFrames(b, s.rounds) + [response]);
    assert (s.rounds + [r])[..|s.rounds|] == s.rounds;
  }

  /** A turn whose dispatch failed. */
  lemma EndsUndispatched(
      b: Bridge, peer: Peer, opening: seq<Json>, first: seq<Json>, turn: nat, s: Running, t: Running,
      response: Json, call: Json, result: Outcome)
    requires RunningSound(b, peer, opening, first, turn, s) && turn < TURNS && Opened(b, peer, turn, s, t, response)
    requires Heard(t) && b.callOf(response, s.seen) == Ok(Some(call)) && result == b.dispatch(turn + 1, call) && result.Err?
    ensures TurnedSound(b, peer, opening, first, turn,
      Turned(Noted(t, Round(s.history, Some(response), Some(call), Some(result))), Some(result)))
  {
    var r := Round(s.history, Some(response), Some(call), Some(result));
    RoundAdded(b, opening, s.rounds, r);
    RoundCounts(b, opening, s.rounds, r);
    SendExchanges(peer, s, response);
    assert FramesOf(b, s.seen, r) == [response];
    assert (first + AllFrames(b, s.rounds)) + [response] == first + (AllFrames(b, s.rounds) + [response]);
  }

  /** What a turn has done once the result of its call was sent, too. */
  ghost predicate Answered(
      b: Bridge, peer: Peer, turn: nat, s: Running, u: Running, response: Json, call: Json, result: Json)
  {
    var t := Sends(peer, s, response);
    && Opened(b, peer, turn, s, t, response) && Heard(t)
    && b.callOf(response, s.seen) == Ok(Some(call)) && b.dispatch(turn + 1, call) == Ok(result)
    && u == Sends(peer, Noted(t, Round(s.history, Some(response), Some(call), Some(Ok(result)))), result)
  }

  lemma AnsweredSound(
      b: Bridge, peer: Peer, opening: seq<Json>, first: seq<Json>, turn: nat, s: Running, u: Running,
      response: Json, call: Json, result: Json)
    requires RunningSound(b, peer, opening, first, turn, s) && Answered(b, peer, turn, s, u, response, call, result)
    ensures var r := Round(s.history, Some(response), Some(call), Some(Ok(result)));
      && u.rounds == s.rounds + [r] && u.history == s.history && u.seen == s.seen
      && RoundsMade(b, opening, u.rounds) && Exchanged(peer, u.sent, u.received)
      && u.sent == first + AllFrames(b, u.rounds)
      && (Heard(u) ==> u.received != []) && (!Heard(u) ==> |u.received| < |u.sent|)
  {
    var t, r := Sends(peer, s, response), Round(s.history, Some(response), Some(call), Some(Ok(result)));
    RoundAdded(b, opening, s.rounds, r);
    RoundCounts(b, opening, s.rounds, r);
    SendExchanges(peer, s, response);
    SendExchanges(peer, Noted(t, r), result);
    assert FramesOf(b, s.seen, r) == [response] + [result];
    assert ((first + AllFrames(b, s.rounds)) + [response]) + [result] ==
      first + (AllFrames(b, s.rounds) + ([response] + [result]));
  }

  /** A turn that ends once the result was sent. */
  lemma EndsAnswered(
      b: Bridge, peer: Peer, opening: seq<Json>, first: seq<Json>, turn: nat, s: Running, u: Running,
      response: Json, call: Json, result: Json, outcome: Outcome)
    requires RunningSound(b, peer, opening, first, turn, s) && turn < TURNS
    requires Answered(b, peer, turn, s, u, response, call, result)
    requires !Heard(u) ==> outcome == Err(PeerSilent)
    requires outcome.Ok? ==> outcome.value == result && Ending(result) && LastReceived(u) == FinishFrame(StateText(result))
    ensures TurnedSound(b, peer, opening, first, turn, Turned(u, Some(outcome)))
  {
    AnsweredSound(b, peer, opening, first, turn, s, u, response, call, result);
  }

  lemma GoesAnswered(
      b: Bridge, peer: Peer, opening: seq<Json>, first: seq<Json>, turn: nat, s: Running, u: Running,
      response: Json, call: Json, result: Json)
    requires RunningSound(b, peer, opening, first, turn, s) && turn < TURNS && Heard(u)
    requires Answered(b, peer, turn, s, u, response, call, result)
    ensures RunningSound(b, peer, opening, first, turn + 1,
      u.(history := Extended(b.encode, u.history, response, call, result), seen := u.seen + {IdOf(call)}))
  {
    AnsweredSound(b, peer, opening, first, turn, s, u, response, call, result);
    RoundCounts(b, opening, s.rounds, Round(s.history, Some(response), Some(call), Some(Ok(result))));
  }

  lemma AnswerIsSound(
      b: Bridge, peer: Peer, opening: seq<Json>, first: seq<Json>, turn: nat, s: Running, t: Running,
      response: Json, call: Json, result: Outcome)
    requires RunningSound(b, peer, opening, first, turn, s) && turn < TURNS && Opened(b, peer, turn, s, t, response)
    requires Heard(t) && b.callOf(response, s.seen) == Ok(Some(call)) && result == b.dispatch(turn + 1, call)
    ensures TurnedSound(b, peer, opening, first, turn,
      TraceAnswer(b, peer, Noted(t, Round(s.history, Some(response), Some(call), Some(result))), response, call, result))
  {
    if result.Err? {
      EndsUndispatched(b, peer, opening, first, turn, s, t, response, call, result);
    } else {
      var u := Sends(peer, Noted(t, Round(s.history, Some(response), Some(call), Some(result))), result.value);
      if !Heard(u) {
        EndsAnswered(b, peer, opening, first, turn, s, u, response, call, result.value, Err(PeerSilent));
      } else if Ending(result.value) {
        EndsAnswered(b, peer, opening, first, turn, s, u, response, call, result.value,
          Closing(u, StateText(result.value), result));
      } else {
        GoesAnswered(b, peer, opening, first, turn, s, u, response, call, result.value);
      }
    }
  }

  lemma CallIsSound(
      b: Bridge, peer: Peer, opening: seq<Json>, first: seq<Json>, turn: nat, s: Running, t: Running,
      response: Json, call: Option<Json>)
    requires RunningSound(b, peer, opening, first, turn, s) && turn < TURNS && Opened(b, peer, turn, s, t, response)
    requires b.callOf(response, s.seen) == Ok(call)
    ensures TurnedSound(b, peer, opening, first, turn, TraceCall(b, peer, turn, s, t, response, call))
  {
    if !Heard(t) {
      EndsOpen(b, peer, opening, first, turn, s, t, response, Err(PeerSilent));
    } else if call.None? {
      EndsOpen(b, peer, opening, first, turn, s, t, response, Closing(t, "NO_DRAFT", Ok(Report("NO_DRAFT"))));
    } else if LastReceived(t) != CallFrame(call.value) {
      EndsOpen(b, peer, opening, first, turn, s, t, response, Err(FrameRejected));
    } else {
      AnswerIsSound(b, peer, opening, first, turn, s, t, response, call.value, b.dispatch(turn + 1, call.value));
    }
  }

  lemma TurnIsSound(b: Bridge, peer: Peer, opening: seq<Json>, first: seq<Json>, turn: nat, s: Running)
    requires RunningSound(b, peer, opening, first, turn, s) && turn < TURNS
    ensures TurnedSound(b, peer, opening, first, turn, TraceTurn(b, peer, turn, s))
  {
    if LastReceived(s) == ProviderFrame(s.history) {
      var response := b.provider(turn, s.history);
      if response.None? {
        EndsUnsent(b, peer, opening, first, turn, s, Round(s.history, None, None, None), Err(ProviderFailed));
      } else {
        var call := b.callOf(response.value, s.seen);
        if call.Err? {
          EndsUnsent(b, peer, opening, first, turn, s, Round(s.history, response, None, None), Err(OutputRefused));
        } else {
          CallIsSound(b, peer, opening, first, turn, s, Sends(peer, s, response.value), response.value, call.value);
        }
      }
    }
  }

  lemma {:induction false} RunIsSound(b: Bridge, peer: Peer, opening: seq<Json>, first: seq<Json>, turn: nat, s: Running)
    requires RunningSound(b, peer, opening, first, turn, s) && turn <= TURNS
    ensures TraceSound(b, peer, opening, first, TraceFrom(b, peer, turn, s))
    decreases TURNS - turn
  {
    if turn < TURNS {
      var t := TraceTurn(b, peer, turn, s);
      TurnIsSound(b, peer, opening, first, turn, s);
      TraceStep(b, peer, turn, s, t);
      if t.end.None? {
        RunIsSound(b, peer, opening, first, turn + 1, t.running);
      }
    } else {
      LimitIsSound(b, peer, opening, first, s);
    }
  }

  lemma LimitIsSound(b: Bridge, peer: Peer, opening: seq<Json>, first: seq<Json>, s: Running)
    requires RunningSound(b, peer, opening, first, TURNS, s)
    ensures TraceSound(b, peer, opening, first, TraceFrom(b, peer, TURNS, s))
  {
    ReportText("TURN_LIMIT");
  }

  /** The frames sent before the first turn. */
  function FirstFrames(capsule: Json, task: string): seq<Json>
  {
    [InitialFrame(task, capsule), ContinueFrame()]
  }

  /** What `serve` answers for, whatever sits on the other side. */
  ghost predicate Accountable(b: Bridge, peer: Peer, capsule: Json, task: string, t: Trace)
  {
    var first, opening := FirstFrames(capsule, task), OpeningHistory(b.encode, task, capsule);
    if |t.sent| < 2 then
      && t.sent == [InitialFrame(task, capsule)] && t.rounds == [] && t.outcome.Err?
      && Exchanged(peer, t.sent, t.received)
    else TraceSound(b, peer, opening, first, t)
  }

  /**
   Against any peer: at most eight requests to the provider, each with exactly the opening and what was exchanged
   since; every dispatch is the single validated call of the latest response; nothing else is sent; every answer
   is the peer's to the frames sent before it; and a result is reported only on the matching finish frame.
   */
  lemma ServeIsAccountable(b: Bridge, peer: Peer, capsule: Json, task: string)
    ensures Accountable(b, peer, capsule, task, TraceOf(b, peer, capsule, task))
  {
    var first, opening := FirstFrames(capsule, task), OpeningHistory(b.encode, task, capsule);
    var s0 := Ready(b, capsule, task, [], []);
    var s := Sends(peer, s0, first[0]);
    SendExchanges(peer, s0, first[0]);
    assert s.sent == [first[0]];
    if Heard(s) && ReadyOk(LastReceived(s)) {
      var t := Sends(peer, s, ContinueFrame());
      SendExchanges(peer, s, ContinueFrame());
      assert t.sent == first && first + [] == first;
      if Heard(t) {
        assert RunningSound(b, peer, opening, first, 0, t);
        RunIsSound(b, peer, opening, first, 0, t);
        assert |TraceFrom(b, peer, 0, t).sent| >= 2;
      }
    }
  }

  lemma {:induction false} IdsAreCollected(rounds: seq<Round>, i: nat)
    requires i < |rounds| && rounds[i].call.Some?
    ensures IdOf(rounds[i].call.value) in IdsOf(rounds)
  {
    if i < |rounds| - 1 {
      IdsAreCollected(rounds[..|rounds| - 1], i);
    }
  }

  /** No call identifier is dispatched twice, whatever the peer sends. */
  lemma DispatchedOnce(
      o: Oracles, peer: Peer, capsuleHash: string, capsule: Json, task: string, i: nat, j: nat)
    requires var rounds := TraceOf(BridgeOf(o, MODEL, capsuleHash, capsule), peer, capsule, task).rounds;
      i < j < |rounds| && rounds[i].call.Some? && rounds[j].call.Some?
    ensures var rounds := TraceOf(BridgeOf(o, MODEL, capsuleHash, capsule), peer, capsule, task).rounds;
      IdOf(rounds[i].call.value) != IdOf(rounds[j].call.value)
  {
    var b := BridgeOf(o, MODEL, capsuleHash, capsule);
    var t := TraceOf(b, peer, capsule, task);
    ServeIsAccountable(b, peer, capsule, task);
    assert RoundMadeAt(b, OpeningHistory(b.encode, task, capsule), t.rounds, j);
    CallIsFresh(o, t.rounds[j].response.value, MODEL, IdsOf(t.rounds[..j]));
    IdsAreCollected(t.rounds[..j], i);
  }

  // ---- nothing else decides the outcome ----

  /** Two bridges answer alike what one of them was asked in a round. */
  ghost predicate AgreeAt(b: Bridge, b': Bridge, rounds: seq<Round>, i: nat)
    requires i < |rounds|
  {
    var r := rounds[i];
    && b'.provider(i, r.history) == b.provider(i, r.history)
    && (r.response.Some? ==>
          b'.callOf(r.response.value, IdsOf(rounds[..i])) == b.callOf(r.response.value, IdsOf(rounds[..i])))
    && (r.call.Some? ==> b'.dispatch(i + 1, r.call.value) == b.dispatch(i + 1, r.call.value))
  }

  ghost predicate AgreeOn(b: Bridge, b': Bridge, rounds: seq<Round>)
  {
    && b'.encode == b.encode
    && forall i {:trigger AgreeAt(b, b', rounds, i)} :: 0 <= i < |rounds| ==> AgreeAt(b, b', rounds, i)
  }

  /** Two peers answer alike every list of frames that was sent. */
  ghost predicate AnswerAlike(peer: Peer, peer': Peer, sent: seq<Json>)
  {
    forall k {:trigger AnswersAt(peer, peer', sent, k)} :: 0 < k <= |sent| ==> AnswersAt(peer, peer', sent, k)
  }

  ghost predicate AnswersAt(peer: Peer, peer': Peer, sent: seq<Json>, k: nat)
    requires k <= |sent|
  {
    peer'(sent[..k]) == peer(sent[..k])
  }

  lemma AlikeEarlier(peer: Peer, peer': Peer, sent: seq<Json>, more: seq<Json>)
    requires AnswerAlike(peer, peer', more) && sent <= more
    ensures AnswerAlike(peer, peer', sent)
  {
    forall k | 0 < k <= |sent| ensures AnswersAt(peer, peer', sent, k) {
      assert AnswersAt(peer, peer', more, k);
      assert more[..k] == sent[..k];
    }
  }

  lemma AgreeEarlier(b: Bridge, b': Bridge, rounds: seq<Round>, more: seq<Round>)
    requires AgreeOn(b, b', more) && rounds <= more
    ensures AgreeOn(b, b', rounds)
  {
    forall i | 0 <= i < |rounds| ensures AgreeAt(b, b', rounds, i) {
      assert AgreeAt(b, b', more, i);
      assert more[..i] == rounds[..i];
    }
  }

  lemma SendsAlike(peer: Peer, peer': Peer, s: Running, frame: Json)
    requires AnswerAlike(peer, peer', s.sent + [frame])
    ensures Sends(peer', s, frame) == Sends(peer, s, frame)
  {
    var sent := s.sent + [frame];
    assert AnswersAt(peer, peer', sent, |sent|);
    assert sent[..|sent|] == sent;
  }

  lemma AnswerAgrees(b: Bridge, b': Bridge, peer: Peer, peer': Peer, s: Running, response: Json, call: Json, result: Outcome)
    requires b'.encode == b.encode
    requires AnswerAlike(peer, peer', TraceAnswer(b, peer, s, response, call, result).running.sent)
    ensures TraceAnswer(b', peer', s, response, call, result) == TraceAnswer(b, peer, s, response, call, result)
    ensures s.sent <= TraceAnswer(b, peer, s, response, call, result).running.sent
    ensures TraceAnswer(b, peer, s, response, call, result).running.rounds == s.rounds
  {
    if result.Ok? {
      SendsAlike(peer, peer', s, result.value);
    }
  }

  lemma CallAgrees(b: Bridge, b': Bridge, peer: Peer, peer': Peer, turn: nat, s: Running, t: Running, response: Json, call: Option<Json>)
    requires |s.rounds| == turn && t.rounds == s.rounds
    requires AgreeOn(b, b', TraceCall(b, peer, turn, s, t, response, call).running.rounds)
    requires AnswerAlike(peer, peer', TraceCall(b, peer, turn, s, t, response, call).running.sent)
    ensures TraceCall(b', peer', turn, s, t, response, call) == TraceCall(b, peer, turn, s, t, response, call)
    ensures t.sent <= TraceCall(b, peer, turn, s, t, response, call).running.sent
  {
    if Heard(t) && call.Some? && LastReceived(t) == CallFrame(call.value) {
      var result := b.dispatch(turn + 1, call.value);
      var noted := Noted(t, Round(s.history, Some(response), call, Some(result)));
      var rounds := TraceCall(b, peer, turn, s, t, response, call).running.rounds;
      AnswerAgrees(b, b', peer, peer', noted, response, call.value, result);
      assert rounds == noted.rounds && rounds[turn].call == call;
      assert AgreeAt(b, b', rounds, turn);
    }
  }

  /** What a turn adds: frames, and at most one round, made with the history at hand. */
  lemma TurnAdds(b: Bridge, peer: Peer, turn: nat, s: Running)
    ensures var t := TraceTurn(b, peer, turn, s).running;
      && s.sent <= t.sent && s.rounds <= t.rounds
      && (LastReceived(s) == ProviderFrame(s.history) ==>
            |t.rounds| == |s.rounds| + 1 && t.rounds[|s.rounds|].history == s.history &&
            t.rounds[|s.rounds|].response == b.provider(turn, s.history))
  {
  }

  lemma TurnAgrees(b: Bridge, b': Bridge, peer: Peer, peer': Peer, turn: nat, s: Running)
    requires |s.rounds| == turn && s.seen == IdsOf(s.rounds)
    requires AgreeOn(b, b', TraceTurn(b, peer, turn, s).running.rounds)
    requires AnswerAlike(peer, peer', TraceTurn(b, peer, turn, s).running.sent)
    ensures TraceTurn(b', peer', turn, s) == TraceTurn(b, peer, turn, s)
  {
    if LastReceived(s) == ProviderFrame(s.history) {
      var rounds := TraceTurn(b, peer, turn, s).running.rounds;
      TurnAdds(b, peer, turn, s);
      assert AgreeAt(b, b', rounds, turn) && rounds[..turn] == s.rounds;
      var response := b.provider(turn, s.history);
      if response.Some? && b.callOf(response.value, s.seen).Ok? {
        ResponseAgrees(b, b', peer, peer', turn, s, response.value);
      }
    }
  }

  lemma ResponseAgrees(b: Bridge, b': Bridge, peer: Peer, peer': Peer, turn: nat, s: Running, response: Json)
    requires |s.rounds| == turn && b.callOf(response, s.seen).Ok?
    requires var t := TraceCall(b, peer, turn, s, Sends(peer, s, response), response, b.callOf(response, s.seen).value);
      AgreeOn(b, b', t.running.rounds) && AnswerAlike(peer, peer', t.running.sent)
    ensures Sends(peer', s, response) == Sends(peer, s, response)
    ensures var call := b.callOf(response, s.seen).value;
      TraceCall(b', peer', turn, s, Sends(peer, s, response), response, call) ==
      TraceCall(b, peer, turn, s, Sends(peer, s, response), response, call)
  {
    var call, t := b.callOf(response, s.seen).value, Sends(peer, s, response);
    CallAgrees(b, b', peer, peer', turn, s, t, response, call);
    AlikeEarlier(peer, peer', t.sent, TraceCall(b, peer, turn, s, t, response, call).running.sent);
    SendsAlike(peer, peer', s, response);
  }

  ghost predicate Extends(s: Running, t: Trace)
  {
    s.sent <= t.sent && s.rounds <= t.rounds
  }

  ghost predicate StepExtends(turnOf: (nat, Running) -> Turned, traceOf: (nat, Running) -> Trace, n: nat, s: Running)
  {
    if n >= TURNS || turnOf(n, s).end.Some? then Extends(s, traceOf(n, s))
    else
      var t := turnOf(n, s).running;
      s.sent <= t.sent && s.rounds <= t.rounds && traceOf(n, s) == traceOf(n + 1, t)
  }

  lemma {:induction false} RunExtends(turnOf: (nat, Running) -> Turned, traceOf: (nat, Running) -> Trace, n: nat, s: Running)
    requires forall k: nat, r: Running {:trigger StepExtends(turnOf, traceOf, k, r)} :: StepExtends(turnOf, traceOf, k, r)
    ensures Extends(s, traceOf(n, s))
    decreases TURNS - n
  {
    assert StepExtends(turnOf, traceOf, n, s);
    if n < TURNS && turnOf(n, s).end.None? {
      RunExtends(turnOf, traceOf, n + 1, turnOf(n, s).running);
    }
  }

  /** A run never takes back what it sent or noted. */
  lemma TraceExtends(b: Bridge, peer: Peer, turn: nat, s: Running)
    ensures Extends(s, TraceFrom(b, peer, turn, s))
  {
    var turnOf := (n: nat, r: Running) => TraceTurn(b, peer, n, r);
    var traceOf := (n: nat, r: Running) => TraceFrom(b, peer, n, r);
    forall n: nat, r: Running ensures StepExtends(turnOf, traceOf, n, r) {
      if n < TURNS {
        TurnAdds(b, peer, n, r);
        TraceStep(b, peer, n, r, turnOf(n, r));
      }
    }
    RunExtends(turnOf, traceOf, turn, s);
  }

  lemma {:induction false} RunAgrees(
      b: Bridge, b': Bridge, peer: Peer, peer': Peer, opening: seq<Json>, first: seq<Json>, turn: nat, s: Running, whole: Trace)
    requires RunningSound(b, peer, opening, first, turn, s) && turn <= TURNS && whole == TraceFrom(b, peer, turn, s)
    requires AgreeOn(b, b', whole.rounds) && AnswerAlike(peer, peer', whole.sent)
    ensures TraceFrom(b', peer', turn, s) == whole
    decreases TURNS - turn
  {
    if turn < TURNS {
      var t := TraceTurn(b, peer, turn, s);
      TraceStep(b, peer, turn, s, t);
      TurnIsSound(b, peer, opening, first, turn, s);
      if t.end.None? {
        TraceExtends(b, peer, turn + 1, t.running);
      }
      AgreeEarlier(b, b', t.running.rounds, whole.rounds);
      AlikeEarlier(peer, peer', t.running.sent, whole.sent);
      TurnAgrees(b, b', peer, peer', turn, s);
      TraceStep(b', peer', turn, s, t);
      if t.end.None? {
        RunAgrees(b, b', peer, peer', opening, first, turn + 1, t.running, whole);
      }
    }
  }

  /**
   The trace is all the operator does: any other bridge and peer that answer alike at the traced requests, dispatches
   and frames give the same trace, hence the same outcome.
   */
  lemma TraceDecides(b: Bridge, b': Bridge, peer: Peer, peer': Peer, capsule: Json, task: string)
    requires var t := TraceOf(b, peer, capsule, task); AgreeOn(b, b', t.rounds) && AnswerAlike(peer, peer', t.sent)
    ensures TraceOf(b', peer', capsule, task) == TraceOf(b, peer, capsule, task)
  {
    var whole, first, opening := TraceOf(b, peer, capsule, task), FirstFrames(capsule, task), OpeningHistory(b.encode, task, capsule);
    var s0 := Ready(b, capsule, task, [], []);
    var s := Sends(peer, s0, first[0]);
    SendExchanges(peer, s0, first[0]);
    FirstSent(b, peer, capsule, task);
    AlikeEarlier(peer, peer', s.sent, whole.sent);
    SendsAlike(peer, peer', s0, first[0]);
    if Heard(s) && ReadyOk(LastReceived(s)) {
      var t := Sends(peer, s, ContinueFrame());
      SendExchanges(peer, s, ContinueFrame());
      AlikeEarlier(peer, peer', t.sent, whole.sent);
      SendsAlike(peer, peer', s, ContinueFrame());
      if Heard(t) {
        assert t.sent == first && first + [] == first;
        assert RunningSound(b, peer, opening, first, 0, t);
        RunAgrees(b, b', peer, peer', opening, first, 0, t, whole);
      }
    }
  }

  lemma FirstSent(b: Bridge, peer: Peer, capsule: Json, task: string)
    ensures var whole := TraceOf(b, peer, capsule, task);
      var s := Sends(peer, Ready(b, capsule, task, [], []), InitialFrame(task, capsule));
      && s.sent <= whole.sent
      && (Heard(s) && ReadyOk(LastReceived(s)) ==> Sends(peer, s, ContinueFrame()).sent <= whole.sent)
  {
    var s := Sends(peer, Ready(b, capsule, task, [], []), InitialFrame(task, capsule));
    if Heard(s) && ReadyOk(LastReceived(s)) {
      var t := Sends(peer, s, ContinueFrame());
      if Heard(t) {
        TraceExtends(b, peer, 0, t);
      }
    }
  }

  // ---- the same for oracles ----

  /** Other oracles that read text alike and answer alike what was asked of the provider and the broker. */
  ghost predicate OraclesAgreeOn(
      o: Oracles, provider: (nat, seq<Json>) -> Option<Json>, broker: (nat, Json) -> Option<Json>,
      capsuleHash: string, capsule: Json, rounds: seq<Round>)
  {
    forall i {:trigger OraclesAgreeAt(o, provider, broker, capsuleHash, capsule, rounds, i)} ::
      0 <= i < |rounds| ==> OraclesAgreeAt(o, provider, broker, capsuleHash, capsule, rounds, i)
  }

  ghost predicate OraclesAgreeAt(
      o: Oracles, provider: (nat, seq<Json>) -> Option<Json>, broker: (nat, Json) -> Option<Json>,
      capsuleHash: string, capsule: Json, rounds: seq<Round>, i: nat)
    requires i < |rounds|
  {
    var r := rounds[i];
    && provider(i, r.history) == o.provider(i, r.history)
    && (r.call.Some? ==>
          var asked := DispatchRequest(o, r.call.value, capsuleHash, capsule);
          asked.Some? ==> broker(i + 1, asked.value.0) == o.broker(i + 1, asked.value.0))
  }

  lemma CallIgnoresOracles(
      o: Oracles, provider: (nat, seq<Json>) -> Option<Json>, broker: (nat, Json) -> Option<Json>,
      response: Json, model: string, seen: set<string>)
    ensures CallOf(o.(provider := provider, broker := broker), response, model, seen) == CallOf(o, response, model, seen)
  {
    var o' := o.(provider := provider, broker := broker);
    forall item ensures ItemOk(o', item, seen) <==> ItemOk(o, item, seen) {
      ItemIgnoresOracles(o, provider, broker, item, seen);
    }
  }

  lemma ItemIgnoresOracles(
      o: Oracles, provider: (nat, seq<Json>) -> Option<Json>, broker: (nat, Json) -> Option<Json>, item: Json, seen: set<string>)
    ensures ItemOk(o.(provider := provider, broker := broker), item, seen) <==> ItemOk(o, item, seen)
  {
  }

  /**
   The outcome depends on the provider only at the traced histories, and on the broker only at the one request of
   each traced dispatch, in their order.
   */
  lemma OraclesDecide(
      o: Oracles, provider: (nat, seq<Json>) -> Option<Json>, broker: (nat, Json) -> Option<Json>, peer: Peer,
      capsuleHash: string, capsule: Json, task: string)
    requires OraclesAgreeOn(o, provider, broker, capsuleHash, capsule,
      TraceOf(BridgeOf(o, MODEL, capsuleHash, capsule), peer, capsule, task).rounds)
    ensures TraceOf(BridgeOf(o.(provider := provider, broker := broker), MODEL, capsuleHash, capsule), peer, capsule, task) ==
      TraceOf(BridgeOf(o, MODEL, capsuleHash, capsule), peer, capsule, task)
  {
    var o' := o.(provider := provider, broker := broker);
    var b, b' := BridgeOf(o, MODEL, capsuleHash, capsule), BridgeOf(o', MODEL, capsuleHash, capsule);
    var t := TraceOf(b, peer, capsule, task);
    forall i | 0 <= i < |t.rounds| ensures AgreeAt(b, b', t.rounds, i) {
      assert OraclesAgreeAt(o, provider, broker, capsuleHash, capsule, t.rounds, i);
      RoundIgnoresOthers(o, provider, broker, capsuleHash, capsule, t.rounds, i);
    }
    forall k | 0 < k <= |t.sent| ensures AnswersAt(peer, peer, t.sent, k) {
    }
    TraceDecides(b, b', peer, peer, capsule, task);
  }

  lemma RoundIgnoresOthers(
      o: Oracles, provider: (nat, seq<Json>) -> Option<Json>, broker: (nat, Json) -> Option<Json>,
      capsuleHash: string, capsule: Json, rounds: seq<Round>, i: nat)
    requires i < |rounds| && OraclesAgreeAt(o, provider, broker, capsuleHash, capsule, rounds, i)
    ensures AgreeAt(BridgeOf(o, MODEL, capsuleHash, capsule),
      BridgeOf(o.(provider := provider, broker := broker), MODEL, capsuleHash, capsule), rounds, i)
  {
    var r := rounds[i];
    if r.response.Some? {
      CallIgnoresOracles(o, provider, broker, r.response.value, MODEL, IdsOf(rounds[..i]));
    }
    if r.call.Some? {
      DispatchAsksOnce(o, provider, broker, i + 1, r.call.value, capsuleHash, capsule);
    }
  }

  // ---- the operator's loop ----

  /** Send the result of the dispatched call; the operator goes on or ends. */
  method ServeResult(b: Bridge, peer: Peer, s: Running, response: Json, call: Json, result: Outcome) returns (t: Turned)
    requires Heard(s)
    ensures t == TraceAnswer(b, peer, s, response, call, result)
  {
    if result.Err? {
      return Turned(s, Some(result));
    }
    var sent, received := s.sent + [result.value], s.received;
    var next := peer(sent);
    if next.None? {
      return Turned(s.(sent := sent), Some(Err(PeerSilent)));
    }
    received := received + [next.value];
    if Ending(result.value) {
      var outcome := if next.value == FinishFrame(StateText(result.value)) then result else Err(FrameRejected);
      return Turned(s.(sent := sent, received := received), Some(outcome));
    }
    var history := Extended(b.encode, s.history, response, call, result.value);
    t := Turned(Running(history, s.seen + {IdOf(call)}, sent, received, s.rounds), None);
  }

  /** One turn of the loop: the last frame, the provider's response, the peer's call, the dispatch, its result. */
  method ServeTurn(o: Oracles, capsuleHash: string, capsule: Json, peer: Peer, turn: nat, s: Running) returns (t: Turned)
    requires Heard(s)
    ensures t == TraceTurn(BridgeOf(o, MODEL, capsuleHash, capsule), peer, turn, s)
  {
    if LastReceived(s) != ProviderFrame(s.history) {
      return Turned(s, Some(Err(FrameRejected)));
    }
    var response := o.provider(turn, s.history);
    if response.None? {
      return Turned(Noted(s, Round(s.history, None, None, None)), Some(Err(ProviderFailed)));
    }
    var call, seen' := ReadCall(o, response.value, MODEL, s.seen);
    if call.Err? {
      return Turned(Noted(s, Round(s.history, response, None, None)), Some(Err(OutputRefused)));
    }
    t := ServeCall(o, capsuleHash, capsule, peer, turn, s, response.value, call.value,
      BridgeOf(o, MODEL, capsuleHash, capsule));
  }

  /** A turn from the validated response on. */
  method ServeCall(
      o: Oracles, capsuleHash: string, capsule: Json, peer: Peer, turn: nat, s: Running, response: Json,
      call: Option<Json>, ghost b: Bridge)
    returns (t: Turned)
    requires b == BridgeOf(o, MODEL, capsuleHash, capsule) && Heard(s)
    ensures t == TraceCall(b, peer, turn, s, Sends(peer, s, response), response, call)
  {
    var sent, received := s.sent + [response], s.received;
    var asked := peer(sent);
    var open := Noted(s, Round(s.history, Some(response), None, None));
    if asked.None? {
      return Turned(open.(sent := sent), Some(Err(PeerSilent)));
    }
    received := received + [asked.value];
    if call.None? {
      var outcome := if asked.value == FinishFrame("NO_DRAFT") then Ok(Report("NO_DRAFT")) else Err(FrameRejected);
      return Turned(open.(sent := sent, received := received), Some(outcome));
    }
    if asked.value != CallFrame(call.value) {
      return Turned(open.(sent := sent, received := received), Some(Err(FrameRejected)));
    }
    var result := Dispatch(o, turn + 1, call.value, capsuleHash, capsule);
    var dispatched := Noted(s, Round(s.history, Some(response), call, Some(result))).(sent := sent, received := received);
    t := ServeResult(BridgeOf(o, MODEL, capsuleHash, capsule), peer, dispatched, response, call.value, result);
  }

  /** The eight turns. */
  method ServeLoop(o: Oracles, capsuleHash: string, capsule: Json, peer: Peer, start: Running, ghost b: Bridge) returns (t: Trace)
    requires b == BridgeOf(o, MODEL, capsuleHash, capsule) && Heard(start) && start.received != []
    ensures t == TraceFrom(b, peer, 0, start)
  {
    var s := start;
    for turn := 0 to TURNS
      invariant Heard(s) && s.received != [] && TraceFrom(b, peer, 0, start) == TraceFrom(b, peer, turn, s)
    {
      var turned := ServeTurn(o, capsuleHash, capsule, peer, turn, s);
      TraceStep(b, peer, turn, s, turned);
      if turned.end.Some? {
        return Trace(turned.running.rounds, turned.running.sent, turned.running.received, turned.end.value);
      }
      TurnGoesOn(b, peer, turn, s);
      s := turned.running;
    }
    t := Trace(s.rounds, s.sent, s.received, Closing(s, "TURN_LIMIT", Ok(Report("TURN_LIMIT"))));
  }

  /** `serve`: what it does is the trace, and its outcome is the operator's. */
  method ServePeer(o: Oracles, peer: Peer, capsuleHash: string, capsule: Json, task: string) returns (t: Trace)
    ensures var b := BridgeOf(o, MODEL, capsuleHash, capsule);
      t == TraceOf(b, peer, capsule, task) && t.outcome == Serve(b, peer, capsule, task) && Accountable(b, peer, capsule, task, t)
  {
    ghost var b := BridgeOf(o, MODEL, capsuleHash, capsule);
    ServeIsTraced(b, peer, capsule, task);
    ServeIsAccountable(b, peer, capsule, task);
    t := ServeFrames(o, peer, capsuleHash, capsule, task, b);
  }

  method ServeFrames(o: Oracles, peer: Peer, capsuleHash: string, capsule: Json, task: string, ghost b: Bridge) returns (t: Trace)
    requires b == BridgeOf(o, MODEL, capsuleHash, capsule)
    ensures t == TraceOf(b, peer, capsule, task)
  {
    var hello := Greet(o, peer, capsule, task, b);
    if hello.end.Some? {
      return Trace([], hello.running.sent, hello.running.received, hello.end.value);
    }
    t := ServeLoop(o, capsuleHash, capsule, peer, hello.running, b);
  }

  method Greet(o: Oracles, peer: Peer, capsule: Json, task: string, ghost b: Bridge) returns (t: Turned)
    requires b.encode == o.encode
    ensures t == Handshake(b, peer, capsule, task) && (t.end.None? ==> Heard(t.running) && t.running.received != [])
  {
    var s := Running(OpeningHistory(o.encode, task, capsule), {}, [], [], []);
    s := Sends(peer, s, InitialFrame(task, capsule));
    if !Heard(s) {
      return Turned(s, Some(Err(PeerSilent)));
    }
    if !ReadyOk(LastReceived(s)) {
      return Turned(s, Some(Err(FrameRejected)));
    }
    s := Sends(peer, s, ContinueFrame());
    if !Heard(s) {
      return Turned(s, Some(Err(PeerSilent)));
    }
    t := Turned(s, None);
  }
}
