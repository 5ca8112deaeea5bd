/** Every answer follows from the answers given before. */
module QualificationHistory {
  import opened Common
  import opened QualificationBlobs
  import opened QualificationLedger

  /*
   The log of calls and their replies, from the empty database on. What a call is answered is said in terms of that
   log alone: which earlier calls were accepted, with which arguments.
   */

  datatype Exchange = Exchange(call: Call, reply: Reply)

  function LedgerAfter(sha256: Bytes -> Hash, calls: seq<Call>): Ledger
  {
    if calls == [] then map[] else Step(sha256, LedgerAfter(sha256, calls[..|calls| - 1]), calls[|calls| - 1]).0
  }

  function ReplyTo(sha256: Bytes -> Hash, calls: seq<Call>, call: Call): Reply
  {
    Step(sha256, LedgerAfter(sha256, calls), call).1
  }

  function Log(sha256: Bytes -> Hash, calls: seq<Call>): seq<Exchange>
  {
    if calls == [] then []
    else
      var before, call := calls[..|calls| - 1], calls[|calls| - 1];
      Log(sha256, before) + [Exchange(call, ReplyTo(sha256, before, call))]
  }

  // ---- what a log records ----

  predicate WasAdmitted(log: seq<Exchange>, key: Key, document: Bytes, id: nat, at: Time)
  {
    Exchange(AdmitCall(key, document, id, at), Disposed(id, AdmittedNow)) in log
  }

  predicate WasStarted(log: seq<Exchange>, key: Key, at: Time)
  {
    Exchange(StartCall(key, at), Done) in log
  }

  predicate WasCommitted(log: seq<Exchange>, key: Key, raw: Hash, at: Time)
  {
    Exchange(RawCall(key, raw, at), Done) in log
  }

  predicate WasCleaned(log: seq<Exchange>, key: Key, cleanup: Hash, at: Time)
  {
    Exchange(CleanupCall(key, cleanup, at), Done) in log
  }

  predicate WasRetained(log: seq<Exchange>, key: Key, run: PrivateRun)
  {
    Exchange(RetainCall(key, run), Receipt(run.rawRun, run.manifestHash, run.prefix)) in log
  }

  ghost predicate WasEnded(log: seq<Exchange>, key: Key, result: TerminalResult)
  {
    exists at, signedAt {:trigger TerminalCall(key, result, at, signedAt)} ::
      Exchange(TerminalCall(key, result, at, signedAt), Document(Some(result.document))) in log
  }

  predicate WasEndedAt(log: seq<Exchange>, key: Key, result: TerminalResult, at: Time, signedAt: Time)
  {
    Exchange(TerminalCall(key, result, at, signedAt), Document(Some(result.document))) in log
  }

  // ---- the ledger holds what the log records, and nothing else ----

  /** The record's life was reached by accepted calls with its own values. */
  ghost predicate Told(log: seq<Exchange>, r: Record)
  {
    && WasAdmitted(log, r.key, r.document, r.id, r.times[0])
    && (EventCount(r.life) >= 2 ==> WasStarted(log, r.key, r.times[1]))
    && (EventCount(r.life) >= 3 ==> WasCommitted(log, r.key, r.life.raw, r.times[2]))
    && (EventCount(r.life) >= 4 ==> WasCleaned(log, r.key, r.life.cleanup, r.times[3]))
    && (Retained(r.life).Some? ==> WasRetained(log, r.key, Retained(r.life).value))
    && (r.life.Terminal? ==> WasEndedAt(log, r.key, r.life.result, r.times[4], r.times[5]))
  }

  ghost predicate AllTold(ledger: Ledger, log: seq<Exchange>)
  {
    forall h {:trigger Told(log, ledger[h])} :: h in ledger ==> ledger[h].key.profileHash == h && Told(log, ledger[h])
  }

  /** An accepted call left its values in the ledger. */
  ghost predicate Recorded(ledger: Ledger, x: Exchange)
  {
    match x.call
    case AdmitCall(key, document, id, at) =>
      x.reply == Disposed(id, AdmittedNow) ==>
        Holds(ledger, key) && var r := ledger[key.profileHash]; r.document == document && r.id == id && r.times[0] == at
    case StartCall(key, at) =>
      x.reply.Done? ==> Holds(ledger, key) && var r := ledger[key.profileHash]; EventCount(r.life) >= 2 && r.times[1] == at
    case RawCall(key, raw, at) =>
      x.reply.Done? ==> Holds(ledger, key) && var r := ledger[key.profileHash];
        EventCount(r.life) >= 3 && r.life.raw == raw && r.times[2] == at
    case CleanupCall(key, cleanup, at) =>
      x.reply.Done? ==> Holds(ledger, key) && var r := ledger[key.profileHash];
        EventCount(r.life) >= 4 && r.life.cleanup == cleanup && r.times[3] == at
    case RetainCall(key, run) =>
      x.reply.Receipt? ==> Holds(ledger, key) && Retained(ledger[key.profileHash].life) == Some(run)
    case TerminalCall(key, result, _, _) =>
      x.reply.Document? ==> Ended(ledger, key, result)
    case _ => true
  }

  ghost predicate AllRecorded(ledger: Ledger, log: seq<Exchange>)
  {
    forall x {:trigger Recorded(ledger, x)} :: x in log ==> Recorded(ledger, x)
  }

  lemma StaysRecorded(a: Ledger, b: Ledger, x: Exchange)
    requires Recorded(a, x) && LedgerEvolves(a, b)
    ensures Recorded(b, x)
  {
    match x.call
    case AdmitCall(key, _, _, _) => if Holds(a, key) { TimesKept(a[key.profileHash], b[key.profileHash]); }
    case StartCall(key, _) => if Holds(a, key) { TimesKept(a[key.profileHash], b[key.profileHash]); }
    case RawCall(key, _, _) => if Holds(a, key) { TimesKept(a[key.profileHash], b[key.profileHash]); }
    case CleanupCall(key, _, _) => if Holds(a, key) { TimesKept(a[key.profileHash], b[key.profileHash]); }
    case _ =>
  }

  lemma TimesKept(a: Record, b: Record)
    requires Evolves(a, b)
    ensures |a.times| <= |b.times| && forall i :: 0 <= i < |a.times| ==> b.times[i] == a.times[i]
  {
  }

  lemma StepIsRecorded(sha256: Bytes -> Hash, ledger: Ledger, call: Call)
    requires Good(ledger)
    ensures Recorded(Step(sha256, ledger, call).0, Exchange(call, Step(sha256, ledger, call).1))
  {
    match call
    case RetainCall(key, run) => RetainIsRecorded(sha256, ledger, key, run);
    case TerminalCall(key, result, at, signedAt) => TerminalIsRecorded(ledger, key, result, at, signedAt);
    case _ =>
  }

  lemma RetainIsRecorded(sha256: Bytes -> Hash, ledger: Ledger, key: Key, run: PrivateRun)
    requires Good(ledger)
    ensures var (next, reply) := Retain(sha256, ledger, key, run); Recorded(next, Exchange(RetainCall(key, run), reply))
  {
  }

  lemma TerminalIsRecorded(ledger: Ledger, key: Key, result: TerminalResult, at: Time, signedAt: Time)
    requires Good(ledger)
    ensures var (next, reply) := CommitTerminal(ledger, key, result, at, signedAt);
      Recorded(next, Exchange(TerminalCall(key, result, at, signedAt), reply))
  {
  }

  /** A record that a step left behind was reached by accepted calls, the last of them perhaps this one. */
  lemma StepIsTold(sha256: Bytes -> Hash, ledger: Ledger, log: seq<Exchange>, call: Call, h: Hash)
    requires Good(ledger) && AllTold(ledger, log) && h in Step(sha256, ledger, call).0
    ensures var (next, reply) := Step(sha256, ledger, call);
      next[h].key.profileHash == h && Told(log + [Exchange(call, reply)], next[h])
  {
    var (next, reply) := Step(sha256, ledger, call);
    if h in ledger {
      assert Told(log, ledger[h]);
      StaysTold(log, Exchange(call, reply), ledger[h]);
    }
    if h !in ledger || next[h] != ledger[h] {
      WriteIsTold(sha256, ledger, log, call, h);
    }
  }

  lemma WriteIsTold(sha256: Bytes -> Hash, ledger: Ledger, log: seq<Exchange>, call: Call, h: Hash)
    requires h in Step(sha256, ledger, call).0 && (h in ledger ==> Step(sha256, ledger, call).0[h] != ledger[h])
    requires h in ledger ==>
      ledger[h].key.profileHash == h && Told(log + [Exchange(call, Step(sha256, ledger, call).1)], ledger[h])
    ensures var (next, reply) := Step(sha256, ledger, call);
      next[h].key.profileHash == h && Told(log + [Exchange(call, reply)], next[h])
  {
    match call
    case RetainCall(key, run) => RetainWrites(sha256, ledger, log, key, run, h);
    case TerminalCall(key, result, at, signedAt) => TerminalWrites(ledger, log, key, result, at, signedAt, h);
    case _ =>
  }

  lemma RetainWrites(sha256: Bytes -> Hash, ledger: Ledger, log: seq<Exchange>, key: Key, run: PrivateRun, h: Hash)
    requires var (next, reply) := Retain(sha256, ledger, key, run);
      && h in next && h in ledger && next[h] != ledger[h]
      && ledger[h].key.profileHash == h && Told(log + [Exchange(RetainCall(key, run), reply)], ledger[h])
    ensures var (next, reply) := Retain(sha256, ledger, key, run);
      next[h].key.profileHash == h && Told(log + [Exchange(RetainCall(key, run), reply)], next[h])
  {
  }

  lemma TerminalWrites(
      ledger: Ledger, log: seq<Exchange>, key: Key, result: TerminalResult, at: Time, signedAt: Time, h: Hash)
    requires var (next, reply) := CommitTerminal(ledger, key, result, at, signedAt);
      && h in next && h in ledger && next[h] != ledger[h]
      && ledger[h].key.profileHash == h && Told(log + [Exchange(TerminalCall(key, result, at, signedAt), reply)], ledger[h])
    ensures var (next, reply) := CommitTerminal(ledger, key, result, at, signedAt);
      next[h].key.profileHash == h && Told(log + [Exchange(TerminalCall(key, result, at, signedAt), reply)], next[h])
  {
  }

  lemma StaysTold(log: seq<Exchange>, x: Exchange, r: Record)
    requires Told(log, r)
    ensures Told(log + [x], r)
  {
  }

  lemma {:induction false} HistoryIsTold(sha256: Bytes -> Hash, calls: seq<Call>)
    ensures var ledger, log := LedgerAfter(sha256, calls), Log(sha256, calls);
      Good(ledger) && AllTold(ledger, log) && AllRecorded(ledger, log)
    decreases |calls|
  {
    if calls != [] {
      var before, call := calls[..|calls| - 1], calls[|calls| - 1];
      var ledger, log := LedgerAfter(sha256, before), Log(sha256, before);
      HistoryIsTold(sha256, before);
      StepEvolves(sha256, ledger, call);
      StepIsRecorded(sha256, ledger, call);
      var next := Step(sha256, ledger, call).0;
      forall h | h in next ensures next[h].key.profileHash == h && Told(Log(sha256, calls), next[h]) {
        StepIsTold(sha256, ledger, log, call, h);
      }
      forall x | x in Log(sha256, calls) ensures Recorded(next, x) {
        if x in log {
          StaysRecorded(ledger, next, x);
        }
      }
    }
  }

  /** It is the ledger that the calls lead to from the empty one. */
  lemma {:induction false} LedgerIsAfter(sha256: Bytes -> Hash, ledger: Ledger, calls: seq<Call>, call: Call)
    ensures After(sha256, ledger, calls + [call]) == Step(sha256, After(sha256, ledger, calls), call).0
    decreases |calls|
  {
    if calls == [] {
      assert [call][1..] == [];
    } else {
      assert (calls + [call])[1..] == calls[1..] + [call];
      LedgerIsAfter(sha256, Step(sha256, ledger, calls[0]).0, calls[1..], call);
    }
  }

  lemma {:induction false} LogLedgerIsAfter(sha256: Bytes -> Hash, calls: seq<Call>)
    ensures LedgerAfter(sha256, calls) == After(sha256, map[], calls)
    decreases |calls|
  {
    if calls != [] {
      LogLedgerIsAfter(sha256, calls[..|calls| - 1]);
      LedgerIsAfter(sha256, map[], calls[..|calls| - 1], calls[|calls| - 1]);
      assert calls[..|calls| - 1] + [calls[|calls| - 1]] == calls;
    }
  }

  // ---- the answers ----

  ghost predicate KnownHash(log: seq<Exchange>, h: Hash)
  {
    exists key, document, id, at {:trigger WasAdmitted(log, key, document, id, at)} ::
      WasAdmitted(log, key, document, id, at) && key.profileHash == h
  }

  /**
   An admission is answered ADMITTED exactly if its hash is new. Otherwise it must repeat the admitted key and bytes,
   and is answered with that run: its terminal document once it has one, ACTIVE before.
   */
  ghost predicate AdmitFollows(log: seq<Exchange>, key: Key, document: Bytes, newId: nat, reply: Reply)
  {
    if document == [] || !ValidKey(key) then reply == Refused(InvalidArgument)
    else if !KnownHash(log, key.profileHash) then reply == Disposed(newId, AdmittedNow)
    else
      && (forall key', document', id, at {:trigger WasAdmitted(log, key', document', id, at)} ::
            WasAdmitted(log, key', document', id, at) && key'.profileHash == key.profileHash ==>
              if key' != key || document' != document then reply == Refused(Different)
              else reply.Disposed? && reply.id == id && reply.disposition != AdmittedNow)
      && (reply.Disposed? ==>
            if reply.disposition.AlreadyTerminal?
            then exists result {:trigger WasEnded(log, key, result)} ::
                   WasEnded(log, key, result) && reply.disposition.document == result.document
            else reply.disposition == Active && forall result :: !WasEnded(log, key, result))
  }

  /** A run starts exactly if it was admitted and has not started. */
  ghost predicate StartFollows(log: seq<Exchange>, key: Key, reply: Reply)
  {
    reply == if (exists document, id, at :: WasAdmitted(log, key, document, id, at)) && !exists at :: WasStarted(log, key, at)
             then Done else Refused(WrongStage)
  }

  /** A raw output is committed exactly if the run has started and none was. */
  ghost predicate RawFollows(log: seq<Exchange>, key: Key, raw: Hash, reply: Reply)
  {
    reply == if !IsDigest(raw) then Refused(InvalidArgument)
             else if (exists at :: WasStarted(log, key, at)) && !exists other, at :: WasCommitted(log, key, other, at)
             then Done else Refused(WrongStage)
  }

  /** A cleanup is committed exactly if a raw output was and no cleanup was. */
  ghost predicate CleanupFollows(log: seq<Exchange>, key: Key, cleanup: Hash, reply: Reply)
  {
    reply == if !IsDigest(cleanup) then Refused(InvalidArgument)
             else if (exists raw, at :: WasCommitted(log, key, raw, at)) && !exists other, at :: WasCleaned(log, key, other, at)
             then Done else Refused(WrongStage)
  }

  ghost predicate IsClean(log: seq<Exchange>, key: Key)
  {
    exists cleanup, at :: WasCleaned(log, key, cleanup, at)
  }

  /** The prefix of a cleaned run: the four accepted calls, each with its actor, commitment and time. */
  ghost predicate PrefixFollows(log: seq<Exchange>, key: Key, reply: Reply)
  {
    if !ValidKey(key) then reply == Refused(InvalidArgument)
    else if !IsClean(log, key) then reply == Refused(WrongStage)
    else
      exists document, id, admitted, started, raw, committed, cleanup, cleaned
        {:trigger WasAdmitted(log, key, document, id, admitted), WasStarted(log, key, started),
          WasCommitted(log, key, raw, committed), WasCleaned(log, key, cleanup, cleaned)} ::
        && WasAdmitted(log, key, document, id, admitted) && WasStarted(log, key, started)
        && WasCommitted(log, key, raw, committed) && WasCleaned(log, key, cleanup, cleaned)
        && reply == Rows(id, [
             Event(Admission, Broker, key.profileHash, admitted),
             Event(Start, Runner, key.profileHash, started),
             Event(RawOutputCommitment, Runner, raw, committed),
             Event(Cleanup, Runner, cleanup, cleaned)])
  }

  /** Five digests, one of them that of the manifest, which is not empty, and an admissible list of blobs. */
  ghost predicate WellFormed(sha256: Bytes -> Hash, run: PrivateRun)
  {
    && (forall hash :: hash in [run.rawOutput, run.cleanup, run.prefix, run.rawRun, run.manifestHash] ==> IsDigest(hash))
    && run.manifest != [] && sha256(run.manifest) == run.manifestHash && Admissible(sha256, run.prefix, run.blobs)
  }

  /** Another run, whatever its key, was retained under one of the two unique hashes. */
  ghost predicate RunHashTaken(log: seq<Exchange>, run: PrivateRun)
  {
    exists key, other {:trigger WasRetained(log, key, other)} ::
      WasRetained(log, key, other) && (other.rawRun == run.rawRun || other.manifestHash == run.manifestHash)
  }

  /** A private run is retained once, with the committed hashes; only the same run is answered again. */
  ghost predicate RetainFollows(sha256: Bytes -> Hash, log: seq<Exchange>, key: Key, run: PrivateRun, reply: Reply)
  {
    if !ValidKey(key) || !WellFormed(sha256, run) then reply == Refused(InvalidArgument)
    else if !IsClean(log, key) then reply == Refused(WrongStage)
    else
      && (forall raw, at :: WasCommitted(log, key, raw, at) && raw != run.rawOutput ==> reply == Refused(WrongCommitments))
      && (forall cleanup, at :: WasCleaned(log, key, cleanup, at) && cleanup != run.cleanup ==> reply == Refused(WrongCommitments))
      && (reply != Refused(WrongCommitments) ==>
            if exists other :: WasRetained(log, key, other) then
              reply == if WasRetained(log, key, run) then Receipt(run.rawRun, run.manifestHash, run.prefix) else Refused(Different)
            else
              reply == if RunHashTaken(log, run) then Refused(UniqueViolation)
                       else Receipt(run.rawRun, run.manifestHash, run.prefix))
      && (reply == Refused(WrongCommitments) ==>
            || (exists raw, at :: WasCommitted(log, key, raw, at) && raw != run.rawOutput)
            || exists cleanup, at :: WasCleaned(log, key, cleanup, at) && cleanup != run.cleanup)
  }

  ghost predicate ResultHashTaken(log: seq<Exchange>, result: TerminalResult)
  {
    exists key, other {:trigger WasEnded(log, key, other)} ::
      WasEnded(log, key, other) && (other.resultHash == result.resultHash || other.signedHash == result.signedHash)
  }

  /** A result is committed once, after a retained private run; only the same result is answered again. */
  ghost predicate TerminalFollows(log: seq<Exchange>, key: Key, result: TerminalResult, reply: Reply)
  {
    reply ==
      if result.document == [] || !IsDigest(result.resultHash) || !IsDigest(result.signedHash) then Refused(InvalidArgument)
      else if !IsClean(log, key) then Refused(WrongStage)
      else if !exists run :: WasRetained(log, key, run) then Refused(LacksPrivateRun)
      else if exists other :: WasEnded(log, key, other) then
        if WasEnded(log, key, result) then Document(Some(result.document)) else Refused(Different)
      else if ResultHashTaken(log, result) then Refused(UniqueViolation)
      else Document(Some(result.document))
  }

  /** A read returns the committed document, and nothing before. */
  ghost predicate ReadFollows(log: seq<Exchange>, key: Key, reply: Reply)
  {
    && (forall result {:trigger WasEnded(log, key, result)} :: WasEnded(log, key, result) ==> reply == Document(Some(result.document)))
    && ((forall result :: !WasEnded(log, key, result)) ==> reply == Document(None))
  }

  ghost predicate Follows(sha256: Bytes -> Hash, log: seq<Exchange>, call: Call, reply: Reply)
  {
    match call
    case AdmitCall(key, document, newId, _) => AdmitFollows(log, key, document, newId, reply)
    case StartCall(key, _) => StartFollows(log, key, reply)
    case RawCall(key, commitment, _) => RawFollows(log, key, commitment, reply)
    case CleanupCall(key, commitment, _) => CleanupFollows(log, key, commitment, reply)
    case PrefixCall(key) => PrefixFollows(log, key, reply)
    case RetainCall(key, run) => RetainFollows(sha256, log, key, run, reply)
    case TerminalCall(key, result, _, _) => TerminalFollows(log, key, result, reply)
    case ReadCall(key) => ReadFollows(log, key, reply)
  }

  // ---- what the ledger's own record says of the log ----

  /** The log and the ledger tell the same of one key. */
  ghost predicate Agree(ledger: Ledger, log: seq<Exchange>)
  {
    Good(ledger) && AllTold(ledger, log) && AllRecorded(ledger, log)
  }

  lemma AdmittedIs(ledger: Ledger, log: seq<Exchange>, key: Key, document: Bytes, id: nat, at: Time)
    requires Agree(ledger, log) && WasAdmitted(log, key, document, id, at)
    ensures Holds(ledger, key) && ledger[key.profileHash].document == document && ledger[key.profileHash].id == id
    ensures ledger[key.profileHash].times[0] == at
  {
    assert Recorded(ledger, Exchange(AdmitCall(key, document, id, at), Disposed(id, AdmittedNow)));
  }

  lemma HeldIsAdmitted(ledger: Ledger, log: seq<Exchange>, h: Hash)
    requires Agree(ledger, log) && h in ledger
    ensures var r := ledger[h];
      && r.key.profileHash == h && WasAdmitted(log, r.key, r.document, r.id, r.times[0]) && Told(log, r)
      && (r.life.Terminal? ==> WasEnded(log, r.key, r.life.result))
  {
    var r := ledger[h];
    assert Told(log, ledger[h]);
    if r.life.Terminal? {
      assert WasEndedAt(log, r.key, r.life.result, r.times[4], r.times[5]);
    }
  }

  lemma StartedIs(ledger: Ledger, log: seq<Exchange>, key: Key, at: Time)
    requires Agree(ledger, log) && WasStarted(log, key, at)
    ensures Holds(ledger, key) && EventCount(ledger[key.profileHash].life) >= 2 && ledger[key.profileHash].times[1] == at
  {
    assert Recorded(ledger, Exchange(StartCall(key, at), Done));
  }

  lemma CommittedIs(ledger: Ledger, log: seq<Exchange>, key: Key, raw: Hash, at: Time)
    requires Agree(ledger, log) && WasCommitted(log, key, raw, at)
    ensures Holds(ledger, key) && EventCount(ledger[key.profileHash].life) >= 3
    ensures ledger[key.profileHash].life.raw == raw && ledger[key.profileHash].times[2] == at
  {
    assert Recorded(ledger, Exchange(RawCall(key, raw, at), Done));
  }

  lemma CleanedIs(ledger: Ledger, log: seq<Exchange>, key: Key, cleanup: Hash, at: Time)
    requires Agree(ledger, log) && WasCleaned(log, key, cleanup, at)
    ensures Holds(ledger, key) && EventCount(ledger[key.profileHash].life) >= 4
    ensures ledger[key.profileHash].life.cleanup == cleanup && ledger[key.profileHash].times[3] == at
  {
    assert Recorded(ledger, Exchange(CleanupCall(key, cleanup, at), Done));
  }

  lemma RetainedIs(ledger: Ledger, log: seq<Exchange>, key: Key, run: PrivateRun)
    requires Agree(ledger, log) && WasRetained(log, key, run)
    ensures Holds(ledger, key) && Retained(ledger[key.profileHash].life) == Some(run)
  {
    assert Recorded(ledger, Exchange(RetainCall(key, run), Receipt(run.rawRun, run.manifestHash, run.prefix)));
  }

  lemma EndedIs(ledger: Ledger, log: seq<Exchange>, key: Key, result: TerminalResult)
    requires Agree(ledger, log) && WasEnded(log, key, result)
    ensures Ended(ledger, key, result)
  {
    var at, signedAt :| Exchange(TerminalCall(key, result, at, signedAt), Document(Some(result.document))) in log;
    assert Recorded(ledger, Exchange(TerminalCall(key, result, at, signedAt), Document(Some(result.document))));
  }

  // ---- so every answer follows ----

  lemma AdmitIsTold(ledger: Ledger, log: seq<Exchange>, key: Key, document: Bytes, newId: nat, at: Time)
    requires Agree(ledger, log)
    ensures AdmitFollows(log, key, document, newId, Admit(ledger, key, document, newId, at).1)
  {
    forall key', document', id, at' | WasAdmitted(log, key', document', id, at')
      ensures Holds(ledger, key') && ledger[key'.profileHash].document == document' && ledger[key'.profileHash].id == id
    {
      AdmittedIs(ledger, log, key', document', id, at');
    }
    if key.profileHash in ledger {
      HeldIsAdmitted(ledger, log, key.profileHash);
    }
    forall result | WasEnded(log, key, result) ensures Ended(ledger, key, result) {
      EndedIs(ledger, log, key, result);
    }
  }

  lemma StartIsTold(ledger: Ledger, log: seq<Exchange>, key: Key, at: Time)
    requires Agree(ledger, log)
    ensures StartFollows(log, key, StartRun(ledger, key, at).1)
  {
    forall document, id, at' | WasAdmitted(log, key, document, id, at') ensures Holds(ledger, key) {
      AdmittedIs(ledger, log, key, document, id, at');
    }
    forall at' | WasStarted(log, key, at') ensures Holds(ledger, key) && !ledger[key.profileHash].life.Admitted? {
      StartedIs(ledger, log, key, at');
    }
    if key.profileHash in ledger {
      HeldIsAdmitted(ledger, log, key.profileHash);
    }
  }

  lemma RawIsTold(ledger: Ledger, log: seq<Exchange>, key: Key, raw: Hash, at: Time)
    requires Agree(ledger, log)
    ensures RawFollows(log, key, raw, CommitRaw(ledger, key, raw, at).1)
  {
    forall at' | WasStarted(log, key, at') ensures Holds(ledger, key) && !ledger[key.profileHash].life.Admitted? {
      StartedIs(ledger, log, key, at');
    }
    forall other, at' | WasCommitted(log, key, other, at')
      ensures Holds(ledger, key) && EventCount(ledger[key.profileHash].life) >= 3
    {
      CommittedIs(ledger, log, key, other, at');
    }
    if key.profileHash in ledger {
      HeldIsAdmitted(ledger, log, key.profileHash);
    }
  }

  lemma CleanupIsTold(ledger: Ledger, log: seq<Exchange>, key: Key, cleanup: Hash, at: Time)
    requires Agree(ledger, log)
    ensures CleanupFollows(log, key, cleanup, CommitCleanup(ledger, key, cleanup, at).1)
  {
    forall raw, at' | WasCommitted(log, key, raw, at')
      ensures Holds(ledger, key) && EventCount(ledger[key.profileHash].life) >= 3
    {
      CommittedIs(ledger, log, key, raw, at');
    }
    CleanIs(ledger, log, key);
    if key.profileHash in ledger {
      HeldIsAdmitted(ledger, log, key.profileHash);
    }
  }

  lemma CleanIs(ledger: Ledger, log: seq<Exchange>, key: Key)
    requires Agree(ledger, log)
    ensures IsClean(log, key) <==> Holds(ledger, key) && EventCount(ledger[key.profileHash].life) >= 4
  {
    forall cleanup, at | WasCleaned(log, key, cleanup, at)
      ensures Holds(ledger, key) && EventCount(ledger[key.profileHash].life) >= 4
    {
      CleanedIs(ledger, log, key, cleanup, at);
    }
    if key.profileHash in ledger {
      HeldIsAdmitted(ledger, log, key.profileHash);
    }
  }

  lemma PrefixIsTold(ledger: Ledger, log: seq<Exchange>, key: Key)
    requires Agree(ledger, log)
    ensures PrefixFollows(log, key, ReadPrefix(ledger, key))
  {
    CleanIs(ledger, log, key);
    if IsClean(log, key) {
      var r := ledger[key.profileHash];
      HeldIsAdmitted(ledger, log, key.profileHash);
      assert Audit(r, 4) == [EventAt(r, 1), EventAt(r, 2), EventAt(r, 3), EventAt(r, 4)];
    }
  }

  lemma ReadIsTold(ledger: Ledger, log: seq<Exchange>, key: Key)
    requires Agree(ledger, log)
    ensures ReadFollows(log, key, ReadTerminal(ledger, key))
  {
    forall result | WasEnded(log, key, result) ensures Ended(ledger, key, result) {
      EndedIs(ledger, log, key, result);
    }
    if key.profileHash in ledger {
      HeldIsAdmitted(ledger, log, key.profileHash);
    }
  }

  lemma RetainIsTold(sha256: Bytes -> Hash, ledger: Ledger, log: seq<Exchange>, key: Key, run: PrivateRun)
    requires Agree(ledger, log)
    ensures RetainFollows(sha256, log, key, run, Retain(sha256, ledger, key, run).1)
  {
    CleanIs(ledger, log, key);
    RunHashTakenIs(ledger, log, run);
    WellFormedIs(sha256, key, run);
    forall raw, at | WasCommitted(log, key, raw, at) ensures Holds(ledger, key) && EventCount(ledger[key.profileHash].life) >= 3 && ledger[key.profileHash].life.raw == raw {
      CommittedIs(ledger, log, key, raw, at);
    }
    forall cleanup, at | WasCleaned(log, key, cleanup, at) ensures Holds(ledger, key) && EventCount(ledger[key.profileHash].life) >= 4 && ledger[key.profileHash].life.cleanup == cleanup {
      CleanedIs(ledger, log, key, cleanup, at);
    }
    forall other | WasRetained(log, key, other) ensures Holds(ledger, key) && Retained(ledger[key.profileHash].life) == Some(other) {
      RetainedIs(ledger, log, key, other);
    }
    if key.profileHash in ledger {
      HeldIsAdmitted(ledger, log, key.profileHash);
    }
  }

  lemma WellFormedIs(sha256: Bytes -> Hash, key: Key, run: PrivateRun)
    ensures ValidKey(key) && WellFormed(sha256, run) <==> ValidRetention(sha256, key, run)
  {
    var hashes := [run.rawOutput, run.cleanup, run.prefix, run.rawRun, run.manifestHash];
    assert run.rawOutput in hashes && run.cleanup in hashes && run.prefix in hashes && run.rawRun in hashes
      && run.manifestHash in hashes;
  }

  lemma RunHashTakenIs(ledger: Ledger, log: seq<Exchange>, run: PrivateRun)
    requires Agree(ledger, log)
    ensures RunHashTaken(log, run) <==> RetentionTaken(ledger, run)
  {
    forall key, other | WasRetained(log, key, other)
      ensures Holds(ledger, key) && Retained(ledger[key.profileHash].life) == Some(other)
    {
      RetainedIs(ledger, log, key, other);
    }
    if RunHashTaken(log, run) {
      var key, other :| WasRetained(log, key, other) && (other.rawRun == run.rawRun || other.manifestHash == run.manifestHash);
      assert LifeHoldsRun(ledger[key.profileHash].life, run);
    }
    if RetentionTaken(ledger, run) {
      var h :| h in ledger && LifeHoldsRun(ledger[h].life, run);
      HeldIsAdmitted(ledger, log, h);
    }
  }

  lemma ResultHashTakenIs(ledger: Ledger, log: seq<Exchange>, result: TerminalResult)
    requires Agree(ledger, log)
    ensures ResultHashTaken(log, result) <==> ResultTaken(ledger, result)
  {
    forall key, other | WasEnded(log, key, other) ensures Ended(ledger, key, other) {
      EndedIs(ledger, log, key, other);
    }
    if ResultHashTaken(log, result) {
      var key, other :| WasEnded(log, key, other) && (other.resultHash == result.resultHash || other.signedHash == result.signedHash);
      assert LifeHoldsResult(ledger[key.profileHash].life, result);
    }
    if ResultTaken(ledger, result) {
      var h :| h in ledger && LifeHoldsResult(ledger[h].life, result);
      HeldIsAdmitted(ledger, log, h);
    }
  }

  lemma TerminalIsTold(
      ledger: Ledger, log: seq<Exchange>, key: Key, result: TerminalResult, at: Time, signedAt: Time)
    requires Agree(ledger, log)
    ensures TerminalFollows(log, key, result, CommitTerminal(ledger, key, result, at, signedAt).1)
  {
    CleanIs(ledger, log, key);
    ResultHashTakenIs(ledger, log, result);
    forall run | WasRetained(log, key, run) ensures Holds(ledger, key) && Retained(ledger[key.profileHash].life) == Some(run) {
      RetainedIs(ledger, log, key, run);
    }
    forall other | WasEnded(log, key, other) ensures Ended(ledger, key, other) {
      EndedIs(ledger, log, key, other);
    }
    if key.profileHash in ledger {
      HeldIsAdmitted(ledger, log, key.profileHash);
    }
  }

  /** Whatever was called before, the next call is answered as the log of those calls says. */
  lemma AnswersFollow(sha256: Bytes -> Hash, calls: seq<Call>, call: Call)
    ensures Follows(sha256, Log(sha256, calls), call, ReplyTo(sha256, calls, call))
  {
    var ledger, log := LedgerAfter(sha256, calls), Log(sha256, calls);
    HistoryIsTold(sha256, calls);
    match call
    case AdmitCall(key, document, newId, at) => AdmitIsTold(ledger, log, key, document, newId, at);
    case StartCall(key, at) => StartIsTold(ledger, log, key, at);
    case RawCall(key, commitment, at) => RawIsTold(ledger, log, key, commitment, at);
    case CleanupCall(key, commitment, at) => CleanupIsTold(ledger, log, key, commitment, at);
    case PrefixCall(key) => PrefixIsTold(ledger, log, key);
    case RetainCall(key, run) => RetainIsTold(sha256, ledger, log, key, run);
    case TerminalCall(key, result, at, signedAt) => TerminalIsTold(ledger, log, key, result, at, signedAt);
    case ReadCall(key) => ReadIsTold(ledger, log, key);
  }

  lemma {:induction false} LogGrows(sha256: Bytes -> Hash, calls: seq<Call>, more: seq<Call>)
    ensures Log(sha256, calls) <= Log(sha256, calls + more)
    decreases |more|
  {
    if more == [] {
      assert calls + more == calls;
    } else {
      assert (calls + more)[..|calls + more| - 1] == calls + more[..|more| - 1];
      LogGrows(sha256, calls, more[..|more| - 1]);
    }
  }

  lemma RowsShowCommitments(ledger: Ledger, log: seq<Exchange>, key: Key)
    requires Agree(ledger, log)
    ensures var rows := ReadPrefix(ledger, key);
      rows.Rows? ==>
        && |rows.events| == 4
        && (forall raw, at :: WasCommitted(log, key, raw, at) ==> rows.events[2] == Event(RawOutputCommitment, Runner, raw, at))
        && (forall cleanup, at :: WasCleaned(log, key, cleanup, at) ==> rows.events[3] == Event(Cleanup, Runner, cleanup, at))
  {
    forall raw, at | WasCommitted(log, key, raw, at)
      ensures ReadPrefix(ledger, key).Rows? ==> ReadPrefix(ledger, key).events[2] == Event(RawOutputCommitment, Runner, raw, at)
    {
      CommittedIs(ledger, log, key, raw, at);
    }
    forall cleanup, at | WasCleaned(log, key, cleanup, at)
      ensures ReadPrefix(ledger, key).Rows? ==> ReadPrefix(ledger, key).events[3] == Event(Cleanup, Runner, cleanup, at)
    {
      CleanedIs(ledger, log, key, cleanup, at);
    }
  }

  lemma RetentionIsBound(sha256: Bytes -> Hash, log: seq<Exchange>, key: Key, run: PrivateRun, reply: Reply, hash: Hash, at: Time)
    requires RetainFollows(sha256, log, key, run, reply) && ValidKey(key) && WellFormed(sha256, run) && IsClean(log, key)
    ensures WasCommitted(log, key, hash, at) && hash != run.rawOutput ==> reply == Refused(WrongCommitments)
    ensures WasCleaned(log, key, hash, at) && hash != run.cleanup ==> reply == Refused(WrongCommitments)
  {
  }

  /**
   Committed hashes stay: whatever is called next, the prefix shows the raw output in its third row and the cleanup in
   its fourth.
   */
  lemma RowsStay(sha256: Bytes -> Hash, calls: seq<Call>, more: seq<Call>, key: Key, hash: Hash, at: Time)
    ensures var log, rows := Log(sha256, calls), ReplyTo(sha256, calls + more, PrefixCall(key));
      && (WasCommitted(log, key, hash, at) ==> ShowsRow(rows, 3, Event(RawOutputCommitment, Runner, hash, at)))
      && (WasCleaned(log, key, hash, at) ==> ShowsRow(rows, 4, Event(Cleanup, Runner, hash, at)))
  {
    LogGrows(sha256, calls, more);
    HistoryIsTold(sha256, calls + more);
    RowsShowCommitments(LedgerAfter(sha256, calls + more), Log(sha256, calls + more), key);
  }

  lemma StillCommitted(log: seq<Exchange>, more: seq<Exchange>, key: Key, hash: Hash, at: Time)
    requires log <= more
    ensures WasCommitted(log, key, hash, at) ==> WasCommitted(more, key, hash, at)
    ensures WasCleaned(log, key, hash, at) ==> WasCleaned(more, key, hash, at)
  {
  }

  /** And a well-formed retention of a cleaned run under any other hash is refused. */
  lemma CommitmentsBind(
      sha256: Bytes -> Hash, calls: seq<Call>, more: seq<Call>, key: Key, run: PrivateRun, hash: Hash, at: Time)
    requires ValidKey(key) && WellFormed(sha256, run) && IsClean(Log(sha256, calls + more), key)
    requires || (WasCommitted(Log(sha256, calls), key, hash, at) && hash != run.rawOutput)
             || (WasCleaned(Log(sha256, calls), key, hash, at) && hash != run.cleanup)
    ensures ReplyTo(sha256, calls + more, RetainCall(key, run)) == Refused(WrongCommitments)
  {
    LogGrows(sha256, calls, more);
    StillCommitted(Log(sha256, calls), Log(sha256, calls + more), key, hash, at);
    AnswersFollow(sha256, calls + more, RetainCall(key, run));
    RetentionIsBound(sha256, Log(sha256, calls + more), key, run, ReplyTo(sha256, calls + more, RetainCall(key, run)), hash, at);
  }

  ghost predicate ShowsRow(reply: Reply, ordinal: nat, event: Event)
  {
    reply.Rows? ==> 1 <= ordinal <= |reply.events| && reply.events[ordinal - 1] == event
  }
}
