/** The qualification lifecycle without its tables. */
module QualificationLedger {
  /*
   One record per profile hash, whose life only moves forward. The database functions are shown to refine
   these steps; everything a caller may rely on over a whole history is proved here.
   */

  import opened Common
  import opened QualificationBlobs

  type Time = int

  datatype Key = Key(claim: string, profileHash: Hash, context: Hash)

  datatype PrivateRun = PrivateRun(
    rawOutput: Hash, cleanup: Hash, prefix: Hash, rawRun: Hash, manifestHash: Hash, manifest: Bytes, blobs: seq<Blob>)

  datatype TerminalResult = TerminalResult(resultHash: Hash, signedHash: Hash, document: Bytes)

  datatype Life =
    | Admitted
    | Started
    | RawCommitted(raw: Hash)
    | Cleaned(raw: Hash, cleanup: Hash, retained: Option<PrivateRun>)
    | Terminal(raw: Hash, cleanup: Hash, run: PrivateRun, result: TerminalResult)

  datatype RunRecord = RunRecord(id: nat, key: Key, document: Bytes, life: Life, times: seq<Time>)

  /** A record with one recorded time for each of its events. */
  type Record = r: RunRecord | |r.times| == EventCount(r.life)
    witness RunRecord(0, Key("", "", ""), [], Admitted, [0])

  type Ledger = map<Hash, Record>

  // ---- the audit trail a record stands for ----

  datatype EventKind = Admission | Start | RawOutputCommitment | Cleanup | TerminalResultEvent | SignatureCommitment

  datatype Actor = Broker | Runner

  datatype Event = Event(kind: EventKind, actor: Actor, commitment: Hash, at: Time)

  function EventCount(life: Life): nat
  {
    match life
    case Admitted => 1
    case Started => 2
    case RawCommitted(_) => 3
    case Cleaned(_, _, _) => 4
    case Terminal(_, _, _, _) => 6
  }

  function Commitment(r: Record, ordinal: nat): Hash
    requires 1 <= ordinal <= EventCount(r.life)
  {
    if ordinal <= 2 then r.key.profileHash
    else if ordinal == 3 then r.life.raw
    else if ordinal == 4 then r.life.cleanup
    else if ordinal == 5 then r.life.result.resultHash
    else r.life.result.signedHash
  }

  function KindAt(ordinal: nat): EventKind
  {
    if ordinal <= 1 then Admission
    else if ordinal == 2 then Start
    else if ordinal == 3 then RawOutputCommitment
    else if ordinal == 4 then Cleanup
    else if ordinal == 5 then TerminalResultEvent
    else SignatureCommitment
  }

  function ActorAt(ordinal: nat): Actor
  {
    if ordinal <= 1 then Broker else Runner
  }

  ghost predicate GoodRecord(r: Record)
  {
    Retained(r.life).Some? ==>
      Retained(r.life).value.rawOutput == r.life.raw && Retained(r.life).value.cleanup == r.life.cleanup
  }

  function EventAt(r: Record, ordinal: nat): Event
    requires 1 <= ordinal <= EventCount(r.life)
  {
    Event(KindAt(ordinal), ActorAt(ordinal), Commitment(r, ordinal), r.times[ordinal - 1])
  }

  /** The first `n` events of a record. */
  function Audit(r: Record, n: nat): (events: seq<Event>)
    requires n <= EventCount(r.life)
    ensures |events| == n && forall i :: 0 <= i < n ==> events[i] == EventAt(r, i + 1)
  {
    seq(n, i requires 0 <= i < n => EventAt(r, i + 1))
  }

  function Retained(life: Life): Option<PrivateRun>
  {
    match life
    case Cleaned(_, _, retained) => retained
    case Terminal(_, _, run, _) => Some(run)
    case _ => None
  }

  // ---- one step per database function ----

  datatype Disposition = AdmittedNow | Active | AlreadyTerminal(document: Bytes)

  datatype Refusal =
    | InvalidArgument
    | WrongStage
    | LacksPredecessor
    | WrongCommitments
    | LacksPrivateRun
    | Different
    | UniqueViolation

  datatype Reply =
    | Disposed(id: nat, disposition: Disposition)
    | Done
    | Rows(id: nat, events: seq<Event>)
    | Receipt(rawRun: Hash, manifestHash: Hash, prefix: Hash)
    | Document(document: Option<Bytes>)
    | Refused(why: Refusal)

  predicate IdentifierChar(c: char)
  {
    'A' <= c <= 'Z' || 'a' <= c <= 'z' || '0' <= c <= '9' || c == '.' || c == '_' || c == ':' || c == '-'
  }

  /** `^[A-Za-z][A-Za-z0-9._:-]{0,127}$` */
  predicate IsClaim(text: string)
  {
    && 1 <= |text| <= 128
    && ('A' <= text[0] <= 'Z' || 'a' <= text[0] <= 'z')
    && forall i :: 0 <= i < |text| ==> IdentifierChar(text[i])
  }

  predicate ValidKey(key: Key)
  {
    IsClaim(key.claim) && IsDigest(key.profileHash) && IsDigest(key.context)
  }

  function Find(ledger: Ledger, key: Key): (r: Option<Record>)
    ensures r.Some? <==> key.profileHash in ledger && ledger[key.profileHash].key == key
    ensures r.Some? ==> r.value == ledger[key.profileHash]
  {
    if key.profileHash in ledger && ledger[key.profileHash].key == key
    then Some(ledger[key.profileHash])
    else None
  }

  function Put(ledger: Ledger, r: Record): Ledger
  {
    ledger[r.key.profileHash := r]
  }

  function Advance(r: Record, life: Life, times: seq<Time>): Record
    requires |times| == EventCount(life) - EventCount(r.life)
  {
    r.(life := life, times := r.times + times)
  }

  function Admit(ledger: Ledger, key: Key, document: Bytes, newId: nat, at: Time): (Ledger, Reply)
  {
    if document == [] || !ValidKey(key) then (ledger, Refused(InvalidArgument))
    else if key.profileHash !in ledger then
      (Put(ledger, RunRecord(newId, key, document, Admitted, [at])), Disposed(newId, AdmittedNow))
    else
      var r := ledger[key.profileHash];
      if r.key != key || r.document != document then (ledger, Refused(Different))
      else if r.life.Terminal? then (ledger, Disposed(r.id, AlreadyTerminal(r.life.result.document)))
      else (ledger, Disposed(r.id, Active))
  }

  function StartRun(ledger: Ledger, key: Key, at: Time): (Ledger, Reply)
  {
    var found := Find(ledger, key);
    if found.None? || !found.value.life.Admitted? then (ledger, Refused(WrongStage))
    else (Put(ledger, Advance(found.value, Started, [at])), Done)
  }

  function CommitRaw(ledger: Ledger, key: Key, commitment: Hash, at: Time): (Ledger, Reply)
  {
    var found := Find(ledger, key);
    if !IsDigest(commitment) then (ledger, Refused(InvalidArgument))
    else if found.None? || !found.value.life.Started? then (ledger, Refused(WrongStage))
    else (Put(ledger, Advance(found.value, RawCommitted(commitment), [at])), Done)
  }

  function CommitCleanup(ledger: Ledger, key: Key, commitment: Hash, at: Time): (Ledger, Reply)
  {
    var found := Find(ledger, key);
    if !IsDigest(commitment) then (ledger, Refused(InvalidArgument))
    else if found.None? || !found.value.life.RawCommitted? then (ledger, Refused(WrongStage))
    else (Put(ledger, Advance(found.value, Cleaned(found.value.life.raw, commitment, None), [at])), Done)
  }

  function ReadPrefix(ledger: Ledger, key: Key): Reply
  {
    var found := Find(ledger, key);
    if !ValidKey(key) then Refused(InvalidArgument)
    else if found.None? || !(found.value.life.Cleaned? || found.value.life.Terminal?) then Refused(WrongStage)
    else Rows(found.value.id, Audit(found.value, 4))
  }

  predicate ValidRetention(sha256: Bytes -> Hash, key: Key, run: PrivateRun)
  {
    && ValidKey(key)
    && IsDigest(run.rawOutput) && IsDigest(run.cleanup) && IsDigest(run.prefix)
    && IsDigest(run.rawRun) && IsDigest(run.manifestHash)
    && run.manifest != [] && run.manifestHash == sha256(run.manifest)
    && Admissible(sha256, run.prefix, run.blobs)
  }

  /** A retained run shares a unique hash with `run`. */
  predicate LifeHoldsRun(life: Life, run: PrivateRun)
  {
    && Retained(life).Some?
    && (Retained(life).value.rawRun == run.rawRun || Retained(life).value.manifestHash == run.manifestHash)
  }

  predicate RetentionTaken(ledger: Ledger, run: PrivateRun)
  {
    exists h :: h in ledger && LifeHoldsRun(ledger[h].life, run)
  }

  function ReceiptFor(run: PrivateRun): Reply
  {
    Receipt(run.rawRun, run.manifestHash, run.prefix)
  }

  function Retain(sha256: Bytes -> Hash, ledger: Ledger, key: Key, run: PrivateRun): (Ledger, Reply)
  {
    var found := Find(ledger, key);
    if !ValidRetention(sha256, key, run) then (ledger, Refused(InvalidArgument))
    else if found.None? || !(found.value.life.Cleaned? || found.value.life.Terminal?) then
      (ledger, Refused(WrongStage))
    else
      var r := found.value;
      if r.life.raw != run.rawOutput || r.life.cleanup != run.cleanup then (ledger, Refused(WrongCommitments))
      else if Retained(r.life).Some? then
        (ledger, if Retained(r.life).value == run then ReceiptFor(run) else Refused(Different))
      else if RetentionTaken(ledger, run) then (ledger, Refused(UniqueViolation))
      else (Put(ledger, r.(life := r.life.(retained := Some(run)))), ReceiptFor(run))
  }

  predicate ValidResult(result: TerminalResult)
  {
    result.document != [] && IsDigest(result.resultHash) && IsDigest(result.signedHash)
  }

  /** A terminal result shares a unique hash with `result`. */
  predicate LifeHoldsResult(life: Life, result: TerminalResult)
  {
    life.Terminal? && (life.result.resultHash == result.resultHash || life.result.signedHash == result.signedHash)
  }

  predicate ResultTaken(ledger: Ledger, result: TerminalResult)
  {
    exists h :: h in ledger && LifeHoldsResult(ledger[h].life, result)
  }

  function CommitTerminal(ledger: Ledger, key: Key, result: TerminalResult, at: Time, signedAt: Time): (Ledger, Reply)
  {
    var found := Find(ledger, key);
    if !ValidResult(result) then (ledger, Refused(InvalidArgument))
    else if found.None? || !(found.value.life.Cleaned? || found.value.life.Terminal?) then
      (ledger, Refused(WrongStage))
    else
      var r := found.value;
      if Retained(r.life).None? then (ledger, Refused(LacksPrivateRun))
      else if r.life.Terminal? then
        (ledger, if r.life.result == result then Document(Some(result.document)) else Refused(Different))
      else if ResultTaken(ledger, result) then (ledger, Refused(UniqueViolation))
      else
        var ended := Terminal(r.life.raw, r.life.cleanup, r.life.retained.value, result);
        (Put(ledger, Advance(r, ended, [at, signedAt])), Document(Some(result.document)))
  }

  function ReadTerminal(ledger: Ledger, key: Key): Reply
  {
    var found := Find(ledger, key);
    Document(if found.Some? && found.value.life.Terminal? then Some(found.value.life.result.document) else None)
  }

  // ---- histories: any interleaving of any calls ----

  datatype Call =
    | AdmitCall(key: Key, document: Bytes, newId: nat, at: Time)
    | StartCall(key: Key, at: Time)
    | RawCall(key: Key, commitment: Hash, at: Time)
    | CleanupCall(key: Key, commitment: Hash, at: Time)
    | PrefixCall(key: Key)
    | RetainCall(key: Key, run: PrivateRun)
    | TerminalCall(key: Key, result: TerminalResult, at: Time, signedAt: Time)
    | ReadCall(key: Key)

  function Step(sha256: Bytes -> Hash, ledger: Ledger, call: Call): (Ledger, Reply)
  {
    match call
    case AdmitCall(key, document, newId, at) => Admit(ledger, key, document, newId, at)
    case StartCall(key, at) => StartRun(ledger, key, at)
    case RawCall(key, commitment, at) => CommitRaw(ledger, key, commitment, at)
    case CleanupCall(key, commitment, at) => CommitCleanup(ledger, key, commitment, at)
    case PrefixCall(key) => (ledger, ReadPrefix(ledger, key))
    case RetainCall(key, run) => Retain(sha256, ledger, key, run)
    case TerminalCall(key, result, at, signedAt) => CommitTerminal(ledger, key, result, at, signedAt)
    case ReadCall(key) => (ledger, ReadTerminal(ledger, key))
  }

  function After(sha256: Bytes -> Hash, ledger: Ledger, calls: seq<Call>): Ledger
    decreases |calls|
  {
    if calls == [] then ledger else After(sha256, Step(sha256, ledger, calls[0]).0, calls[1..])
  }

  ghost predicate Good(ledger: Ledger)
  {
    && (forall h :: h in ledger ==> ledger[h].key.profileHash == h && GoodRecord(ledger[h]))
    && (forall g, h :: g in ledger && h in ledger && g != h ==> Apart(ledger[g].life, ledger[h].life))
  }

  /** Retained and terminal hashes are unique across runs. */
  ghost predicate Apart(a: Life, b: Life)
  {
    && (Retained(a).Some? && Retained(b).Some? ==>
          Retained(a).value.rawRun != Retained(b).value.rawRun &&
          Retained(a).value.manifestHash != Retained(b).value.manifestHash)
    && (a.Terminal? && b.Terminal? ==>
          a.result.resultHash != b.result.resultHash && a.result.signedHash != b.result.signedHash)
  }

  /** How far a life may be from another one later on. */
  ghost predicate LifeEvolves(a: Life, b: Life)
  {
    match a
    case Admitted => true
    case Started => !b.Admitted?
    case RawCommitted(raw) => EventCount(b) >= 3 && b.raw == raw
    case Cleaned(raw, cleanup, retained) =>
      EventCount(b) >= 4 && b.raw == raw && b.cleanup == cleanup && (retained.Some? ==> Retained(b) == retained)
    case Terminal(_, _, _, _) => b == a
  }

  ghost predicate Evolves(a: Record, b: Record)
  {
    && b.id == a.id && b.key == a.key && b.document == a.document
    && a.times <= b.times
    && LifeEvolves(a.life, b.life)
  }

  ghost predicate LedgerEvolves(a: Ledger, b: Ledger)
  {
    forall h :: h in a ==> h in b && Evolves(a[h], b[h])
  }

  /** A record may join the ledger when it continues the one it replaces and shares no unique hash with the others. */
  ghost predicate Fits(ledger: Ledger, r: Record)
  {
    && GoodRecord(r)
    && (r.key.profileHash in ledger ==> Evolves(ledger[r.key.profileHash], r))
    && forall h :: h in ledger && h != r.key.profileHash ==>
         Apart(ledger[h].life, r.life) && Apart(r.life, ledger[h].life)
  }

  lemma PutEvolves(ledger: Ledger, r: Record)
    requires Good(ledger) && Fits(ledger, r)
    ensures Good(Put(ledger, r)) && LedgerEvolves(ledger, Put(ledger, r))
  {
  }

  /** A step that neither retains a run nor ends one introduces no unique hash. */
  lemma QuietStepFits(ledger: Ledger, r: Record, life: Life, times: seq<Time>)
    requires Good(ledger) && r.key.profileHash in ledger && ledger[r.key.profileHash] == r
    requires |times| == EventCount(life) - EventCount(r.life)
    requires LifeEvolves(r.life, life) && Retained(life).None?
    ensures Fits(ledger, Advance(r, life, times))
  {
  }

  lemma RetainFits(ledger: Ledger, r: Record, run: PrivateRun)
    requires Good(ledger) && r.key.profileHash in ledger && ledger[r.key.profileHash] == r
    requires r.life.Cleaned? && r.life.retained.None? && r.life.raw == run.rawOutput && r.life.cleanup == run.cleanup
    requires !RetentionTaken(ledger, run)
    ensures Fits(ledger, r.(life := r.life.(retained := Some(run))))
  {
  }

  lemma TerminalFits(ledger: Ledger, r: Record, result: TerminalResult, times: seq<Time>)
    requires Good(ledger) && r.key.profileHash in ledger && ledger[r.key.profileHash] == r
    requires r.life.Cleaned? && r.life.retained.Some? && |times| == 2
    requires !ResultTaken(ledger, result)
    ensures Fits(ledger, Advance(r, Terminal(r.life.raw, r.life.cleanup, r.life.retained.value, result), times))
  {
    var next := Advance(r, Terminal(r.life.raw, r.life.cleanup, r.life.retained.value, result), times);
    forall h | h in ledger && h != r.key.profileHash
      ensures Apart(ledger[h].life, next.life) && Apart(next.life, ledger[h].life)
    {
      assert Apart(ledger[h].life, r.life) && Apart(r.life, ledger[h].life);
    }
  }

  lemma RetainEvolves(sha256: Bytes -> Hash, ledger: Ledger, key: Key, run: PrivateRun)
    requires Good(ledger)
    ensures var (next, reply) := Retain(sha256, ledger, key, run);
      Good(next) && LedgerEvolves(ledger, next) && (reply.Refused? ==> next == ledger)
  {
    var next := Retain(sha256, ledger, key, run).0;
    if next != ledger {
      var r := Find(ledger, key).value;
      RetainFits(ledger, r, run);
      PutEvolves(ledger, r.(life := r.life.(retained := Some(run))));
    }
  }

  lemma TerminalEvolves(ledger: Ledger, key: Key, result: TerminalResult, at: Time, signedAt: Time)
    requires Good(ledger)
    ensures var (next, reply) := CommitTerminal(ledger, key, result, at, signedAt);
      Good(next) && LedgerEvolves(ledger, next) && (reply.Refused? ==> next == ledger)
  {
    var next := CommitTerminal(ledger, key, result, at, signedAt).0;
    if next != ledger {
      var r := Find(ledger, key).value;
      TerminalFits(ledger, r, result, [at, signedAt]);
      PutEvolves(ledger, next[key.profileHash]);
    }
  }

  /** Every call keeps the ledger good, loses nothing it held, and changes nothing when it is refused. */
  lemma StepEvolves(sha256: Bytes -> Hash, ledger: Ledger, call: Call)
    requires Good(ledger)
    ensures Good(Step(sha256, ledger, call).0)
    ensures LedgerEvolves(ledger, Step(sha256, ledger, call).0)
    ensures Step(sha256, ledger, call).1.Refused? ==> Step(sha256, ledger, call).0 == ledger
  {
    match call
    case RetainCall(key, run) => RetainEvolves(sha256, ledger, key, run);
    case TerminalCall(key, result, at, signedAt) => TerminalEvolves(ledger, key, result, at, signedAt);
    case AdmitCall(key, document, newId, at) =>
      if Step(sha256, ledger, call).0 != ledger {
        PutEvolves(ledger, RunRecord(newId, key, document, Admitted, [at]));
      }
    case StartCall(key, at) =>
      if Step(sha256, ledger, call).0 != ledger {
        QuietStepFits(ledger, ledger[key.profileHash], Started, [at]);
        PutEvolves(ledger, Advance(ledger[key.profileHash], Started, [at]));
      }
    case RawCall(key, commitment, at) =>
      if Step(sha256, ledger, call).0 != ledger {
        QuietStepFits(ledger, ledger[key.profileHash], RawCommitted(commitment), [at]);
        PutEvolves(ledger, Advance(ledger[key.profileHash], RawCommitted(commitment), [at]));
      }
    case CleanupCall(key, commitment, at) =>
      if Step(sha256, ledger, call).0 != ledger {
        var cleaned := Cleaned(ledger[key.profileHash].life.raw, commitment, None);
        QuietStepFits(ledger, ledger[key.profileHash], cleaned, [at]);
        PutEvolves(ledger, Advance(ledger[key.profileHash], cleaned, [at]));
      }
    case _ =>
  }

  lemma EvolvesTransitive(a: Record, b: Record, c: Record)
    requires Evolves(a, b) && Evolves(b, c)
    ensures Evolves(a, c)
  {
    assert a.times == b.times[..|a.times|];
    assert b.times == c.times[..|b.times|];
    assert a.times == c.times[..|a.times|];
  }

  /** What holds of one call holds of every history. */
  lemma {:induction false} HistoryEvolves(sha256: Bytes -> Hash, ledger: Ledger, calls: seq<Call>)
    requires Good(ledger)
    ensures Good(After(sha256, ledger, calls))
    ensures LedgerEvolves(ledger, After(sha256, ledger, calls))
    decreases |calls|
  {
    if calls != [] {
      var next := Step(sha256, ledger, calls[0]).0;
      StepEvolves(sha256, ledger, calls[0]);
      HistoryEvolves(sha256, next, calls[1..]);
      var last := After(sha256, next, calls[1..]);
      forall h | h in ledger ensures h in last && Evolves(ledger[h], last[h]) {
        EvolvesTransitive(ledger[h], next[h], last[h]);
      }
    }
  }

  // ---- what a caller may rely on, whatever happens in between ----

  ghost predicate Holds(ledger: Ledger, key: Key)
  {
    key.profileHash in ledger && ledger[key.profileHash].key == key
  }

  /** The record of one key after a call and then any history. */
  lemma RecordLater(sha256: Bytes -> Hash, ledger: Ledger, call: Call, calls: seq<Call>, key: Key)
    requires Good(ledger) && Holds(Step(sha256, ledger, call).0, key)
    ensures var next := Step(sha256, ledger, call).0;
      var later := After(sha256, next, calls);
      Holds(later, key) && Evolves(next[key.profileHash], later[key.profileHash])
  {
    StepEvolves(sha256, ledger, call);
    HistoryEvolves(sha256, Step(sha256, ledger, call).0, calls);
  }

  lemma AdmitAnswers(ledger: Ledger, key: Key, document: Bytes, newId: nat, at: Time)
    requires Admit(ledger, key, document, newId, at).1.Disposed?
    ensures var (next, answer) := Admit(ledger, key, document, newId, at);
      && document != [] && ValidKey(key)
      && Holds(next, key) && next[key.profileHash].document == document && next[key.profileHash].id == answer.id
      && (answer.disposition.AlreadyTerminal? ==>
            next[key.profileHash].life.Terminal? &&
            next[key.profileHash].life.result.document == answer.disposition.document)
  {
  }

  lemma AdmitHeld(ledger: Ledger, key: Key, document: Bytes, newId: nat, at: Time)
    requires document != [] && ValidKey(key) && Holds(ledger, key) && ledger[key.profileHash].document == document
    ensures var r := ledger[key.profileHash];
      Admit(ledger, key, document, newId, at) ==
        (ledger, Disposed(r.id, if r.life.Terminal? then AlreadyTerminal(r.life.result.document) else Active))
  {
  }

  /**
   One admission answers ADMITTED; from then on the same request is answered ACTIVE or TERMINAL with the
   same run, and once it has been answered TERMINAL it is answered with the same bytes.
   */
  lemma AdmittedOnce(
      sha256: Bytes -> Hash, ledger: Ledger, key: Key, document: Bytes, newId: nat, at: Time,
      calls: seq<Call>, newId': nat, at': Time)
    requires Good(ledger)
    requires Admit(ledger, key, document, newId, at).1.Disposed?
    ensures
      var (first, answer) := Admit(ledger, key, document, newId, at);
      var (again, reply) := Admit(After(sha256, first, calls), key, document, newId', at');
      && again == After(sha256, first, calls)
      && reply.Disposed? && reply.id == answer.id && reply.disposition != AdmittedNow
      && (answer.disposition.AlreadyTerminal? ==> reply == answer)
  {
    AdmitAnswers(ledger, key, document, newId, at);
    RecordLater(sha256, ledger, AdmitCall(key, document, newId, at), calls, key);
    AdmitHeld(After(sha256, Admit(ledger, key, document, newId, at).0, calls), key, document, newId', at');
  }

  /** A request that does not repeat the retained profile, claim and context of a known hash is always refused. */
  lemma ProfileIsBound(
      sha256: Bytes -> Hash, ledger: Ledger, h: Hash, calls: seq<Call>, key: Key, document: Bytes, newId: nat, at: Time)
    requires Good(ledger) && h in ledger && key.profileHash == h
    requires key != ledger[h].key || document != ledger[h].document
    ensures var later := After(sha256, ledger, calls);
      Admit(later, key, document, newId, at).0 == later && Admit(later, key, document, newId, at).1.Refused?
  {
    HistoryEvolves(sha256, ledger, calls);
  }

  lemma PrefixKept(a: Record, b: Record)
    requires Evolves(a, b) && EventCount(a.life) >= 4
    ensures EventCount(b.life) >= 4 && Audit(a, 4) == Audit(b, 4)
  {
    forall i | 0 <= i < 4 ensures Audit(a, 4)[i] == Audit(b, 4)[i] {
      assert a.times[i] == b.times[..|a.times|][i];
    }
  }

  /** The event prefix, once readable, never changes. */
  lemma PrefixIsFrozen(sha256: Bytes -> Hash, ledger: Ledger, key: Key, calls: seq<Call>)
    requires Good(ledger) && ReadPrefix(ledger, key).Rows?
    ensures ReadPrefix(After(sha256, ledger, calls), key) == ReadPrefix(ledger, key)
  {
    HistoryEvolves(sha256, ledger, calls);
    PrefixKept(ledger[key.profileHash], After(sha256, ledger, calls)[key.profileHash]);
  }

  ghost predicate Keeps(ledger: Ledger, key: Key, run: PrivateRun)
  {
    && Holds(ledger, key)
    && Retained(ledger[key.profileHash].life) == Some(run)
    && ledger[key.profileHash].life.raw == run.rawOutput
    && ledger[key.profileHash].life.cleanup == run.cleanup
  }

  lemma RetainAnswers(sha256: Bytes -> Hash, ledger: Ledger, key: Key, run: PrivateRun)
    requires Good(ledger) && Retain(sha256, ledger, key, run).1.Receipt?
    ensures ValidRetention(sha256, key, run) && Keeps(Retain(sha256, ledger, key, run).0, key, run)
    ensures Retain(sha256, ledger, key, run).1 == ReceiptFor(run)
  {
  }

  lemma RetainKept(sha256: Bytes -> Hash, ledger: Ledger, key: Key, run: PrivateRun, other: PrivateRun)
    requires Keeps(ledger, key, run)
    ensures ValidRetention(sha256, key, run) ==> Retain(sha256, ledger, key, run) == (ledger, ReceiptFor(run))
    ensures other != run ==>
      Retain(sha256, ledger, key, other).0 == ledger && Retain(sha256, ledger, key, other).1.Refused?
  {
  }

  /** After a receipt, only the identical private run is accepted, with the same receipt and no change. */
  lemma RetentionIsFinal(
      sha256: Bytes -> Hash, ledger: Ledger, key: Key, run: PrivateRun, calls: seq<Call>, other: PrivateRun)
    requires Good(ledger) && Retain(sha256, ledger, key, run).1.Receipt?
    ensures
      var first := Retain(sha256, ledger, key, run);
      var later := After(sha256, first.0, calls);
      && Retain(sha256, later, key, run) == (later, first.1)
      && (other != run ==> Retain(sha256, later, key, other).0 == later && Retain(sha256, later, key, other).1.Refused?)
  {
    RetainAnswers(sha256, ledger, key, run);
    RecordLater(sha256, ledger, RetainCall(key, run), calls, key);
    RetainKept(sha256, After(sha256, Retain(sha256, ledger, key, run).0, calls), key, run, other);
  }

  ghost predicate Ended(ledger: Ledger, key: Key, result: TerminalResult)
  {
    && Holds(ledger, key)
    && ledger[key.profileHash].life.Terminal?
    && ledger[key.profileHash].life.result == result
  }

  lemma TerminalAnswers(ledger: Ledger, key: Key, result: TerminalResult, at: Time, signedAt: Time)
    requires CommitTerminal(ledger, key, result, at, signedAt).1.Document?
    ensures ValidResult(result) && Ended(CommitTerminal(ledger, key, result, at, signedAt).0, key, result)
  {
  }

  lemma TerminalKept(
      ledger: Ledger, key: Key, result: TerminalResult, other: TerminalResult, at: Time, signedAt: Time)
    requires Ended(ledger, key, result)
    ensures ReadTerminal(ledger, key) == Document(Some(result.document))
    ensures ValidResult(result) ==>
      CommitTerminal(ledger, key, result, at, signedAt) == (ledger, Document(Some(result.document)))
    ensures other != result ==>
      CommitTerminal(ledger, key, other, at, signedAt).0 == ledger &&
      CommitTerminal(ledger, key, other, at, signedAt).1.Refused?
  {
  }

  /** After a terminal result, every later replay and read returns its bytes and any other result is refused. */
  lemma TerminalIsFinal(
      sha256: Bytes -> Hash, ledger: Ledger, key: Key, result: TerminalResult, at: Time, signedAt: Time,
      calls: seq<Call>, other: TerminalResult, at': Time, signedAt': Time)
    requires Good(ledger) && CommitTerminal(ledger, key, result, at, signedAt).1.Document?
    ensures
      var later := After(sha256, CommitTerminal(ledger, key, result, at, signedAt).0, calls);
      && CommitTerminal(later, key, result, at', signedAt') == (later, Document(Some(result.document)))
      && ReadTerminal(later, key) == Document(Some(result.document))
      && (other != result ==>
            CommitTerminal(later, key, other, at', signedAt').0 == later &&
            CommitTerminal(later, key, other, at', signedAt').1.Refused?)
  {
    TerminalAnswers(ledger, key, result, at, signedAt);
    RecordLater(sha256, ledger, TerminalCall(key, result, at, signedAt), calls, key);
    TerminalKept(After(sha256, CommitTerminal(ledger, key, result, at, signedAt).0, calls), key, result, other, at', signedAt');
  }

  /** No document is ever readable without a retained private run that matches events three and four. */
  lemma {:induction false} TerminalNeedsRetention(sha256: Bytes -> Hash, calls: seq<Call>, key: Key)
    ensures
      var ledger := After(sha256, map[], calls);
      ReadTerminal(ledger, key) != Document(None) ==>
        && Holds(ledger, key)
        && Retained(ledger[key.profileHash].life).Some?
        && Retained(ledger[key.profileHash].life).value.rawOutput == Commitment(ledger[key.profileHash], 3)
        && Retained(ledger[key.profileHash].life).value.cleanup == Commitment(ledger[key.profileHash], 4)
  {
    HistoryEvolves(sha256, map[], calls);
  }
}
