/** The SQL functions as methods, each one ledger step. */
module QualificationDatabase {
  import opened Common
  import opened QualificationBlobs
  import opened QualificationLedger
  import opened QualificationTables

  /** Nothing but the rows of run `id` and profile `h` differs. */
  ghost predicate OthersKept(t: Tables, t': Tables, id: nat, h: Hash)
  {
    && (forall g :: g != h ==> (g in t.profiles <==> g in t'.profiles) && (g in t.profiles ==> t'.profiles[g] == t.profiles[g]))
    && (forall i :: i != id ==> (i in t.runs <==> i in t'.runs) && (i in t.runs ==> t'.runs[i] == t.runs[i]))
    && (forall k: (nat, nat) :: k.0 != id ==> (k in t.events <==> k in t'.events) && (k in t.events ==> t'.events[k] == t.events[k]))
    && (forall i :: i != id ==> (i in t.results <==> i in t'.results) && (i in t.results ==> t'.results[i] == t.results[i]))
    && (forall i :: i != id ==> (i in t.privates <==> i in t'.privates) && (i in t.privates ==> t'.privates[i] == t.privates[i]))
    && (forall i :: i != id ==> (i in t.blobs <==> i in t'.blobs) && (i in t.blobs ==> t'.blobs[i] == t.blobs[i]))
  }

  lemma OtherRecordKept(t: Tables, t': Tables, id: nat, h: Hash, r: Record)
    requires OthersKept(t, t', id, h) && RecordMatches(t, r) && r.id != id && r.key.profileHash != h
    ensures RecordMatches(t', r)
  {
    forall o: nat ensures (r.id, o) in t.events <==> (r.id, o) in t'.events {
      assert (r.id, o).0 != id;
    }
  }

  ghost predicate Replaces(t: Tables, ledger: Ledger, r: Record)
  {
    if r.key.profileHash in ledger then ledger[r.key.profileHash].id == r.id else r.id !in t.runs
  }

  lemma PutMatches(t: Tables, t': Tables, ledger: Ledger, r: Record, h: Hash)
    requires Represents(t, ledger) && RecordMatches(t', r) && Replaces(t, ledger, r)
    requires OthersKept(t, t', r.id, r.key.profileHash)
    requires h in Put(ledger, r)
    ensures Put(ledger, r)[h].key.profileHash == h && RecordMatches(t', Put(ledger, r)[h])
  {
    if h != r.key.profileHash {
      var other := ledger[h];
      assert RecordMatches(t, ledger[h]);
      if r.key.profileHash in ledger {
        assert RecordMatches(t, ledger[r.key.profileHash]);
      }
      assert other.id != r.id;
      OtherRecordKept(t, t', r.id, r.key.profileHash, other);
    }
  }

  lemma PutOwned(t: Tables, t': Tables, ledger: Ledger, r: Record, id: nat)
    requires Represents(t, ledger) && RecordMatches(t', r) && Replaces(t, ledger, r)
    requires OthersKept(t, t', r.id, r.key.profileHash)
    requires id in t'.runs
    ensures Owned(t', Put(ledger, r), id)
  {
    if id != r.id {
      assert Owned(t, ledger, id);
      assert t.runs[id].key.profileHash != r.key.profileHash;
    }
  }

  /** Replacing or adding one record and exactly its rows keeps tables and ledger together. */
  lemma PutRepresents(t: Tables, t': Tables, ledger: Ledger, r: Record)
    requires Represents(t, ledger) && RecordMatches(t', r) && Replaces(t, ledger, r)
    requires OthersKept(t, t', r.id, r.key.profileHash)
    ensures Represents(t', Put(ledger, r))
  {
    var next := Put(ledger, r);
    forall h | h in next ensures next[h].key.profileHash == h && RecordMatches(t', next[h]) {
      PutMatches(t, t', ledger, r, h);
    }
    forall id | id in t'.runs ensures Owned(t', next, id) {
      PutOwned(t, t', ledger, r, id);
    }
    forall k | k in t'.events ensures k.0 in t'.runs {
      if k.0 != r.id { assert k in t.events; }
    }
  }

  /** The rows of a run after its stage moved on and the events of the new record were appended. */
  ghost predicate Moved(t: Tables, t': Tables, r: Record, next: Record)
  {
    && next.id == r.id && next.key == r.key && next.document == r.document && r.times <= next.times
    && LifeEvolves(r.life, next.life)
    && t'.profiles == t.profiles
    && t'.runs == t.runs[r.id := RunRow(r.key, StageOf(next.life))]
    && (forall k :: k in t.events ==> k in t'.events && t'.events[k] == t.events[k])
    && (forall k :: k in t'.events ==> k in t.events || (k.0 == r.id && EventCount(r.life) < k.1 <= EventCount(next.life)))
    && (forall o :: EventCount(r.life) < o <= EventCount(next.life) ==>
          (r.id, o) in t'.events && t'.events[(r.id, o)] == EventAt(next, o))
  }

  lemma MovedEvents(t: Tables, t': Tables, r: Record, next: Record)
    requires EventsMatch(t, r) && Moved(t, t', r, next)
    ensures EventsMatch(t', next)
  {
    assert EventCount(r.life) <= EventCount(next.life);
    forall o: nat | 1 <= o <= EventCount(next.life)
      ensures (r.id, o) in t'.events && t'.events[(r.id, o)] == EventAt(next, o)
    {
      if o <= EventCount(r.life) {
        assert t.events[(r.id, o)] == EventAt(r, o);
        assert next.times[..|r.times|][o - 1] == r.times[o - 1];
      }
    }
    forall o: nat | (r.id, o) in t'.events ensures 1 <= o <= EventCount(next.life) {
      if (r.id, o) in t.events {
        assert 1 <= o <= EventCount(r.life);
      }
    }
  }

  lemma MovedRepresents(t: Tables, t': Tables, ledger: Ledger, r: Record, next: Record)
    requires Represents(t, ledger) && r.key.profileHash in ledger && ledger[r.key.profileHash] == r
    requires Moved(t, t', r, next)
    requires t'.privates == t.privates && t'.blobs == t.blobs && Retained(next.life) == Retained(r.life)
    requires ResultMatches(t', next)
    requires forall i :: i != r.id ==> (i in t.results <==> i in t'.results) && (i in t.results ==> t'.results[i] == t.results[i])
    ensures Represents(t', Put(ledger, next))
  {
    assert RecordMatches(t, r);
    MovedEvents(t, t', r, next);
    PutRepresents(t, t', ledger, next);
  }

  /** One new event and one new stage. */
  function WithEvent(t: Tables, id: nat, stage: Stage, ordinal: nat, event: Event): Tables
    requires id in t.runs
  {
    t.(runs := t.runs[id := t.runs[id].(stage := stage)], events := t.events[(id, ordinal) := event])
  }

  lemma WithEventRepresents(t: Tables, ledger: Ledger, r: Record, life: Life, at: Time)
    requires Represents(t, ledger) && Good(ledger) && r.key.profileHash in ledger && ledger[r.key.profileHash] == r
    requires EventCount(life) == EventCount(r.life) + 1 && !life.Terminal? && Retained(life).None?
    requires LifeEvolves(r.life, life)
    ensures r.id in t.runs && RecordMatches(t, r)
    ensures var next := Advance(r, life, [at]); var n := EventCount(life);
      && (r.id, n) !in t.events
      && Represents(WithEvent(t, r.id, StageOf(life), n, EventAt(next, n)), Put(ledger, next))
      && Good(Put(ledger, next))
  {
    var next, n := Advance(r, life, [at]), EventCount(life);
    assert RecordMatches(t, ledger[r.key.profileHash]);
    MovedRepresents(t, WithEvent(t, r.id, StageOf(life), n, EventAt(next, n)), ledger, r, next);
    QuietStepFits(ledger, r, life, [at]);
    PutEvolves(ledger, next);
  }

  /** What the prefix checks of the reading and retaining functions look at. */
  predicate PrefixInOrder(events: map<(nat, nat), Event>, id: nat, profileHash: Hash)
  {
    && Kinds(EventRows(events, id, 4)) == [Admission, Start, RawOutputCommitment, Cleanup]
    && Actors(EventRows(events, id, 4)) == [Broker, Runner, Runner, Runner]
    && Commitments(EventRows(events, id, 2)) == [profileHash, profileHash]
  }

  lemma PrefixRows(t: Tables, r: Record)
    requires RecordMatches(t, r) && EventCount(r.life) >= 4
    ensures EventRows(t.events, r.id, 4) == Audit(r, 4)
    ensures PrefixInOrder(t.events, r.id, r.key.profileHash)
    ensures (r.id, 3) in t.events && t.events[(r.id, 3)].commitment == r.life.raw
    ensures (r.id, 4) in t.events && t.events[(r.id, 4)].commitment == r.life.cleanup
  {
    EventRowsAre(t, r, 4);
    EventRowsAre(t, r, 2);
    assert t.events[(r.id, 3)] == EventAt(r, 3);
    assert t.events[(r.id, 4)] == EventAt(r, 4);
    var kinds, actors := Kinds(Audit(r, 4)), Actors(Audit(r, 4));
    assert kinds == [kinds[0], kinds[1], kinds[2], kinds[3]];
    assert actors == [actors[0], actors[1], actors[2], actors[3]];
  }

  /** The UNIQUE constraints of the terminal table see exactly the hashes the ledger holds. */
  predicate ResultRowTaken(results: map<nat, TerminalResult>, result: TerminalResult)
  {
    exists i :: i in results &&
      (results[i].resultHash == result.resultHash || results[i].signedHash == result.signedHash)
  }

  lemma ResultTakenIff(t: Tables, ledger: Ledger, result: TerminalResult)
    requires Represents(t, ledger)
    ensures ResultRowTaken(t.results, result) <==> ResultTaken(ledger, result)
  {
    if i :| i in t.results && (t.results[i].resultHash == result.resultHash || t.results[i].signedHash == result.signedHash) {
      assert Owned(t, ledger, i);
      var h := t.runs[i].key.profileHash;
      assert RecordMatches(t, ledger[h]);
    }
    if h :| h in ledger && LifeHoldsResult(ledger[h].life, result) {
      assert RecordMatches(t, ledger[h]);
    }
  }

  predicate PrivateRowTaken(privates: map<nat, PrivateRow>, run: PrivateRun)
  {
    exists i :: i in privates && (privates[i].rawRun == run.rawRun || privates[i].manifestHash == run.manifestHash)
  }

  lemma PrivateTakenIff(t: Tables, ledger: Ledger, run: PrivateRun)
    requires Represents(t, ledger)
    ensures PrivateRowTaken(t.privates, run) <==> RetentionTaken(ledger, run)
  {
    if i :| i in t.privates && (t.privates[i].rawRun == run.rawRun || t.privates[i].manifestHash == run.manifestHash) {
      assert Owned(t, ledger, i);
      var h := t.runs[i].key.profileHash;
      assert RecordMatches(t, ledger[h]);
    }
    if h :| h in ledger && LifeHoldsRun(ledger[h].life, run) {
      assert RecordMatches(t, ledger[h]);
    }
  }

  lemma RetainRepresents(t: Tables, ledger: Ledger, r: Record, run: PrivateRun)
    requires Represents(t, ledger) && Good(ledger) && r.key.profileHash in ledger && ledger[r.key.profileHash] == r
    requires r.life.Cleaned? && r.life.retained.None? && r.life.raw == run.rawOutput && r.life.cleanup == run.cleanup
    requires !RetentionTaken(ledger, run)
    ensures var next := r.(life := r.life.(retained := Some(run)));
      && Represents(t.(privates := t.privates[r.id := PrivateRowOf(run)], blobs := t.blobs[r.id := run.blobs]), Put(ledger, next))
      && Good(Put(ledger, next))
  {
    var next := r.(life := r.life.(retained := Some(run)));
    var t' := t.(privates := t.privates[r.id := PrivateRowOf(run)], blobs := t.blobs[r.id := run.blobs]);
    assert RecordMatches(t, ledger[r.key.profileHash]);
    assert EventsMatch(t', next) by {
      forall o: nat | 1 <= o <= EventCount(r.life) ensures EventAt(next, o) == EventAt(r, o) {}
    }
    PutRepresents(t, t', ledger, next);
    RetainFits(ledger, r, run);
    PutEvolves(ledger, next);
  }

  /** The record of a run once it has its result. */
  function Ended(r: Record, result: TerminalResult, at: Time, signedAt: Time): Record
    requires r.life.Cleaned? && r.life.retained.Some?
  {
    Advance(r, Terminal(r.life.raw, r.life.cleanup, r.life.retained.value, result), [at, signedAt])
  }

  /** The two events, the new stage and the result row. */
  function WithResult(t: Tables, id: nat, result: TerminalResult, at: Time, signedAt: Time): Tables
    requires id in t.runs
  {
    t.(runs := t.runs[id := t.runs[id].(stage := TERMINAL)],
       events := t.events[(id, 5) := Event(TerminalResultEvent, Runner, result.resultHash, at)]
                         [(id, 6) := Event(SignatureCommitment, Runner, result.signedHash, signedAt)],
       results := t.results[id := result])
  }

  lemma TerminalEvents(t: Tables, r: Record, result: TerminalResult, at: Time, signedAt: Time)
    requires RecordMatches(t, r) && r.life.Cleaned? && r.life.retained.Some?
    ensures r.id in t.runs && (r.id, 5) !in t.events && (r.id, 6) !in t.events && r.id !in t.results
    ensures Moved(t, WithResult(t, r.id, result, at, signedAt), r, Ended(r, result, at, signedAt))
  {
    var next := Ended(r, result, at, signedAt);
    assert EventAt(next, 5) == Event(TerminalResultEvent, Runner, result.resultHash, at);
    assert EventAt(next, 6) == Event(SignatureCommitment, Runner, result.signedHash, signedAt);
  }

  lemma TerminalRow(t: Tables, r: Record, result: TerminalResult, at: Time, signedAt: Time)
    requires r.id in t.runs && r.life.Cleaned? && r.life.retained.Some?
    ensures ResultMatches(WithResult(t, r.id, result, at, signedAt), Ended(r, result, at, signedAt))
    ensures Retained(Ended(r, result, at, signedAt).life) == Retained(r.life)
  {
  }

  lemma TerminalIsGood(ledger: Ledger, r: Record, result: TerminalResult, at: Time, signedAt: Time)
    requires Good(ledger) && r.key.profileHash in ledger && ledger[r.key.profileHash] == r
    requires r.life.Cleaned? && r.life.retained.Some? && !ResultTaken(ledger, result)
    ensures Good(Put(ledger, Ended(r, result, at, signedAt)))
  {
    TerminalFits(ledger, r, result, [at, signedAt]);
    PutEvolves(ledger, Ended(r, result, at, signedAt));
  }

  lemma TerminalRepresents(t: Tables, ledger: Ledger, r: Record, result: TerminalResult, at: Time, signedAt: Time)
    requires Represents(t, ledger) && r.key.profileHash in ledger && ledger[r.key.profileHash] == r
    requires r.life.Cleaned? && r.life.retained.Some?
    ensures r.id in t.runs && (r.id, 5) !in t.events && (r.id, 6) !in t.events && r.id !in t.results
    ensures Represents(WithResult(t, r.id, result, at, signedAt), Put(ledger, Ended(r, result, at, signedAt)))
  {
    assert RecordMatches(t, ledger[r.key.profileHash]);
    TerminalEvents(t, r, result, at, signedAt);
    TerminalRow(t, r, result, at, signedAt);
    MovedRepresents(t, WithResult(t, r.id, result, at, signedAt), ledger, r, Ended(r, result, at, signedAt));
  }

  lemma ProfileKnown(t: Tables, ledger: Ledger, h: Hash)
    requires Represents(t, ledger)
    ensures h in ledger ==> h in t.profiles
  {
    if h in ledger { assert RecordMatches(t, ledger[h]); }
  }

  lemma AdmitRepresents(t: Tables, ledger: Ledger, key: Key, document: Bytes, id: nat, at: Time)
    requires Represents(t, ledger) && Good(ledger) && key.profileHash !in ledger && id !in t.runs
    ensures key.profileHash !in t.profiles && (id, 1) !in t.events
    ensures var next := RunRecord(id, key, document, Admitted, [at]);
      && Represents(
          t.(profiles := t.profiles[key.profileHash := ProfileRow(key.claim, key.context, document)],
             runs := t.runs[id := RunRow(key, ADMITTED)],
             events := t.events[(id, 1) := Event(Admission, Broker, key.profileHash, at)]),
          Put(ledger, next))
      && Good(Put(ledger, next))
  {
    var next := RunRecord(id, key, document, Admitted, [at]);
    var t' := t.(profiles := t.profiles[key.profileHash := ProfileRow(key.claim, key.context, document)],
             runs := t.runs[id := RunRow(key, ADMITTED)],
             events := t.events[(id, 1) := Event(Admission, Broker, key.profileHash, at)]);
    assert forall k :: k in t.events ==> k.0 != id;
    assert EventsMatch(t', next) by {
      assert EventAt(next, 1) == Event(Admission, Broker, key.profileHash, at);
    }
    PutRepresents(t, t', ledger, next);
    PutEvolves(ledger, next);
  }

  class Database {
    const sha256: Bytes -> Hash

    var profiles: map<Hash, ProfileRow>
    var runs: map<nat, RunRow>
    var events: map<(nat, nat), Event>
    var results: map<nat, TerminalResult>
    var privates: map<nat, PrivateRow>
    var blobs: map<nat, seq<Blob>>
    var nextRunId: nat

    ghost var ledger: Ledger

    ghost function Snapshot(): Tables
      reads this
    {
      Tables(profiles, runs, events, results, privates, blobs)
    }

    ghost predicate Valid()
      reads this
    {
      && Represents(Snapshot(), ledger)
      && Good(ledger)
      && forall id :: id in runs ==> id < nextRunId
    }

    constructor (sha256: Bytes -> Hash)
      ensures Valid() && ledger == map[] && this.sha256 == sha256
    {
      this.sha256 := sha256;
      profiles, runs, events, results, privates, blobs := map[], map[], map[], map[], map[], map[];
      nextRunId := 1;
      ledger := map[];
    }

    /** `SELECT run_id, stage ... WHERE` the complete key matches. */
    method SelectRun(key: Key) returns (found: Option<nat>)
      requires Valid()
      ensures found.Some? <==> Holds(ledger, key)
      ensures found.Some? ==>
        (var r := ledger[key.profileHash];
         && found.value == r.id && r.id in runs && runs[r.id].stage == StageOf(r.life)
         && Kinds(EventRows(events, r.id, 6)) == StageKinds(StageOf(r.life)))
    {
      if Holds(ledger, key) {
        assert RecordMatches(Snapshot(), ledger[key.profileHash]);
        RecordFixesTrail(Snapshot(), ledger[key.profileHash]);
      }
      if id :| id in runs && runs[id].key == key {
        assert Owned(Snapshot(), ledger, id);
        assert RecordMatches(Snapshot(), ledger[key.profileHash]);
        found := Some(id);
      } else {
        found := None;
      }
    }

    /** The profile row was inserted, so no run carries its hash and the run row is inserted too. */
    method InsertRun(document: Bytes, key: Key, at: Time) returns (reply: Reply)
      requires Valid() && document != [] && ValidKey(key) && key.profileHash !in profiles
      modifies this
      ensures Valid() && nextRunId > old(nextRunId)
      ensures (ledger, reply) == Admit(old(ledger), key, document, old(nextRunId), at)
    {
      var id := nextRunId;
      ghost var t := Snapshot();
      ProfileKnown(t, ledger, key.profileHash);
      AdmitRepresents(t, ledger, key, document, id, at);
      profiles := profiles[key.profileHash := ProfileRow(key.claim, key.context, document)];
      nextRunId := nextRunId + 1;
      runs := runs[id := RunRow(key, ADMITTED)];
      events := events[(id, 1) := Event(Admission, Broker, key.profileHash, at)];
      ledger := Put(ledger, RunRecord(id, key, document, Admitted, [at]));
      assert Snapshot() == Tables(profiles, runs, events, t.results, t.privates, t.blobs);
      reply := Disposed(id, AdmittedNow);
    }

    method AdmitToolchainRun(document: Bytes, key: Key, at: Time) returns (reply: Reply)
      requires Valid()
      modifies this
      ensures Valid() && nextRunId >= old(nextRunId)
      ensures (ledger, reply) == Admit(old(ledger), key, document, old(nextRunId), at)
    {
      if document == [] || !ValidKey(key) {
        return Refused(InvalidArgument);
      }
      if key.profileHash !in profiles {
        reply := InsertRun(document, key, at);
        return;
      }
      assert RecordMatches(Snapshot(), ledger[key.profileHash]);
      if profiles[key.profileHash] != ProfileRow(key.claim, key.context, document) {
        return Refused(Different);
      }
      nextRunId := nextRunId + 1;  // the identity sequence moves even though the insert conflicts
      var found := SelectRun(key);
      assert found.Some?;
      if runs[found.value].stage == TERMINAL {
        if found.value !in results {
          return Refused(LacksPredecessor);
        }
        return Disposed(found.value, AlreadyTerminal(results[found.value].document));
      }
      reply := Disposed(found.value, Active);
    }

    /** The stage update and the event of one forward step. */
    method MoveOn(id: nat, stage: Stage, ordinal: nat, event: Event, ghost key: Key, ghost life: Life)
      requires Valid() && Holds(ledger, key) && ledger[key.profileHash].id == id
      requires EventCount(life) == EventCount(ledger[key.profileHash].life) + 1 && !life.Terminal? && Retained(life).None?
      requires LifeEvolves(ledger[key.profileHash].life, life)
      requires stage == StageOf(life) && ordinal == EventCount(life)
      requires event == EventAt(Advance(ledger[key.profileHash], life, [event.at]), ordinal)
      modifies this
      ensures Valid() && ledger == Put(old(ledger), Advance(old(ledger)[key.profileHash], life, [event.at]))
    {
      ghost var r, t := ledger[key.profileHash], Snapshot();
      WithEventRepresents(t, ledger, r, life, event.at);
      runs := runs[id := runs[id].(stage := stage)];
      events := events[(id, ordinal) := event];
      ledger := Put(ledger, Advance(r, life, [event.at]));
      assert Snapshot() == WithEvent(t, id, stage, ordinal, event);
    }

    method StartToolchainRun(key: Key, at: Time) returns (reply: Reply)
      requires Valid()
      modifies this
      ensures Valid()
      ensures (ledger, reply) == StartRun(old(ledger), key, at)
    {
      var found := SelectRun(key);
      if found.None? || runs[found.value].stage != ADMITTED {
        return Refused(WrongStage);
      }
      var id := found.value;
      assert RecordMatches(Snapshot(), ledger[key.profileHash]);
      assert events[(id, 1)] == EventAt(ledger[key.profileHash], 1);
      if !((id, 1) in events && events[(id, 1)].kind == Admission && events[(id, 1)].commitment == key.profileHash) {
        return Refused(LacksPredecessor);
      }
      MoveOn(id, STARTED, 2, Event(Start, Runner, key.profileHash, at), key, Started);
      reply := Done;
    }

    method CommitRawOutput(key: Key, commitment: Hash, at: Time) returns (reply: Reply)
      requires Valid()
      modifies this
      ensures Valid()
      ensures (ledger, reply) == CommitRaw(old(ledger), key, commitment, at)
    {
      if !IsDigest(commitment) {
        return Refused(InvalidArgument);
      }
      var found := SelectRun(key);
      if found.None? || runs[found.value].stage != STARTED {
        return Refused(WrongStage);
      }
      if Kinds(EventRows(events, found.value, 6)) != [Admission, Start] {
        return Refused(LacksPredecessor);
      }
      MoveOn(found.value, RAW_COMMITTED, 3, Event(RawOutputCommitment, Runner, commitment, at), key, RawCommitted(commitment));
      reply := Done;
    }

    method CommitCleanupHash(key: Key, commitment: Hash, at: Time) returns (reply: Reply)
      requires Valid()
      modifies this
      ensures Valid()
      ensures (ledger, reply) == CommitCleanup(old(ledger), key, commitment, at)
    {
      if !IsDigest(commitment) {
        return Refused(InvalidArgument);
      }
      var found := SelectRun(key);
      if found.None? || runs[found.value].stage != RAW_COMMITTED {
        return Refused(WrongStage);
      }
      if Kinds(EventRows(events, found.value, 6)) != [Admission, Start, RawOutputCommitment] {
        return Refused(LacksPredecessor);
      }
      MoveOn(found.value, CLEANED, 4, Event(Cleanup, Runner, commitment, at), key,
        Cleaned(ledger[key.profileHash].life.raw, commitment, None));
      reply := Done;
    }

    method ReadToolchainEventPrefix(key: Key) returns (reply: Reply)
      requires Valid()
      ensures reply == ReadPrefix(ledger, key)
    {
      if !ValidKey(key) {
        return Refused(InvalidArgument);
      }
      var found := SelectRun(key);
      if found.None? || !(runs[found.value].stage == CLEANED || runs[found.value].stage == TERMINAL) {
        return Refused(WrongStage);
      }
      assert RecordMatches(Snapshot(), ledger[key.profileHash]);
      PrefixRows(Snapshot(), ledger[key.profileHash]);
      if !PrefixInOrder(events, found.value, key.profileHash) {
        return Refused(LacksPredecessor);
      }
      reply := Rows(found.value, EventRows(events, found.value, 4));
    }

    /** Insert the private run and its blobs; the pairs are distinct, so no blob constraint can fire. */
    method InsertPrivateRun(key: Key, id: nat, run: PrivateRun) returns (reply: Reply)
      requires Valid() && Holds(ledger, key) && ledger[key.profileHash].id == id
      requires ledger[key.profileHash].life == Cleaned(run.rawOutput, run.cleanup, None)
      requires Ordered(run.blobs)
      modifies this
      ensures Valid()
      ensures if RetentionTaken(old(ledger), run) then ledger == old(ledger) && reply == Refused(UniqueViolation)
              else ledger == Put(old(ledger), old(ledger)[key.profileHash].(life := Cleaned(run.rawOutput, run.cleanup, Some(run))))
                   && reply == ReceiptFor(run)
    {
      ghost var r, t := ledger[key.profileHash], Snapshot();
      PrivateTakenIff(t, ledger, run);
      if PrivateRowTaken(privates, run) {
        return Refused(UniqueViolation);
      }
      forall i: nat, j: nat | i < j < |run.blobs|
        ensures (run.blobs[i].role, run.blobs[i].name) != (run.blobs[j].role, run.blobs[j].name)
      {
        OrderedPairsDistinct(run.blobs, i, j);
      }
      RetainRepresents(t, ledger, r, run);
      privates := privates[id := PrivateRowOf(run)];
      blobs := blobs[id := run.blobs];
      ledger := Put(ledger, r.(life := Cleaned(run.rawOutput, run.cleanup, Some(run))));
      reply := Receipt(run.rawRun, run.manifestHash, run.prefix);
    }

    /** `run.blobs` are the rows of the five parallel arrays. */
    method RetainToolchainPrivateRun(key: Key, run: PrivateRun) returns (reply: Reply)
      requires Valid()
      modifies this
      ensures Valid()
      ensures (ledger, reply) == Retain(sha256, old(ledger), key, run)
    {
      if !ValidKey(key) || !IsDigest(run.rawOutput) || !IsDigest(run.cleanup) || !IsDigest(run.prefix)
        || !IsDigest(run.rawRun) || !IsDigest(run.manifestHash) || run.manifest == []
        || run.manifestHash != sha256(run.manifest) || run.blobs == [] {
        return Refused(InvalidArgument);
      }
      var admissible := CheckBlobArrays(sha256, run.prefix, run.blobs);
      if !admissible {
        return Refused(InvalidArgument);
      }
      reply := RetainChecked(key, run);
    }

    /** The part of retention that looks at the run, after the arguments passed. */
    method RetainChecked(key: Key, run: PrivateRun) returns (reply: Reply)
      requires Valid() && ValidRetention(sha256, key, run)
      modifies this
      ensures Valid()
      ensures (ledger, reply) == Retain(sha256, old(ledger), key, run)
    {
      var found := SelectRun(key);
      if found.None? || !(runs[found.value].stage == CLEANED || runs[found.value].stage == TERMINAL) {
        return Refused(WrongStage);
      }
      var id := found.value;
      assert RecordMatches(Snapshot(), ledger[key.profileHash]);
      PrefixRows(Snapshot(), ledger[key.profileHash]);
      if !PrefixInOrder(events, id, key.profileHash)
        || events[(id, 3)].commitment != run.rawOutput || events[(id, 4)].commitment != run.cleanup {
        return Refused(WrongCommitments);
      }
      if id in privates {
        if privates[id] != PrivateRowOf(run) || id !in blobs || blobs[id] != run.blobs {
          return Refused(Different);
        }
        return Receipt(privates[id].rawRun, privates[id].manifestHash, privates[id].prefix);
      }
      if runs[id].stage != CLEANED
        || Kinds(EventRows(events, id, 6)) != [Admission, Start, RawOutputCommitment, Cleanup] {
        return Refused(LacksPredecessor);
      }
      reply := InsertPrivateRun(key, id, run);
    }

    /** The inserts and the stage update that end a run. */
    method InsertResult(key: Key, id: nat, result: TerminalResult, at: Time, signedAt: Time) returns (reply: Reply)
      requires Valid() && Holds(ledger, key) && ledger[key.profileHash].id == id
      requires ledger[key.profileHash].life.Cleaned? && ledger[key.profileHash].life.retained.Some?
      modifies this
      ensures Valid()
      ensures var r := old(ledger)[key.profileHash];
        if ResultTaken(old(ledger), result) then ledger == old(ledger) && reply == Refused(UniqueViolation)
        else
          && ledger == Put(old(ledger),
               Advance(r, Terminal(r.life.raw, r.life.cleanup, r.life.retained.value, result), [at, signedAt]))
          && reply == Document(Some(result.document))
    {
      ghost var r, t := ledger[key.profileHash], Snapshot();
      assert RecordMatches(t, ledger[key.profileHash]);
      ResultTakenIff(t, ledger, result);
      if ResultRowTaken(results, result) {
        return Refused(UniqueViolation);
      }
      events := events[(id, 5) := Event(TerminalResultEvent, Runner, result.resultHash, at)];
      events := events[(id, 6) := Event(SignatureCommitment, Runner, result.signedHash, signedAt)];
      results := results[id := result];
      runs := runs[id := runs[id].(stage := TERMINAL)];
      TerminalRepresents(t, ledger, r, result, at, signedAt);
      TerminalIsGood(ledger, r, result, at, signedAt);
      ledger := Put(ledger,
        Advance(r, Terminal(r.life.raw, r.life.cleanup, r.life.retained.value, result), [at, signedAt]));
      reply := Document(Some(result.document));
    }

    method CommitTerminalResult(key: Key, result: TerminalResult, at: Time, signedAt: Time) returns (reply: Reply)
      requires Valid()
      modifies this
      ensures Valid()
      ensures (ledger, reply) == CommitTerminal(old(ledger), key, result, at, signedAt)
    {
      if !ValidResult(result) {
        return Refused(InvalidArgument);
      }
      var found := SelectRun(key);
      if found.None? || !(runs[found.value].stage == CLEANED || runs[found.value].stage == TERMINAL) {
        return Refused(WrongStage);
      }
      var id := found.value;
      assert RecordMatches(Snapshot(), ledger[key.profileHash]);
      if id !in privates {
        return Refused(LacksPrivateRun);
      }
      if runs[id].stage == TERMINAL {
        if id !in results || results[id] != result {
          return Refused(Different);
        }
        if Kinds(EventRows(events, id, 6)) != StageKinds(TERMINAL) {
          return Refused(LacksPredecessor);
        }
        return Document(Some(results[id].document));
      }
      if Kinds(EventRows(events, id, 6)) != [Admission, Start, RawOutputCommitment, Cleanup] {
        return Refused(LacksPredecessor);
      }
      reply := InsertResult(key, id, result, at, signedAt);
    }

    method ReadToolchainTerminal(key: Key) returns (reply: Reply)
      requires Valid()
      ensures reply == ReadTerminal(ledger, key)
    {
      var found := SelectRun(key);
      if found.Some? {
        assert RecordMatches(Snapshot(), ledger[key.profileHash]);
      }
      if found.Some? && runs[found.value].stage == TERMINAL && found.value in results {
        return Document(Some(results[found.value].document));
      }
      reply := Document(None);
    }
  }
}
