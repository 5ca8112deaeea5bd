/** What the tables hold after any calls, told by the calls that were accepted. */
module TablesHistory {
  import opened Common
  import opened QualificationBlobs
  import opened QualificationLedger
  import opened QualificationTables
  import opened QualificationHistory

  predicate RowIs(t: Tables, id: nat, ordinal: nat, event: Event)
  {
    (id, ordinal) in t.events && t.events[(id, ordinal)] == event
  }

  /** The run's profile, run and first event are those of its admission. */
  ghost predicate AdmissionIsStored(t: Tables, log: seq<Exchange>, id: nat)
    requires id in t.runs
  {
    exists document, at :: var key := t.runs[id].key;
      && WasAdmitted(log, key, document, id, at)
      && key.profileHash in t.profiles && t.profiles[key.profileHash] == ProfileRow(key.claim, key.context, document)
      && RowIs(t, id, 1, Event(Admission, Broker, key.profileHash, at))
  }

  ghost predicate StartIsStored(t: Tables, log: seq<Exchange>, id: nat)
    requires id in t.runs
  {
    var key := t.runs[id].key;
    if (id, 2) in t.events then exists at :: WasStarted(log, key, at) && RowIs(t, id, 2, Event(Start, Runner, key.profileHash, at))
    else t.runs[id].stage == ADMITTED && forall at :: !WasStarted(log, key, at)
  }

  ghost predicate RawIsStored(t: Tables, log: seq<Exchange>, id: nat)
    requires id in t.runs
  {
    var key := t.runs[id].key;
    if (id, 3) in t.events then
      exists raw, at :: WasCommitted(log, key, raw, at) && RowIs(t, id, 3, Event(RawOutputCommitment, Runner, raw, at))
    else t.runs[id].stage in {ADMITTED, STARTED} && forall raw, at :: !WasCommitted(log, key, raw, at)
  }

  ghost predicate CleanupIsStored(t: Tables, log: seq<Exchange>, id: nat)
    requires id in t.runs
  {
    var key := t.runs[id].key;
    if (id, 4) in t.events then
      exists cleanup, at :: WasCleaned(log, key, cleanup, at) && RowIs(t, id, 4, Event(Cleanup, Runner, cleanup, at))
    else t.runs[id].stage in {ADMITTED, STARTED, RAW_COMMITTED} && forall cleanup, at :: !WasCleaned(log, key, cleanup, at)
  }

  ghost predicate PrivateIsStored(t: Tables, log: seq<Exchange>, id: nat)
    requires id in t.runs
  {
    var key := t.runs[id].key;
    if id in t.privates then
      && id in t.blobs
      && var row := t.privates[id];
         WasRetained(log, key,
           PrivateRun(row.rawOutput, row.cleanup, row.prefix, row.rawRun, row.manifestHash, row.manifest, t.blobs[id]))
    else id !in t.blobs && forall run :: !WasRetained(log, key, run)
  }

  /** The result, and its two events: first the hash of the result, then that of the signed document. */
  ghost predicate ResultIsStored(t: Tables, log: seq<Exchange>, id: nat)
    requires id in t.runs
  {
    var key := t.runs[id].key;
    if id in t.results then
      && t.runs[id].stage == TERMINAL
      && exists at, signedAt ::
           && WasEndedAt(log, key, t.results[id], at, signedAt)
           && RowIs(t, id, 5, Event(TerminalResultEvent, Runner, t.results[id].resultHash, at))
           && RowIs(t, id, 6, Event(SignatureCommitment, Runner, t.results[id].signedHash, signedAt))
    else
      && (id, 5) !in t.events && (id, 6) !in t.events && t.runs[id].stage != TERMINAL
      && forall result :: !WasEnded(log, key, result)
  }

  /** Every row of the run was written by an accepted call, and no accepted call left none. */
  ghost predicate RunIsStored(t: Tables, log: seq<Exchange>, id: nat)
    requires id in t.runs
  {
    && AdmissionIsStored(t, log, id) && StartIsStored(t, log, id) && RawIsStored(t, log, id) && CleanupIsStored(t, log, id)
    && PrivateIsStored(t, log, id) && ResultIsStored(t, log, id)
  }

  lemma FirstRowsAreStored(t: Tables, ledger: Ledger, log: seq<Exchange>, r: Record)
    requires Agree(ledger, log) && r.key.profileHash in ledger && ledger[r.key.profileHash] == r && RecordMatches(t, r)
    ensures AdmissionIsStored(t, log, r.id) && StartIsStored(t, log, r.id)
  {
    HeldIsAdmitted(ledger, log, r.key.profileHash);
    assert RowIs(t, r.id, 1, Event(Admission, Broker, r.key.profileHash, r.times[0]));
    if (r.id, 2) in t.events {
      assert RowIs(t, r.id, 2, Event(Start, Runner, r.key.profileHash, r.times[1]));
    }
    forall at | WasStarted(log, r.key, at) ensures EventCount(r.life) >= 2 { StartedIs(ledger, log, r.key, at); }
  }

  lemma CommitmentsAreStored(t: Tables, ledger: Ledger, log: seq<Exchange>, r: Record)
    requires Agree(ledger, log) && r.key.profileHash in ledger && ledger[r.key.profileHash] == r && RecordMatches(t, r)
    ensures RawIsStored(t, log, r.id) && CleanupIsStored(t, log, r.id)
  {
    HeldIsAdmitted(ledger, log, r.key.profileHash);
    if (r.id, 3) in t.events {
      assert RowIs(t, r.id, 3, Event(RawOutputCommitment, Runner, r.life.raw, r.times[2]));
    }
    if (r.id, 4) in t.events {
      assert RowIs(t, r.id, 4, Event(Cleanup, Runner, r.life.cleanup, r.times[3]));
    }
    forall raw, at | WasCommitted(log, r.key, raw, at) ensures EventCount(r.life) >= 3 { CommittedIs(ledger, log, r.key, raw, at); }
    forall cleanup, at | WasCleaned(log, r.key, cleanup, at) ensures EventCount(r.life) >= 4 {
      CleanedIs(ledger, log, r.key, cleanup, at);
    }
  }

  lemma LastRowsAreStored(t: Tables, ledger: Ledger, log: seq<Exchange>, r: Record)
    requires Agree(ledger, log) && r.key.profileHash in ledger && ledger[r.key.profileHash] == r && RecordMatches(t, r)
    ensures PrivateIsStored(t, log, r.id) && ResultIsStored(t, log, r.id)
  {
    HeldIsAdmitted(ledger, log, r.key.profileHash);
    if r.id in t.results {
      assert RowIs(t, r.id, 5, Event(TerminalResultEvent, Runner, t.results[r.id].resultHash, r.times[4]));
      assert RowIs(t, r.id, 6, Event(SignatureCommitment, Runner, t.results[r.id].signedHash, r.times[5]));
    }
    forall run | WasRetained(log, r.key, run) ensures Retained(r.life) == Some(run) { RetainedIs(ledger, log, r.key, run); }
    forall result | WasEnded(log, r.key, result) ensures r.life.Terminal? { EndedIs(ledger, log, r.key, result); }
  }

  /**
   Whatever was called, every stored run is told by the accepted calls: its admission, start, commitments, private run
   and result, with actor, commitment and time of each event; and every admission has its run.
   */
  lemma TablesAreTold(sha256: Bytes -> Hash, calls: seq<Call>, t: Tables)
    requires Represents(t, After(sha256, map[], calls))
    ensures forall id {:trigger RunIsStored(t, Log(sha256, calls), id)} :: id in t.runs ==> RunIsStored(t, Log(sha256, calls), id)
    ensures forall key, document, id, at :: WasAdmitted(Log(sha256, calls), key, document, id, at) ==>
              id in t.runs && t.runs[id].key == key
  {
    var ledger, log := LedgerAfter(sha256, calls), Log(sha256, calls);
    HistoryIsTold(sha256, calls);
    LogLedgerIsAfter(sha256, calls);
    forall id | id in t.runs ensures RunIsStored(t, log, id) {
      assert Owned(t, ledger, id);
      var r := ledger[t.runs[id].key.profileHash];
      assert RecordMatches(t, ledger[t.runs[id].key.profileHash]);
      FirstRowsAreStored(t, ledger, log, r);
      CommitmentsAreStored(t, ledger, log, r);
      LastRowsAreStored(t, ledger, log, r);
    }
    forall key, document, id, at | WasAdmitted(log, key, document, id, at) ensures id in t.runs && t.runs[id].key == key {
      AdmittedIs(ledger, log, key, document, id, at);
      assert RecordMatches(t, ledger[key.profileHash]);
    }
  }
}
