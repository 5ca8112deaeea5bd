/** The PostgreSQL tables of the qualification runs. */
module QualificationTables {
  /*
   What the five tables hold for a ledger. Each SQL function is one transaction: it commits everything or
   raises and changes nothing. Every function is proved to be the corresponding ledger step, which means
   that its internal "lacks its exact predecessor" tests never fire.
   */

  import opened QualificationBlobs
  import opened QualificationLedger

  datatype Stage = ADMITTED | STARTED | RAW_COMMITTED | CLEANED | TERMINAL

  datatype ProfileRow = ProfileRow(claim: string, context: Hash, document: Bytes)

  datatype RunRow = RunRow(key: Key, stage: Stage)

  datatype PrivateRow = PrivateRow(
    rawOutput: Hash, cleanup: Hash, prefix: Hash, rawRun: Hash, manifestHash: Hash, manifest: Bytes)

  /**
   The six tables. Events are keyed by run and ordinal; the blobs of a run are listed in ordinal order.
   */
  datatype Tables = Tables(
    profiles: map<Hash, ProfileRow>,
    runs: map<nat, RunRow>,
    events: map<(nat, nat), Event>,
    results: map<nat, TerminalResult>,
    privates: map<nat, PrivateRow>,
    blobs: map<nat, seq<Blob>>)

  function StageOf(life: Life): Stage
  {
    match life
    case Admitted => ADMITTED
    case Started => STARTED
    case RawCommitted(_) => RAW_COMMITTED
    case Cleaned(_, _, _) => CLEANED
    case Terminal(_, _, _, _) => TERMINAL
  }

  function PrivateRowOf(run: PrivateRun): PrivateRow
  {
    PrivateRow(run.rawOutput, run.cleanup, run.prefix, run.rawRun, run.manifestHash, run.manifest)
  }

  // ---- what the tables hold for one record ----

  ghost predicate EventsMatch(t: Tables, r: Record)
  {
    && (forall o: nat :: (r.id, o) in t.events <==> 1 <= o <= EventCount(r.life))
    && (forall o: nat :: 1 <= o <= EventCount(r.life) ==> t.events[(r.id, o)] == EventAt(r, o))
  }

  ghost predicate ResultMatches(t: Tables, r: Record)
  {
    if r.life.Terminal? then r.id in t.results && t.results[r.id] == r.life.result else r.id !in t.results
  }

  ghost predicate PrivateMatches(t: Tables, r: Record)
  {
    if Retained(r.life).Some? then
      && r.id in t.privates && t.privates[r.id] == PrivateRowOf(Retained(r.life).value)
      && r.id in t.blobs && t.blobs[r.id] == Retained(r.life).value.blobs
    else
      r.id !in t.privates && r.id !in t.blobs
  }

  ghost predicate RunMatches(t: Tables, r: Record)
  {
    && r.key.profileHash in t.profiles
    && t.profiles[r.key.profileHash] == ProfileRow(r.key.claim, r.key.context, r.document)
    && r.id in t.runs && t.runs[r.id] == RunRow(r.key, StageOf(r.life))
  }

  ghost predicate RecordMatches(t: Tables, r: Record)
  {
    RunMatches(t, r) && EventsMatch(t, r) && ResultMatches(t, r) && PrivateMatches(t, r)
  }

  /** The run row with this id belongs to the ledger's record of its profile. */
  ghost predicate Owned(t: Tables, ledger: Ledger, id: nat)
    requires id in t.runs
  {
    t.runs[id].key.profileHash in ledger && ledger[t.runs[id].key.profileHash].id == id
  }

  /** Six tables and one ledger describe the same runs. */
  ghost predicate Represents(t: Tables, ledger: Ledger)
  {
    && (forall h {:trigger RecordMatches(t, ledger[h])} :: h in ledger ==>
          ledger[h].key.profileHash == h && RecordMatches(t, ledger[h]))
    && (forall id {:trigger Owned(t, ledger, id)} :: id in t.runs ==> Owned(t, ledger, id))
    && (forall h :: h in t.profiles ==> h in ledger)
    && (forall k :: k in t.events ==> k.0 in t.runs)
    && t.results.Keys <= t.runs.Keys && t.privates.Keys <= t.runs.Keys && t.blobs.Keys <= t.runs.Keys
  }

  // ---- reading the audit trail ----

  /** `array_agg(... ORDER BY ordinal)` over the events of one run with `ordinal BETWEEN 1 AND hi`. */
  function EventRows(events: map<(nat, nat), Event>, id: nat, hi: nat): seq<Event>
  {
    if hi == 0 then []
    else EventRows(events, id, hi - 1) + if (id, hi) in events then [events[(id, hi)]] else []
  }

  function Kinds(events: seq<Event>): (r: seq<EventKind>)
    ensures |r| == |events| && forall i :: 0 <= i < |r| ==> r[i] == events[i].kind
  {
    seq(|events|, i requires 0 <= i < |events| => events[i].kind)
  }

  function Actors(events: seq<Event>): (r: seq<Actor>)
    ensures |r| == |events| && forall i :: 0 <= i < |r| ==> r[i] == events[i].actor
  {
    seq(|events|, i requires 0 <= i < |events| => events[i].actor)
  }

  function Commitments(events: seq<Event>): (r: seq<Hash>)
    ensures |r| == |events| && forall i :: 0 <= i < |r| ==> r[i] == events[i].commitment
  {
    seq(|events|, i requires 0 <= i < |events| => events[i].commitment)
  }

  function Least(a: nat, b: nat): nat
  {
    if a < b then a else b
  }

  /** The stored events of a run are exactly the audit trail its stage prescribes. */
  lemma {:induction false} EventRowsAre(t: Tables, r: Record, hi: nat)
    requires EventsMatch(t, r)
    ensures EventRows(t.events, r.id, hi) == Audit(r, Least(hi, EventCount(r.life)))
  {
    if hi > 0 {
      EventRowsAre(t, r, hi - 1);
      if hi <= EventCount(r.life) {
        assert t.events[(r.id, hi)] == EventAt(r, hi);
      }
    }
  }

  /** The kinds, actors and ordinals an auditor reads in each stage. */
  function StageKinds(stage: Stage): seq<EventKind>
  {
    match stage
    case ADMITTED => [Admission]
    case STARTED => [Admission, Start]
    case RAW_COMMITTED => [Admission, Start, RawOutputCommitment]
    case CLEANED => [Admission, Start, RawOutputCommitment, Cleanup]
    case TERMINAL =>
      [Admission, Start, RawOutputCommitment, Cleanup, TerminalResultEvent, SignatureCommitment]
  }

  lemma AuditShape(r: Record)
    ensures var events := Audit(r, EventCount(r.life));
      && Kinds(events) == StageKinds(StageOf(r.life))
      && (forall i :: 0 <= i < |events| ==> events[i].actor == if i == 0 then Broker else Runner)
      && (forall i :: 0 <= i < |events| && i < 2 ==> events[i].commitment == r.key.profileHash)
  {
  }

  ghost predicate TrailMatchesStage(t: Tables, id: nat)
    requires id in t.runs
  {
    var events := EventRows(t.events, id, 6);
    && Kinds(events) == StageKinds(t.runs[id].stage)
    && (forall i :: 0 <= i < |events| ==> events[i].actor == if i == 0 then Broker else Runner)
    && (forall i :: 0 <= i < |events| && i < 2 ==> events[i].commitment == t.runs[id].key.profileHash)
  }

  ghost predicate RowsMatchTrail(t: Tables, id: nat)
    requires id in t.runs
  {
    var events := EventRows(t.events, id, 6);
    && (id in t.privates ==>
          (&& |events| >= 4
           && t.privates[id].rawOutput == events[2].commitment
           && t.privates[id].cleanup == events[3].commitment))
    && (t.runs[id].stage == TERMINAL <==> id in t.results)
    && (t.runs[id].stage == TERMINAL ==>
          (&& id in t.privates && |events| == 6
           && t.results[id].resultHash == events[4].commitment
           && t.results[id].signedHash == events[5].commitment))
  }

  lemma RecordFixesTrail(t: Tables, r: Record)
    requires RecordMatches(t, r)
    ensures TrailMatchesStage(t, r.id)
  {
    EventRowsAre(t, r, 6);
    AuditShape(r);
  }

  lemma RecordFixesRows(t: Tables, r: Record)
    requires RecordMatches(t, r) && GoodRecord(r)
    ensures RowsMatchTrail(t, r.id)
  {
    EventRowsAre(t, r, 6);
  }

  /**
   In every represented state the stage of a run fixes its audit trail, private run and result:
   events one and two commit to the profile, a private run exists from CLEANED on only and matches
   events three and four, and TERMINAL implies a private run and a result matching events five and six.
   */
  lemma StageFixesEverything(t: Tables, ledger: Ledger, id: nat)
    requires Represents(t, ledger) && Good(ledger) && id in t.runs
    ensures TrailMatchesStage(t, id) && RowsMatchTrail(t, id)
  {
    assert Owned(t, ledger, id);
    RecordFixesTrail(t, ledger[t.runs[id].key.profileHash]);
    RecordFixesRows(t, ledger[t.runs[id].key.profileHash]);
  }

  /** The stage is a faithful summary: different stages never show the same event kinds. */
  lemma StagesAreDistinguished(a: Stage, b: Stage)
    requires StageKinds(a) == StageKinds(b)
    ensures a == b
  {
    assert |StageKinds(a)| == |StageKinds(b)|;
  }
}
