/** The two independent checks of a run's blob list. */
module QualificationBlobs {
  /*
   The client compares tuples and keeps a set of seen pairs; the database carries two scalars through its
   loop. Both loops accept only strictly ordered lists.
   */

  import opened Common
  import opened TextOrder
  import opened Sequences

  type Bytes = seq<byte>
  type Hash = string

  datatype Role =
    | Profile | ContextFile | BuildRequest | Stdout | Stderr | NetworkObservation | RuntimeObservation
    | RequiredOutput | RawOutputManifest | AdapterCleanupObservation | CleanupObservation
    | FailureObservation | PostgresEventPrefix
    | UnknownRole(text: string)

  datatype Blob = Blob(role: Role, name: string, hash: Hash, size: int, content: Bytes)

  /** The client's role tuple. */
  const PRIVATE_BLOB_ROLES: seq<Role> := [
    Profile, ContextFile, BuildRequest, Stdout, Stderr, NetworkObservation, RuntimeObservation,
    RequiredOutput, RawOutputManifest, AdapterCleanupObservation, CleanupObservation,
    FailureObservation, PostgresEventPrefix]

  const SINGLETON_ROLES: set<Role> := {
    Profile, Stdout, Stderr, NetworkObservation, RuntimeObservation, RawOutputManifest,
    AdapterCleanupObservation, CleanupObservation, FailureObservation, PostgresEventPrefix}

  /** The database's CASE expression; zero is "not a role". */
  function RoleOrder(role: Role): nat
  {
    match role
    case Profile => 1
    case ContextFile => 2
    case BuildRequest => 3
    case Stdout => 4
    case Stderr => 5
    case NetworkObservation => 6
    case RuntimeObservation => 7
    case RequiredOutput => 8
    case RawOutputManifest => 9
    case AdapterCleanupObservation => 10
    case CleanupObservation => 11
    case FailureObservation => 12
    case PostgresEventPrefix => 13
    case UnknownRole(_) => 0
  }

  /** The client numbers its tuple from one; the database numbers the same roles the same way, and no others. */
  lemma RoleNumbersAgree(role: Role)
    ensures role in PRIVATE_BLOB_ROLES <==> RoleOrder(role) != 0
    ensures RoleOrder(role) <= |PRIVATE_BLOB_ROLES|
    ensures role in PRIVATE_BLOB_ROLES ==> PRIVATE_BLOB_ROLES[RoleOrder(role) - 1] == role
  {
    var roles := PRIVATE_BLOB_ROLES;
    assert forall i :: 0 <= i < |roles| ==> RoleOrder(roles[i]) == i + 1;
  }

  // ---- names and digests ----

  predicate Ascii(text: string)
  {
    forall i :: 0 <= i < |text| ==> text[i] as int < 128
  }

  predicate HexText(text: string)
  {
    forall i :: 0 <= i < |text| ==> '0' <= text[i] <= '9' || 'a' <= text[i] <= 'f'
  }

  /** `^sha256:[0-9a-f]{64}$` */
  predicate IsDigest(text: string)
  {
    |text| == 71 && text[..7] == "sha256:" && HexText(text[7..])
  }

  // ---- the strict order of blobs ----

  predicate BlobBefore(a: Blob, b: Blob)
  {
    RoleOrder(a.role) < RoleOrder(b.role) || (RoleOrder(a.role) == RoleOrder(b.role) && Before(a.name, b.name))
  }

  lemma BlobBeforeTransitive(a: Blob, b: Blob, c: Blob)
    requires BlobBefore(a, b) && BlobBefore(b, c)
    ensures BlobBefore(a, c)
  {
    if RoleOrder(a.role) == RoleOrder(b.role) == RoleOrder(c.role) {
      BeforeTransitive(a.name, b.name, c.name);
    }
  }

  predicate Ordered(blobs: seq<Blob>)
  {
    forall i, j :: 0 <= i < j < |blobs| ==> BlobBefore(blobs[i], blobs[j])
  }

  /** The order alone keeps role/name pairs apart, so a duplicate test behind it cannot fire. */
  lemma OrderedPairsDistinct(blobs: seq<Blob>, i: nat, j: nat)
    requires Ordered(blobs) && i < j < |blobs|
    ensures (blobs[i].role, blobs[i].name) != (blobs[j].role, blobs[j].name)
  {
    assert BlobBefore(blobs[i], blobs[j]);
    BeforeIrreflexive(blobs[i].name);
  }

  lemma NotBothBefore(a: Blob, b: Blob)
    requires BlobBefore(a, b)
    ensures a != b && !BlobBefore(b, a)
  {
    BeforeIrreflexive(a.name);
    if BlobBefore(b, a) { BlobBeforeTransitive(a, b, a); }
  }

  /** An ordered list is determined by its elements: two ordered arrangements of one blob set are equal. */
  lemma OrderedBlobsAreCanonical(a: seq<Blob>, b: seq<Blob>)
    requires Ordered(a) && Ordered(b) && forall x :: x in a <==> x in b
    ensures a == b
  {
    forall x, y | BlobBefore(x, y) ensures !BlobBefore(y, x) {
      NotBothBefore(x, y);
    }
    OrderedIsCanonical(a, b, BlobBefore);
  }

  // ---- what retention admits ----

  predicate BlobShape(sha256: Bytes -> Hash, b: Blob)
  {
    && RoleOrder(b.role) != 0
    && b.name != "" && Ascii(b.name)
    && IsDigest(b.hash)
    && b.size == |b.content|
    && b.hash == sha256(b.content)
  }

  predicate PrefixBlob(prefixHash: Hash, b: Blob)
  {
    b.role == PostgresEventPrefix ==> b.hash == prefixHash && b.content != []
  }

  /** The blobs of one role, in list order. */
  function ByRole(blobs: seq<Blob>, role: Role): seq<Blob>
  {
    if blobs == [] then []
    else
      var last := blobs[|blobs| - 1];
      ByRole(blobs[..|blobs| - 1], role) + if last.role == role then [last] else []
  }

  lemma {:induction false} ByRoleMembers(blobs: seq<Blob>, role: Role)
    ensures forall b :: b in ByRole(blobs, role) <==> b in blobs && b.role == role
  {
    if blobs != [] {
      var front := blobs[..|blobs| - 1];
      ByRoleMembers(front, role);
      assert blobs == front + [blobs[|blobs| - 1]];
    }
  }

  /** The database loop's counter of event-prefix blobs. */
  function PrefixCount(blobs: seq<Blob>): nat
  {
    if blobs == [] then 0
    else PrefixCount(blobs[..|blobs| - 1]) + if blobs[|blobs| - 1].role == PostgresEventPrefix then 1 else 0
  }

  lemma {:induction false} CountIsByRole(blobs: seq<Blob>)
    ensures PrefixCount(blobs) == |ByRole(blobs, PostgresEventPrefix)|
  {
    if blobs != [] { CountIsByRole(blobs[..|blobs| - 1]); }
  }

  /** Every blob is well formed and the list is strictly ordered. */
  predicate Passing(sha256: Bytes -> Hash, prefixHash: Hash, blobs: seq<Blob>)
  {
    && (forall i :: 0 <= i < |blobs| ==> BlobShape(sha256, blobs[i]) && PrefixBlob(prefixHash, blobs[i]))
    && Ordered(blobs)
  }

  predicate Admissible(sha256: Bytes -> Hash, prefixHash: Hash, blobs: seq<Blob>)
  {
    blobs != [] && Passing(sha256, prefixHash, blobs) && PrefixCount(blobs) == 1
  }

  lemma PassingSnoc(sha256: Bytes -> Hash, prefixHash: Hash, blobs: seq<Blob>, b: Blob)
    requires Passing(sha256, prefixHash, blobs)
    ensures Passing(sha256, prefixHash, blobs + [b]) <==>
      && BlobShape(sha256, b) && PrefixBlob(prefixHash, b)
      && (blobs == [] || BlobBefore(blobs[|blobs| - 1], b))
  {
    OrderedSnoc(blobs, b);
    assert (blobs + [b])[|blobs|] == b;
  }

  lemma PassingPrefix(sha256: Bytes -> Hash, prefixHash: Hash, blobs: seq<Blob>, k: nat)
    requires k <= |blobs| && Passing(sha256, prefixHash, blobs)
    ensures Passing(sha256, prefixHash, blobs[..k])
  {
    forall i, j | 0 <= i < j < k ensures BlobBefore(blobs[..k][i], blobs[..k][j]) {
      assert BlobBefore(blobs[i], blobs[j]);
    }
  }

  lemma OrderedSnoc(blobs: seq<Blob>, b: Blob)
    requires Ordered(blobs)
    ensures Ordered(blobs + [b]) <==> blobs == [] || BlobBefore(blobs[|blobs| - 1], b)
  {
    var more := blobs + [b];
    if blobs != [] {
      var last := |blobs| - 1;
      assert more[last] == blobs[last] && more[last + 1] == b;
      if BlobBefore(blobs[last], b) {
        forall i | 0 <= i < last ensures BlobBefore(more[i], b) {
          BlobBeforeTransitive(blobs[i], blobs[last], b);
        }
      } else {
        assert !BlobBefore(more[last], more[last + 1]);
      }
    }
  }

  /** The database loop over the blob arrays. */
  method CheckBlobArrays(sha256: Bytes -> Hash, prefixHash: Hash, blobs: seq<Blob>) returns (ok: bool)
    requires blobs != []
    ensures ok <==> Admissible(sha256, prefixHash, blobs)
  {
    var previousOrder := 0;
    var previousName := "";
    var prefixes := 0;
    for i := 0 to |blobs|
      invariant Passing(sha256, prefixHash, blobs[..i])
      invariant prefixes == PrefixCount(blobs[..i])
      invariant previousOrder == if i == 0 then 0 else RoleOrder(blobs[i - 1].role)
      invariant i > 0 ==> previousName == blobs[i - 1].name
    {
      var b := blobs[i];
      var order := RoleOrder(b.role);
      assert blobs[..i + 1] == blobs[..i] + [b];
      PassingSnoc(sha256, prefixHash, blobs[..i], b);
      if Passing(sha256, prefixHash, blobs) { PassingPrefix(sha256, prefixHash, blobs, i + 1); }
      if !BlobShape(sha256, b) {
        return false;
      }
      if order < previousOrder || (order == previousOrder && !Before(previousName, b.name)) {
        return false;
      }
      if b.role == PostgresEventPrefix {
        prefixes := prefixes + 1;
        if b.hash != prefixHash || b.content == [] {
          return false;
        }
      }
      previousOrder, previousName := order, b.name;
      assert blobs[..i + 1][..|blobs[..i + 1]| - 1] == blobs[..i];
    }
    assert blobs[..|blobs|] == blobs;
    ok := prefixes == 1;
  }

  // ---- the client's checks ----

  datatype ClientBlob = ClientBlob(role: Role, name: string, content: Bytes)

  datatype Entry = Entry(role: Role, name: string, sha: Hash, size: int)

  function Pair(b: ClientBlob): (Role, string)
  {
    (b.role, b.name)
  }

  function Row(sha256: Bytes -> Hash, b: ClientBlob): Blob
  {
    Blob(b.role, b.name, sha256(b.content), |b.content|, b.content)
  }

  predicate EntryMatches(sha256: Bytes -> Hash, b: ClientBlob, e: Entry)
  {
    e.role == b.role && e.name == b.name && e.sha == sha256(b.content) && e.size == |b.content|
  }

  predicate ClientBlobOk(b: ClientBlob)
  {
    RoleOrder(b.role) != 0 && b.name != "" && Ascii(b.name) && '\0' !in b.name
  }

  /** What the client has established about its first `n` blobs. */
  predicate ClientPassing(sha256: Bytes -> Hash, blobs: seq<ClientBlob>, entries: seq<Entry>, n: nat)
    requires n <= |blobs| == |entries|
  {
    && (forall i :: 0 <= i < n ==> ClientBlobOk(blobs[i]) && EntryMatches(sha256, blobs[i], entries[i]))
    && Ordered(ClientTable(sha256, blobs[..n]))
  }

  lemma ClientStep(sha256: Bytes -> Hash, blobs: seq<ClientBlob>, entries: seq<Entry>, n: nat)
    requires n < |blobs| == |entries| && ClientPassing(sha256, blobs, entries, n)
    ensures ClientPassing(sha256, blobs, entries, n + 1) <==>
      && ClientBlobOk(blobs[n]) && EntryMatches(sha256, blobs[n], entries[n])
      && (n > 0 ==> TupleAfter(blobs[n], blobs[n - 1]))
    ensures ClientPassing(sha256, blobs, entries, |blobs|) ==> ClientPassing(sha256, blobs, entries, n + 1)
    ensures ClientTable(sha256, blobs[..n + 1]) == ClientTable(sha256, blobs[..n]) + [Row(sha256, blobs[n])]
  {
    var rows := ClientTable(sha256, blobs[..n]);
    var more := ClientTable(sha256, blobs[..n + 1]);
    assert more == rows + [Row(sha256, blobs[n])];
    OrderedSnoc(rows, Row(sha256, blobs[n]));
    if ClientPassing(sha256, blobs, entries, |blobs|) {
      var all := ClientTable(sha256, blobs[..|blobs|]);
      forall i, j | 0 <= i < j < |more| ensures BlobBefore(more[i], more[j]) {
        assert BlobBefore(all[i], all[j]);
      }
    }
  }

  /**
   The client's loop over its blobs and the manifest entries: every row it hands to the database is
   checked, and its seen-pairs test never decides anything the order test has not decided.
   */
  method ClientRows(sha256: Bytes -> Hash, blobs: seq<ClientBlob>, entries: seq<Entry>)
    returns (r: Result<seq<Blob>, ()>)
    ensures r.Ok? <==> entries != [] && |blobs| == |entries| && ClientPassing(sha256, blobs, entries, |blobs|)
    ensures r.Ok? ==> r.value == ClientTable(sha256, blobs)
  {
    if entries == [] || |blobs| != |entries| {
      return Err(());
    }
    var rows: seq<Blob> := [];
    var seen: set<(Role, string)> := {};
    for i := 0 to |blobs|
      invariant rows == ClientTable(sha256, blobs[..i])
      invariant ClientPassing(sha256, blobs, entries, i)
      invariant forall p :: p in seen ==> exists k :: 0 <= k < i && p == Pair(blobs[k])
    {
      var b := blobs[i];
      ClientStep(sha256, blobs, entries, i);
      if !ClientBlobOk(b) {
        return Err(());
      }
      if Pair(b) in seen {
        SeenIsUnordered(sha256, blobs, entries, i);
        return Err(());
      }
      if i > 0 && !TupleAfter(b, blobs[i - 1]) {
        return Err(());
      }
      if !EntryMatches(sha256, b, entries[i]) {
        return Err(());
      }
      seen := seen + {Pair(b)};
      rows := rows + [Row(sha256, b)];
    }
    assert blobs[..|blobs|] == blobs;
    r := Ok(rows);
  }

  lemma SeenIsUnordered(sha256: Bytes -> Hash, blobs: seq<ClientBlob>, entries: seq<Entry>, n: nat)
    requires n < |blobs| == |entries|
    requires exists k :: 0 <= k < n && Pair(blobs[n]) == Pair(blobs[k])
    ensures !ClientPassing(sha256, blobs, entries, n + 1)
  {
    var k :| 0 <= k < n && Pair(blobs[n]) == Pair(blobs[k]);
    var rows := ClientTable(sha256, blobs[..n + 1]);
    if Ordered(rows) { OrderedPairsDistinct(rows, k, n); }
  }

  function ClientTable(sha256: Bytes -> Hash, blobs: seq<ClientBlob>): (rows: seq<Blob>)
    ensures |rows| == |blobs|
  {
    seq(|blobs|, i requires 0 <= i < |blobs| => Row(sha256, blobs[i]))
  }

  /** Python's `order > previous_order` on (role ordinal, encoded name) tuples. */
  predicate TupleAfter(b: ClientBlob, previous: ClientBlob)
  {
    if RoleOrder(b.role) != RoleOrder(previous.role)
    then RoleOrder(previous.role) < RoleOrder(b.role)
    else Before(previous.name, b.name)
  }

  /** SHA-256 digests are always well-formed digest texts. */
  ghost predicate Digesting(sha256: Bytes -> Hash)
  {
    forall content :: IsDigest(sha256(content))
  }

  /** The text of a role, which a singleton blob must also carry as its logical name. */
  function RoleText(role: Role): string
  {
    match role
    case Profile => "profile"
    case ContextFile => "context_file"
    case BuildRequest => "build_request"
    case Stdout => "stdout"
    case Stderr => "stderr"
    case NetworkObservation => "network_observation"
    case RuntimeObservation => "runtime_observation"
    case RequiredOutput => "required_output"
    case RawOutputManifest => "raw_output_manifest"
    case AdapterCleanupObservation => "adapter_cleanup_observation"
    case CleanupObservation => "cleanup_observation"
    case FailureObservation => "failure_observation"
    case PostgresEventPrefix => "postgres_event_prefix"
    case UnknownRole(text) => text
  }

  predicate Singleton(rows: seq<Blob>, role: Role)
  {
    var found := ByRole(rows, role);
    |found| == 1 && found[0].name == RoleText(role)
  }

  /**
   The client's blob checks in full. Whatever passes them is admitted by the database loop, and the
   single prefix blob is the event prefix the client has just read.
   */
  method ClientRetention(
      sha256: Bytes -> Hash, prefix: Bytes, prefixHash: Hash, blobs: seq<ClientBlob>, entries: seq<Entry>)
    returns (r: Result<seq<Blob>, ()>)
    requires prefix != [] && Digesting(sha256)
    ensures r.Ok? <==>
      && entries != [] && |blobs| == |entries| && ClientPassing(sha256, blobs, entries, |blobs|)
      && (forall role :: role in SINGLETON_ROLES ==> Singleton(ClientTable(sha256, blobs), role))
      && BuildRequestOk(ClientTable(sha256, blobs))
      && sha256(prefix) == prefixHash
      && ByRole(ClientTable(sha256, blobs), PostgresEventPrefix)[0].content == prefix
    ensures r.Ok? ==> r.value == ClientTable(sha256, blobs) && Admissible(sha256, prefixHash, r.value)
  {
    var table := ClientRows(sha256, blobs, entries);
    if table.Err? {
      return table;
    }
    var rows := table.value;
    if !(forall role :: role in SINGLETON_ROLES ==> Singleton(rows, role)) {
      return Err(());
    }
    assert Singleton(rows, PostgresEventPrefix);
    if !BuildRequestOk(rows) {
      return Err(());
    }
    if sha256(prefix) != prefixHash || ByRole(rows, PostgresEventPrefix)[0].content != prefix {
      return Err(());
    }
    ClientListIsAdmissible(sha256, prefix, prefixHash, blobs, entries);
    r := table;
  }

  predicate BuildRequestOk(rows: seq<Blob>)
  {
    var found := ByRole(rows, BuildRequest);
    |found| <= 1 && (found != [] ==> found[0].name == RoleText(BuildRequest))
  }

  lemma ClientListIsAdmissible(
      sha256: Bytes -> Hash, prefix: Bytes, prefixHash: Hash, blobs: seq<ClientBlob>, entries: seq<Entry>)
    requires blobs != [] && prefix != [] && sha256(prefix) == prefixHash && Digesting(sha256)
    requires |blobs| == |entries| && ClientPassing(sha256, blobs, entries, |blobs|)
    requires |ByRole(ClientTable(sha256, blobs), PostgresEventPrefix)| == 1
    requires ByRole(ClientTable(sha256, blobs), PostgresEventPrefix)[0].content == prefix
    ensures Admissible(sha256, prefixHash, ClientTable(sha256, blobs))
  {
    var rows := ClientTable(sha256, blobs);
    assert blobs[..|blobs|] == blobs;
    CountIsByRole(rows);
    forall i | 0 <= i < |rows| ensures BlobShape(sha256, rows[i]) && PrefixBlob(prefixHash, rows[i]) {
      if rows[i].role == PostgresEventPrefix {
        assert rows[i] in rows;
        ByRoleMembers(rows, PostgresEventPrefix);
      }
      ClientRowOk(sha256, prefix, prefixHash, blobs[i]);
    }
  }

  lemma ClientRowOk(sha256: Bytes -> Hash, prefix: Bytes, prefixHash: Hash, b: ClientBlob)
    requires Digesting(sha256) && ClientBlobOk(b) && prefix != [] && sha256(prefix) == prefixHash
    requires b.role == PostgresEventPrefix ==> b.content == prefix
    ensures BlobShape(sha256, Row(sha256, b)) && PrefixBlob(prefixHash, Row(sha256, b))
  {
    assert IsDigest(sha256(b.content));
  }
}
