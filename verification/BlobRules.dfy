/** Which keys and blob lists are well formed, said of their characters and blobs. */
module BlobRules {
  import opened Common
  import opened TextOrder
  import opened Alphabets
  import opened QualificationBlobs
  import opened QualificationLedger

  // ---- texts ----

  ghost predicate NamesDigest(text: string)
  {
    exists hex :: text == "sha256:" + hex && |hex| == 64 && Uses(hex, "0123456789abcdef")
  }

  predicate IsLetter(c: char)
  {
    c in Lower + Upper
  }

  predicate AllNameChars(text: string)
  {
    Uses(text, Lower + Upper + Digits + "._:-")
  }

  ghost predicate NamesClaim(text: string)
  {
    exists first, rest :: text == [first] + rest && IsLetter(first) && |rest| <= 127 && AllNameChars(rest)
  }

  lemma IdentifierIs(c: char)
    ensures IdentifierChar(c) <==> c in Lower + Upper + Digits + "._:-"
  {
    LowerIs(c);
    UpperIs(c);
    DigitsAre(c);
    assert "._:-"[0] == '.' && "._:-"[1] == '_' && "._:-"[2] == ':' && "._:-"[3] == '-';
  }

  lemma HexIs(hex: string)
    ensures HexText(hex) <==> Uses(hex, "0123456789abcdef")
  {
    HexDigitsUsed(hex);
  }

  lemma DigestExactly(text: string)
    ensures IsDigest(text) <==> NamesDigest(text)
  {
    if IsDigest(text) {
      assert text == "sha256:" + text[7..];
      HexIs(text[7..]);
    }
    if hex :| text == "sha256:" + hex && |hex| == 64 && Uses(hex, "0123456789abcdef") {
      assert text[..7] == "sha256:" && text[7..] == hex;
      HexIs(hex);
    }
  }

  lemma LetterIs(c: char)
    ensures IsLetter(c) <==> 'A' <= c <= 'Z' || 'a' <= c <= 'z'
  {
    LowerIs(c);
    UpperIs(c);
  }

  lemma AllNameCharsAre(text: string)
    ensures AllNameChars(text) <==> forall i :: 0 <= i < |text| ==> IdentifierChar(text[i])
  {
    forall i | 0 <= i < |text| ensures IdentifierChar(text[i]) <==> text[i] in Lower + Upper + Digits + "._:-" {
      IdentifierIs(text[i]);
    }
    assert forall i :: 0 <= i < |text| ==> text[i] in text;
  }

  lemma ClaimSplits(first: char, rest: string)
    ensures IsClaim([first] + rest) <==> IsLetter(first) && |rest| <= 127 && AllNameChars(rest)
  {
    LetterIs(first);
    AllNameCharsAre(rest);
    var text := [first] + rest;
    assert forall i :: 0 <= i < |rest| ==> text[i + 1] == rest[i];
    assert forall i :: 1 <= i < |text| ==> text[i] == rest[i - 1];
  }

  lemma ClaimExactly(text: string)
    ensures IsClaim(text) <==> NamesClaim(text)
  {
    if text != [] {
      assert text == [text[0]] + text[1..];
      ClaimSplits(text[0], text[1..]);
    }
    if first, rest :| text == [first] + rest && IsLetter(first) && |rest| <= 127 && AllNameChars(rest) {
      ClaimSplits(first, rest);
    }
  }

  lemma AsciiIs(text: string)
    ensures QualificationBlobs.Ascii(text) <==> forall c :: c in text ==> c as int <= 127
  {
    forall i | 0 <= i < |text| ensures text[i] in text {}
  }

  /** A run's key is a claim's name and two digests. */
  lemma KeyExactly(key: Key)
    ensures ValidKey(key) <==> NamesClaim(key.claim) && NamesDigest(key.profileHash) && NamesDigest(key.context)
  {
    ClaimExactly(key.claim);
    DigestExactly(key.profileHash);
    DigestExactly(key.context);
  }

  // ---- the order ----

  /** The roles in their order, each with its text. */
  const RoleTexts: seq<(Role, string)> := [
    (Profile, "profile"), (ContextFile, "context_file"), (BuildRequest, "build_request"), (Stdout, "stdout"),
    (Stderr, "stderr"), (NetworkObservation, "network_observation"), (RuntimeObservation, "runtime_observation"),
    (RequiredOutput, "required_output"), (RawOutputManifest, "raw_output_manifest"),
    (AdapterCleanupObservation, "adapter_cleanup_observation"), (CleanupObservation, "cleanup_observation"),
    (FailureObservation, "failure_observation"), (PostgresEventPrefix, "postgres_event_prefix")]

  predicate Stands(role: Role, place: int)
  {
    0 <= place < |RoleTexts| && RoleTexts[place].0 == role
  }

  /** By the place of the role, then by the name's bytes. */
  ghost predicate Earlier(a: Blob, b: Blob)
  {
    || (exists i, j :: Stands(a.role, i) && Stands(b.role, j) && i < j)
    || (a.role == b.role && exists k: nat :: SmallerAt(a.name, b.name, k))
  }

  lemma PlacesAreNumbers(role: Role, place: int)
    ensures Stands(role, place) <==> 1 <= RoleOrder(role) && place == RoleOrder(role) - 1
    ensures Stands(role, place) ==> RoleTexts[place] == (role, RoleText(role))
  {
    var roles := RoleTexts;
    assert forall i :: 0 <= i < |roles| ==> RoleOrder(roles[i].0) == i + 1 && roles[i].1 == RoleText(roles[i].0);
    if RoleOrder(role) != 0 { assert roles[RoleOrder(role) - 1].0 == role; }
  }

  lemma HasPlace(role: Role)
    ensures RoleOrder(role) != 0 <==> exists place :: Stands(role, place)
  {
    PlacesAreNumbers(role, RoleOrder(role) - 1);
    if place :| Stands(role, place) { PlacesAreNumbers(role, place); }
  }

  lemma EarlierExactly(a: Blob, b: Blob)
    requires RoleOrder(a.role) != 0 && RoleOrder(b.role) != 0
    ensures BlobBefore(a, b) <==> Earlier(a, b)
  {
    BeforeMeans(a.name, b.name);
    PlacesAreNumbers(a.role, RoleOrder(a.role) - 1);
    PlacesAreNumbers(b.role, RoleOrder(b.role) - 1);
    if i, j :| Stands(a.role, i) && Stands(b.role, j) && i < j {
      PlacesAreNumbers(a.role, i);
      PlacesAreNumbers(b.role, j);
    }
  }

  // ---- one blob of a role ----

  ghost predicate OnlyAt(rows: seq<Blob>, role: Role, i: int)
  {
    0 <= i < |rows| && rows[i].role == role && forall j :: 0 <= j < |rows| && rows[j].role == role ==> j == i
  }

  lemma {:induction false} RoleIsEmpty(rows: seq<Blob>, role: Role)
    ensures ByRole(rows, role) == [] <==> forall j :: 0 <= j < |rows| ==> rows[j].role != role
  {
    if rows != [] { RoleIsEmpty(rows[..|rows| - 1], role); }
  }

  lemma OnlyLast(rows: seq<Blob>, role: Role)
    requires rows != [] && rows[|rows| - 1].role == role
    ensures (exists i :: OnlyAt(rows, role, i)) <==> ByRole(rows[..|rows| - 1], role) == []
    ensures forall i :: OnlyAt(rows, role, i) ==> i == |rows| - 1 && ByRole(rows, role) == [rows[i]]
  {
    var n := |rows| - 1;
    RoleIsEmpty(rows[..n], role);
    if ByRole(rows[..n], role) == [] {
      assert forall j :: 0 <= j < n ==> rows[..n][j] == rows[j];
      assert OnlyAt(rows, role, n);
    }
    forall i | OnlyAt(rows, role, i) ensures i == n && ByRole(rows[..n], role) == [] {
      forall j | 0 <= j < n ensures rows[..n][j].role != role {
      }
    }
  }

  lemma OnlyBefore(rows: seq<Blob>, role: Role, i: int)
    requires rows != [] && rows[|rows| - 1].role != role
    ensures OnlyAt(rows, role, i) <==> OnlyAt(rows[..|rows| - 1], role, i)
  {
    var front := rows[..|rows| - 1];
    assert forall j :: 0 <= j < |front| ==> front[j] == rows[j];
    if OnlyAt(front, role, i) {
      forall j | 0 <= j < |rows| && rows[j].role == role ensures j == i {
        assert front[j].role == role;
      }
    }
  }

  lemma {:induction false} OnlyOneIs(rows: seq<Blob>, role: Role)
    ensures |ByRole(rows, role)| == 1 <==> exists i :: OnlyAt(rows, role, i)
    ensures forall i :: OnlyAt(rows, role, i) ==> ByRole(rows, role) == [rows[i]]
  {
    if rows != [] {
      var n := |rows| - 1;
      if rows[n].role == role {
        OnlyLast(rows, role);
      } else {
        OnlyOneIs(rows[..n], role);
        forall i ensures OnlyAt(rows, role, i) <==> OnlyAt(rows[..n], role, i) {
          OnlyBefore(rows, role, i);
        }
      }
    }
  }

  // ---- the database's list ----

  ghost predicate GoodBlob(sha256: Bytes -> Hash, b: Blob)
  {
    && (exists place :: Stands(b.role, place))
    && b.name != "" && (forall c :: c in b.name ==> c as int <= 127)
    && NamesDigest(b.hash) && b.hash == sha256(b.content) && b.size == |b.content|
  }

  ghost predicate InOrder(blobs: seq<Blob>)
  {
    forall i, j :: 0 <= i < j < |blobs| ==> Earlier(blobs[i], blobs[j])
  }

  /** The list has one event prefix, not empty and with the requested hash. */
  ghost predicate PrefixIs(blobs: seq<Blob>, hash: Hash)
  {
    exists i :: OnlyAt(blobs, PostgresEventPrefix, i) && blobs[i].hash == hash && blobs[i].content != []
  }

  lemma BlobExactly(sha256: Bytes -> Hash, b: Blob)
    ensures BlobShape(sha256, b) <==> GoodBlob(sha256, b)
  {
    HasPlace(b.role);
    AsciiIs(b.name);
    DigestExactly(b.hash);
  }

  lemma OrderExactly(blobs: seq<Blob>)
    requires forall b :: b in blobs ==> RoleOrder(b.role) != 0
    ensures Ordered(blobs) <==> InOrder(blobs)
  {
    forall i, j | 0 <= i < j < |blobs| ensures BlobBefore(blobs[i], blobs[j]) <==> Earlier(blobs[i], blobs[j]) {
      assert blobs[i] in blobs && blobs[j] in blobs;
      EarlierExactly(blobs[i], blobs[j]);
    }
  }

  lemma PrefixExactly(blobs: seq<Blob>, hash: Hash)
    ensures PrefixCount(blobs) == 1 && (forall i :: 0 <= i < |blobs| ==> PrefixBlob(hash, blobs[i])) <==> PrefixIs(blobs, hash)
  {
    CountIsByRole(blobs);
    OnlyOneIs(blobs, PostgresEventPrefix);
    if i :| OnlyAt(blobs, PostgresEventPrefix, i) {
      assert PrefixBlob(hash, blobs[i]) <==> blobs[i].hash == hash && blobs[i].content != [];
    }
  }

  /**
   The database retains exactly the lists of well-formed blobs that stand in the order of roles and names and hold one
   event prefix.
   */
  lemma AdmissibleExactly(sha256: Bytes -> Hash, prefixHash: Hash, blobs: seq<Blob>)
    ensures Admissible(sha256, prefixHash, blobs) <==>
      (forall b :: b in blobs ==> GoodBlob(sha256, b)) && InOrder(blobs) && PrefixIs(blobs, prefixHash)
  {
    PrefixExactly(blobs, prefixHash);
    forall b ensures BlobShape(sha256, b) <==> GoodBlob(sha256, b) { BlobExactly(sha256, b); }
    if forall b :: b in blobs ==> GoodBlob(sha256, b) {
      forall b | b in blobs ensures RoleOrder(b.role) != 0 { assert GoodBlob(sha256, b) && BlobShape(sha256, b); }
      OrderExactly(blobs);
    }
  }

  // ---- the client's list ----

  /** The row sent for a blob, and the manifest entry it was held against. */
  ghost predicate Sends(sha256: Bytes -> Hash, b: ClientBlob, e: Entry, row: Blob)
  {
    && row == Blob(b.role, b.name, sha256(b.content), |b.content|, b.content)
    && e == Entry(b.role, b.name, sha256(b.content), |b.content|)
    && (exists place :: Stands(b.role, place))
    && b.name != "" && (forall c :: c in b.name ==> c as int <= 127 && c != '\0')
  }

  /** The role has one blob, with this name. */
  ghost predicate HasOne(rows: seq<Blob>, role: Role, name: string)
  {
    exists i :: OnlyAt(rows, role, i) && rows[i].name == name
  }

  ghost predicate HasSingletons(rows: seq<Blob>)
  {
    && HasOne(rows, Profile, "profile")
    && HasOne(rows, Stdout, "stdout")
    && HasOne(rows, Stderr, "stderr")
    && HasOne(rows, NetworkObservation, "network_observation")
    && HasOne(rows, RuntimeObservation, "runtime_observation")
    && HasOne(rows, RawOutputManifest, "raw_output_manifest")
    && HasOne(rows, AdapterCleanupObservation, "adapter_cleanup_observation")
    && HasOne(rows, CleanupObservation, "cleanup_observation")
    && HasOne(rows, FailureObservation, "failure_observation")
    && HasOne(rows, PostgresEventPrefix, "postgres_event_prefix")
  }

  ghost predicate MayHaveRequest(rows: seq<Blob>)
  {
    || (forall b :: b in rows ==> b.role != BuildRequest)
    || HasOne(rows, BuildRequest, "build_request")
  }

  ghost predicate CarriesPrefix(rows: seq<Blob>, prefix: Bytes)
  {
    exists i :: OnlyAt(rows, PostgresEventPrefix, i) && rows[i].content == prefix
  }

  lemma SingletonExactly(rows: seq<Blob>, role: Role)
    ensures Singleton(rows, role) <==> HasOne(rows, role, RoleText(role))
  {
    OnlyOneIs(rows, role);
  }

  /** The ten singleton roles, with any predicate of a role and its text. */
  lemma SingletonRolesAre(has: (Role, string) -> bool)
    ensures (forall role :: role in SINGLETON_ROLES ==> has(role, RoleText(role))) <==>
      && has(Profile, "profile")
      && has(Stdout, "stdout")
      && has(Stderr, "stderr")
      && has(NetworkObservation, "network_observation")
      && has(RuntimeObservation, "runtime_observation")
      && has(RawOutputManifest, "raw_output_manifest")
      && has(AdapterCleanupObservation, "adapter_cleanup_observation")
      && has(CleanupObservation, "cleanup_observation")
      && has(FailureObservation, "failure_observation")
      && has(PostgresEventPrefix, "postgres_event_prefix")
  {
  }

  lemma SingletonsExactly(rows: seq<Blob>)
    ensures (forall role :: role in SINGLETON_ROLES ==> Singleton(rows, role)) <==> HasSingletons(rows)
  {
    forall role ensures Singleton(rows, role) <==> HasOne(rows, role, RoleText(role)) {
      SingletonExactly(rows, role);
    }
    SingletonRolesAre((role, name) => HasOne(rows, role, name));
  }

  ghost predicate SendsAll(sha256: Bytes -> Hash, blobs: seq<ClientBlob>, entries: seq<Entry>, rows: seq<Blob>)
  {
    |rows| == |blobs| == |entries| && forall i :: 0 <= i < |blobs| ==> Sends(sha256, blobs[i], entries[i], rows[i])
  }

  /** The rows stand in order, with every role they need and the event prefix just read. */
  ghost predicate Complete(rows: seq<Blob>, prefix: Bytes)
  {
    InOrder(rows) && HasSingletons(rows) && MayHaveRequest(rows) && CarriesPrefix(rows, prefix)
  }

  lemma RequestExactly(rows: seq<Blob>)
    ensures BuildRequestOk(rows) <==> MayHaveRequest(rows)
  {
    OnlyOneIs(rows, BuildRequest);
    RoleIsEmpty(rows, BuildRequest);
  }

  lemma RowExactly(sha256: Bytes -> Hash, b: ClientBlob, e: Entry)
    ensures ClientBlobOk(b) && EntryMatches(sha256, b, e) <==> Sends(sha256, b, e, Row(sha256, b))
  {
    HasPlace(b.role);
    AsciiIs(b.name);
  }

  lemma RowsExactly(sha256: Bytes -> Hash, blobs: seq<ClientBlob>, entries: seq<Entry>)
    requires |blobs| == |entries|
    ensures var rows := ClientTable(sha256, blobs);
      ClientPassing(sha256, blobs, entries, |blobs|) <==> SendsAll(sha256, blobs, entries, rows) && InOrder(rows)
  {
    var rows := ClientTable(sha256, blobs);
    assert blobs[..|blobs|] == blobs;
    forall i | 0 <= i < |blobs|
      ensures ClientBlobOk(blobs[i]) && EntryMatches(sha256, blobs[i], entries[i]) <==> Sends(sha256, blobs[i], entries[i], rows[i])
    {
      RowExactly(sha256, blobs[i], entries[i]);
    }
    if forall i :: 0 <= i < |blobs| ==> ClientBlobOk(blobs[i]) && EntryMatches(sha256, blobs[i], entries[i]) {
      forall b | b in rows ensures RoleOrder(b.role) != 0 {
        var i :| 0 <= i < |rows| && rows[i] == b;
        assert ClientBlobOk(blobs[i]);
      }
      OrderExactly(rows);
    }
  }

  lemma AllRowsExactly(sha256: Bytes -> Hash, blobs: seq<ClientBlob>, entries: seq<Entry>)
    requires |blobs| == |entries|
    ensures forall rows :: SendsAll(sha256, blobs, entries, rows) ==> rows == ClientTable(sha256, blobs)
    ensures var rows := ClientTable(sha256, blobs);
      ClientPassing(sha256, blobs, entries, |blobs|) <==> SendsAll(sha256, blobs, entries, rows) && InOrder(rows)
  {
    RowsExactly(sha256, blobs, entries);
  }

  lemma CompleteExactly(rows: seq<Blob>, prefix: Bytes)
    ensures Complete(rows, prefix) <==>
      && InOrder(rows) && (forall role :: role in SINGLETON_ROLES ==> Singleton(rows, role)) && BuildRequestOk(rows)
      && ByRole(rows, PostgresEventPrefix) != [] && ByRole(rows, PostgresEventPrefix)[0].content == prefix
  {
    SingletonsExactly(rows);
    RequestExactly(rows);
    OnlyOneIs(rows, PostgresEventPrefix);
    SingletonExactly(rows, PostgresEventPrefix);
    assert HasSingletons(rows) ==> Singleton(rows, PostgresEventPrefix);
  }

  /**
   The client sends exactly the lists that match their manifest blob by blob, stand in order, have each singleton role
   once, at most one build request, and carry the event prefix just read; and what it sends are those blobs.
   */
  method SendRetention(
      sha256: Bytes -> Hash, prefix: Bytes, prefixHash: Hash, blobs: seq<ClientBlob>, entries: seq<Entry>)
    returns (r: Result<seq<Blob>, ()>)
    requires prefix != [] && Digesting(sha256)
    ensures r.Ok? <==>
      && entries != [] && |blobs| == |entries| && sha256(prefix) == prefixHash
      && exists rows :: SendsAll(sha256, blobs, entries, rows) && Complete(rows, prefix)
    ensures r.Ok? ==> SendsAll(sha256, blobs, entries, r.value)
  {
    r := ClientRetention(sha256, prefix, prefixHash, blobs, entries);
    if |blobs| == |entries| {
      var rows := ClientTable(sha256, blobs);
      AllRowsExactly(sha256, blobs, entries);
      CompleteExactly(rows, prefix);
    }
  }
}
