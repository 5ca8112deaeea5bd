/**
 What each changed set of an admission difference lists. Everything is said of the rows and members themselves: which
 rows carry an identity, which inputs a manifest names, which fields differ.
 */
module DiffContents {
  import opened Common
  import opened Sequences
  import opened TextOrder
  import opened AdmissionDiff

  /** The row's column is this text. */
  predicate Carries(row: Row, key: string, id: string)
  {
    key in row && row[key] == JString(id)
  }

  /** The rows that carry an identity, without the excluded columns, each as often as it occurs. */
  function Carrying(rows: seq<Row>, key: string, excluded: set<string>, id: string): multiset<Row>
  {
    if rows == [] then multiset{}
    else
      var last := rows[|rows| - 1];
      Carrying(rows[..|rows| - 1], key, excluded, id) +
        if Carries(last, key, id) then multiset{map k | k in last && k !in excluded :: last[k]} else multiset{}
  }

  /** Exactly the identities whose rows differ between the two snapshots. */
  ghost predicate ListsChanges(a: seq<Row>, b: seq<Row>, key: string, excluded: set<string>, changed: set<string>)
  {
    forall id :: id in changed <==> Carrying(a, key, excluded, id) != Carrying(b, key, excluded, id)
  }

  /** Exactly the fields whose values differ, an absent one reading as null. */
  ghost predicate ListsFields(a: Row, b: Row, excluded: set<string>, changed: set<string>)
  {
    forall k :: k in changed <==>
      k !in excluded && (if k in a then a[k] else JNull) != (if k in b then b[k] else JNull)
  }

  predicate Names(index: Row, path: string, digest: string)
  {
    && "input_manifest" in index && index["input_manifest"].JArray?
    && JArray([JString(path), JString(digest)]) in index["input_manifest"].items
  }

  /** Exactly the paths that one manifest names with a digest and the other does not. */
  ghost predicate ListsInputs(a: Row, b: Row, changed: set<string>)
  {
    forall path :: path in changed <==> exists digest :: Names(a, path, digest) != Names(b, path, digest)
  }

  ghost predicate ListsSections(a: Snapshot, b: Snapshot, d: Diff)
  {
    && ListsChanges(a.documents, b.documents, "relative_path", {"ingestion_hash"}, d.documentPaths)
    && ListsChanges(a.symbols, b.symbols, "symbol_key", {"ingestion_hash"}, d.symbolKeys)
    && ListsChanges(a.relationships, b.relationships, "source_symbol_key", {"ingestion_hash", "ordinal"}, d.relationshipSources)
    && ListsChanges(a.occurrences, b.occurrences, "document_path", {"ingestion_hash", "ordinal"}, d.occurrencePaths)
    && ListsChanges(a.subjects, b.subjects, "subject_id", {"admission_hash"}, d.subjectIds)
    && ListsChanges(a.contractRelationships, b.contractRelationships, "source_subject_id", {"admission_hash"},
         d.contractRelationshipSources)
  }

  ghost predicate ListsRest(a: Snapshot, b: Snapshot, d: Diff)
  {
    && (d.indexBytesChanged <==>
          (if "index_hash" in a.index then a.index["index_hash"] else JNull) !=
          (if "index_hash" in b.index then b.index["index_hash"] else JNull))
    && ListsFields(a.admission, b.admission, {"admission_hash", "ingestion_hash"}, d.contractFields)
    && ListsFields(a.index, b.index, {"ingestion_hash", "index_hash", "raw_index_size", "input_manifest"}, d.generationFields)
    && ListsFields(a.policy, b.policy, {}, d.policyFields)
    && ListsInputs(a.index, b.index, d.inputPaths)
  }

  // ---- texts stand for rows ----

  lemma {:induction false} TextsCount(text: Canonical, rows: seq<Row>, key: string, excluded: set<string>, id: string, w: Row)
    requires Injective(text) && id != ""
    ensures multiset(Texts(text, rows, key, excluded, id))[text(w)] == Carrying(rows, key, excluded, id)[w]
  {
    if rows != [] {
      var last := rows[|rows| - 1];
      TextsCount(text, rows[..|rows| - 1], key, excluded, id, w);
      assert Determines(text, Strip(last, excluded), w);
    }
  }

  lemma {:induction false} TextsStand(text: Canonical, rows: seq<Row>, key: string, excluded: set<string>, id: string, t: string)
    requires t in Texts(text, rows, key, excluded, id)
    ensures exists w :: text(w) == t
  {
    if t !in Texts(text, rows[..|rows| - 1], key, excluded, id) {
      assert text(Strip(rows[|rows| - 1], excluded)) == t;
    } else {
      TextsStand(text, rows[..|rows| - 1], key, excluded, id, t);
    }
  }

  lemma SameTextsSameRows(text: Canonical, a: seq<Row>, b: seq<Row>, key: string, excluded: set<string>, id: string)
    requires Injective(text) && id != ""
    ensures SameTextsFor(text, a, b, key, excluded, id) <==> Carrying(a, key, excluded, id) == Carrying(b, key, excluded, id)
  {
    var s, t := multiset(Texts(text, a, key, excluded, id)), multiset(Texts(text, b, key, excluded, id));
    var x, y := Carrying(a, key, excluded, id), Carrying(b, key, excluded, id);
    if s == t {
      forall w ensures x[w] == y[w] {
        TextsCount(text, a, key, excluded, id, w);
        TextsCount(text, b, key, excluded, id, w);
      }
    }
    if x == y {
      forall u | u in s + t ensures s[u] == t[u] {
        TextsStand(text, if u in s then a else b, key, excluded, id, u);
        var w :| text(w) == u;
        TextsCount(text, a, key, excluded, id, w);
        TextsCount(text, b, key, excluded, id, w);
      }
    }
  }

  lemma {:induction false} NoneUnnamed(rows: seq<Row>, key: string, excluded: set<string>)
    requires AllIdentified(rows, key)
    ensures Carrying(rows, key, excluded, "") == multiset{}
  {
    if rows != [] {
      assert Identity(rows[|rows| - 1], key).Some?;
      NoneUnnamed(rows[..|rows| - 1], key, excluded);
    }
  }

  lemma UnnamedIsNoKey(text: Canonical, rows: seq<Row>, key: string, excluded: set<string>)
    ensures "" !in Identities(rows, key)
  {
  }

  // ---- the sections ----

  lemma ChangedIs<V>(a: map<string, V>, b: map<string, V>, k: string)
    ensures k in ChangedKeys(a, b) <==> Get(a, k) != Get(b, k)
  {
  }

  lemma GroupChanged(text: Canonical, a: seq<Row>, b: seq<Row>, key: string, excluded: set<string>, id: string)
    requires Injective(text) && AllIdentified(a, key) && AllIdentified(b, key)
    ensures Get(Grouped(text, a, key, excluded), id) == Get(Grouped(text, b, key, excluded), id) <==>
      Carrying(a, key, excluded, id) == Carrying(b, key, excluded, id)
  {
    if id == "" {
      NoneUnnamed(a, key, excluded);
      NoneUnnamed(b, key, excluded);
      UnnamedIsNoKey(text, a, key, excluded);
      UnnamedIsNoKey(text, b, key, excluded);
    } else {
      SameTextsSameRows(text, a, b, key, excluded, id);
      SortedDecides(text, a, b, key, excluded, id);
    }
  }

  lemma SortedDecides(text: Canonical, a: seq<Row>, b: seq<Row>, key: string, excluded: set<string>, id: string)
    ensures Get(Grouped(text, a, key, excluded), id) == Get(Grouped(text, b, key, excluded), id) <==>
      SameTextsFor(text, a, b, key, excluded, id)
  {
    if SameTextsFor(text, a, b, key, excluded, id) {
      SameTextsSameGroup(text, a, b, key, excluded, id);
    } else {
      TextsOfIdentity(text, a, key, excluded, id);
      TextsOfIdentity(text, b, key, excluded, id);
      TextsAreOrdered();
      SortedIsMultiset(Texts(text, a, key, excluded, id), Texts(text, b, key, excluded, id), Before);
    }
  }

  lemma KeyChanged(text: Canonical, a: seq<Row>, b: seq<Row>, key: string, excluded: set<string>, id: string)
    requires Injective(text) && KeyedOk(a, key) && KeyedOk(b, key)
    ensures Get(Keyed(text, a, key, excluded), id) == Get(Keyed(text, b, key, excluded), id) <==>
      Carrying(a, key, excluded, id) == Carrying(b, key, excluded, id)
  {
    if id == "" {
      NoneUnnamed(a, key, excluded);
      NoneUnnamed(b, key, excluded);
      KeyedIdentities(text, a, key, excluded);
      KeyedIdentities(text, b, key, excluded);
    } else {
      SameTextsSameRows(text, a, b, key, excluded, id);
      KeyedIsOneText(text, a, key, excluded, id);
      KeyedIsOneText(text, b, key, excluded, id);
    }
  }

  lemma KeyedLists(text: Canonical, a: seq<Row>, b: seq<Row>, key: string, excluded: set<string>)
    requires Injective(text) && KeyedOk(a, key) && KeyedOk(b, key)
    ensures ListsChanges(a, b, key, excluded, ChangedKeys(Keyed(text, a, key, excluded), Keyed(text, b, key, excluded)))
  {
    forall id ensures id in ChangedKeys(Keyed(text, a, key, excluded), Keyed(text, b, key, excluded)) <==>
      Carrying(a, key, excluded, id) != Carrying(b, key, excluded, id)
    {
      KeyChanged(text, a, b, key, excluded, id);
      ChangedIs(Keyed(text, a, key, excluded), Keyed(text, b, key, excluded), id);
    }
  }

  lemma GroupedLists(text: Canonical, a: seq<Row>, b: seq<Row>, key: string, excluded: set<string>)
    requires Injective(text) && AllIdentified(a, key) && AllIdentified(b, key)
    ensures ListsChanges(a, b, key, excluded, ChangedKeys(Grouped(text, a, key, excluded), Grouped(text, b, key, excluded)))
  {
    forall id ensures id in ChangedKeys(Grouped(text, a, key, excluded), Grouped(text, b, key, excluded)) <==>
      Carrying(a, key, excluded, id) != Carrying(b, key, excluded, id)
    {
      GroupChanged(text, a, b, key, excluded, id);
      ChangedIs(Grouped(text, a, key, excluded), Grouped(text, b, key, excluded), id);
    }
  }

  // ---- fields and inputs ----

  lemma FieldsList(a: Row, b: Row, excluded: set<string>)
    ensures ListsFields(a, b, excluded, ChangedFields(a, b, excluded))
  {
  }

  lemma {:induction false} ManifestHas(items: seq<Json>, path: string, digest: string)
    requires ManifestOk(items)
    ensures Get(ManifestOf(items), path) == Some(digest) <==> JArray([JString(path), JString(digest)]) in items
  {
    if items != [] {
      var before, last := items[..|items| - 1], items[|items| - 1];
      ManifestHas(before, path, digest);
      assert ManifestEntry(last) && last == JArray([last.items[0], last.items[1]]);
      assert items == before + [last];
    }
  }

  lemma InputsList(a: Row, b: Row)
    requires ManifestOk(ManifestItems(a)) && ManifestOk(ManifestItems(b))
    requires Member(a, "input_manifest").JArray? && Member(b, "input_manifest").JArray?
    ensures ListsInputs(a, b, ChangedKeys(ManifestOf(ManifestItems(a)), ManifestOf(ManifestItems(b))))
  {
    var m, n := ManifestOf(ManifestItems(a)), ManifestOf(ManifestItems(b));
    forall path ensures path in ChangedKeys(m, n) <==> exists digest :: Names(a, path, digest) != Names(b, path, digest) {
      ChangedIs(m, n, path);
      forall digest ensures Names(a, path, digest) <==> Get(m, path) == Some(digest) {
        ManifestHas(ManifestItems(a), path, digest);
      }
      forall digest ensures Names(b, path, digest) <==> Get(n, path) == Some(digest) {
        ManifestHas(ManifestItems(b), path, digest);
      }
      if Get(m, path) != Get(n, path) {
        var digest := if Get(m, path).Some? then Get(m, path).value else Get(n, path).value;
        assert Names(a, path, digest) != Names(b, path, digest);
      }
    }
  }

  // ---- the difference ----

  lemma SectionsList(text: Canonical, a: Snapshot, b: Snapshot)
    requires Injective(text) && WellFormed(a) && WellFormed(b)
    ensures ListsSections(a, b, DiffOf(text, a, b))
  {
    KeyedLists(text, a.documents, b.documents, "relative_path", UNDER_INGESTION);
    KeyedLists(text, a.symbols, b.symbols, "symbol_key", UNDER_INGESTION);
    KeyedLists(text, a.subjects, b.subjects, "subject_id", UNDER_ADMISSION);
    GroupedLists(text, a.relationships, b.relationships, "source_symbol_key", NUMBERED);
    GroupedLists(text, a.occurrences, b.occurrences, "document_path", NUMBERED);
    GroupedLists(text, a.contractRelationships, b.contractRelationships, "source_subject_id", UNDER_ADMISSION);
  }

  /** The difference of two admissions lists exactly what differs between them, section by section and field by field. */
  lemma DiffListsChanges(text: Canonical, a: Snapshot, b: Snapshot)
    requires Injective(text) && WellFormed(a) && WellFormed(b)
    ensures ListsSections(a, b, DiffOf(text, a, b)) && ListsRest(a, b, DiffOf(text, a, b))
  {
    SectionsList(text, a, b);
    FieldsList(a.admission, b.admission, CONTRACT_IDENTITY);
    FieldsList(a.index, b.index, GENERATION_IDENTITY);
    FieldsList(a.policy, b.policy, {});
    InputsList(a.index, b.index);
  }

  // ---- which snapshots can be compared ----

  /** Every row carries a non-empty identity. */
  ghost predicate Identified(rows: seq<Row>, key: string)
  {
    forall row :: row in rows ==> exists id :: id != "" && Carries(row, key, id)
  }

  /** No two rows carry one identity. */
  ghost predicate Unique(rows: seq<Row>, key: string)
  {
    forall i, j, id :: 0 <= i < j < |rows| && Carries(rows[i], key, id) ==> !Carries(rows[j], key, id)
  }

  predicate Pairs(v: Json, path: string, digest: string)
  {
    v == JArray([JString(path), JString(digest)])
  }

  /** Pairs of non-empty texts, no two with one path. */
  ghost predicate Listed(index: Row)
  {
    "input_manifest" in index && index["input_manifest"].JArray? && AllPairs(index["input_manifest"].items)
    && OnePath(index["input_manifest"].items)
  }

  ghost predicate AllPairs(items: seq<Json>)
  {
    forall v :: v in items ==> exists path, digest :: path != "" && digest != "" && Pairs(v, path, digest)
  }

  ghost predicate OnePath(items: seq<Json>)
  {
    forall i, j, path, d, e :: 0 <= i < j < |items| && Pairs(items[i], path, d) ==> !Pairs(items[j], path, e)
  }

  lemma IdentifiedIs(rows: seq<Row>, key: string)
    ensures AllIdentified(rows, key) <==> Identified(rows, key)
  {
    if AllIdentified(rows, key) {
      forall row: Row | row in rows ensures exists id :: id != "" && Carries(row, key, id) {
        var i :| 0 <= i < |rows| && rows[i] == row;
        assert Identity(rows[i], key).Some?;
        assert Carries(row, key, row[key].text);
      }
    }
    if Identified(rows, key) {
      forall i | 0 <= i < |rows| ensures Identity(rows[i], key).Some? {
        assert rows[i] in rows;
      }
    }
  }

  lemma UniqueIs(rows: seq<Row>, key: string)
    requires AllIdentified(rows, key)
    ensures DistinctIdentities(rows, key) <==> Unique(rows, key)
  {
    forall i, id | 0 <= i < |rows| ensures Carries(rows[i], key, id) <==> Identity(rows[i], key) == Some(id) {
      assert Identity(rows[i], key).Some?;
    }
    if Unique(rows, key) {
      forall i, j | 0 <= i < j < |rows| ensures Identity(rows[i], key) != Identity(rows[j], key) {
        var id := Identity(rows[i], key).value;
        assert Carries(rows[i], key, id) && !Carries(rows[j], key, id);
      }
    }
  }

  lemma PairIsEntry(v: Json)
    ensures ManifestEntry(v) <==> exists path, digest :: path != "" && digest != "" && Pairs(v, path, digest)
    ensures ManifestEntry(v) ==> Pairs(v, v.items[0].text, v.items[1].text)
  {
    if ManifestEntry(v) {
      assert Pairs(v, v.items[0].text, v.items[1].text);
    }
  }

  lemma AllPairsAre(items: seq<Json>)
    ensures AllPairs(items) <==> forall i :: 0 <= i < |items| ==> ManifestEntry(items[i])
  {
    forall v ensures ManifestEntry(v) <==> exists path, digest :: path != "" && digest != "" && Pairs(v, path, digest) {
      PairIsEntry(v);
    }
    forall i | 0 <= i < |items| ensures items[i] in items {
    }
  }

  lemma OnePathIs(items: seq<Json>)
    requires forall i :: 0 <= i < |items| ==> ManifestEntry(items[i])
    ensures OnePath(items) <==> ManifestOk(items)
  {
    forall i | 0 <= i < |items| ensures Pairs(items[i], items[i].items[0].text, items[i].items[1].text) {
      PairIsEntry(items[i]);
    }
  }

  lemma ListedIs(index: Row)
    ensures Member(index, "input_manifest").JArray? && ManifestOk(ManifestItems(index)) <==> Listed(index)
  {
    AllPairsAre(ManifestItems(index));
    if AllPairs(ManifestItems(index)) {
      OnePathIs(ManifestItems(index));
    }
  }

  ghost predicate Readable(s: Snapshot)
  {
    && Listed(s.index)
    && Identified(s.documents, "relative_path") && Unique(s.documents, "relative_path")
    && Identified(s.symbols, "symbol_key") && Unique(s.symbols, "symbol_key")
    && Identified(s.subjects, "subject_id") && Unique(s.subjects, "subject_id")
    && Identified(s.relationships, "source_symbol_key") && Identified(s.occurrences, "document_path")
    && Identified(s.contractRelationships, "source_subject_id")
  }

  /** A snapshot can be compared exactly if its manifest is listed, its keyed rows are unique and all rows identified. */
  lemma WellFormedIs(s: Snapshot)
    ensures WellFormed(s) <==> Readable(s)
  {
    ListedIs(s.index);
    KeyedOkIs(s.documents, "relative_path");
    KeyedOkIs(s.symbols, "symbol_key");
    KeyedOkIs(s.subjects, "subject_id");
    IdentifiedIs(s.relationships, "source_symbol_key");
    IdentifiedIs(s.occurrences, "document_path");
    IdentifiedIs(s.contractRelationships, "source_subject_id");
  }

  lemma KeyedOkIs(rows: seq<Row>, key: string)
    ensures KeyedOk(rows, key) <==> Identified(rows, key) && Unique(rows, key)
  {
    IdentifiedIs(rows, key);
    if AllIdentified(rows, key) {
      UniqueIs(rows, key);
    }
  }

  // ---- the comparison ----

  predicate FoundUnder(s: Snapshot, hash: string)
  {
    "admission_hash" in s.admission && s.admission["admission_hash"] == JString(hash)
  }

  /**
   Two snapshots are compared exactly if each is readable and has the hash it was looked up by. What is listed is what
   differs, and the difference is empty exactly if nothing is listed.
   */
  method Compare(text: Canonical, a: Snapshot, b: Snapshot, beforeHash: string, afterHash: string) returns (r: Option<Diff>)
    requires Injective(text)
    ensures r.Some? <==> Readable(a) && Readable(b) && FoundUnder(a, beforeHash) && FoundUnder(b, afterHash)
    ensures r.Some? ==> ListsSections(a, b, r.value) && ListsRest(a, b, r.value)
    ensures r.Some? ==> (r.value.IsEmpty() <==> r.value == Diff(false, {}, {}, {}, {}, {}, {}, {}, {}, {}, {}))
  {
    r := CompareAdmissions(text, a, b, beforeHash, afterHash);
    WellFormedIs(a);
    WellFormedIs(b);
    if r.Some? {
      DiffListsChanges(text, a, b);
    }
  }
}
