/**
 The structural difference of two admitted snapshots, and what it means for it to be empty. Snapshots are
 sections of decoded rows; rows are compared by their canonical text, keyed sections one row at a time and
 grouped sections as sorted lists of texts, so neither the order of rows nor their ordinals can show in it.
 */
module AdmissionDiff {
  import opened Common
  import opened TextOrder
  import opened Sequences
  import opened JsonText

  /** A stored row: a decoded object whose columns are its members. */
  type Row = map<string, Json>

  datatype Snapshot = Snapshot(
    admission: Row, index: Row, documents: seq<Row>, symbols: seq<Row>, relationships: seq<Row>,
    occurrences: seq<Row>, subjects: seq<Row>, contractRelationships: seq<Row>, policy: Row)

  datatype Diff = Diff(
    indexBytesChanged: bool, contractFields: set<string>, generationFields: set<string>, inputPaths: set<string>,
    documentPaths: set<string>, symbolKeys: set<string>, relationshipSources: set<string>,
    occurrencePaths: set<string>, subjectIds: set<string>, contractRelationshipSources: set<string>,
    policyFields: set<string>)
  {
    predicate IsEmpty()
    {
      && !indexBytesChanged && contractFields == {} && generationFields == {} && inputPaths == {}
      && documentPaths == {} && symbolKeys == {} && relationshipSources == {} && occurrencePaths == {}
      && subjectIds == {} && contractRelationshipSources == {} && policyFields == {}
    }
  }

  /** Canonical JSON: the text determines the object. */
  type Canonical = Row -> string

  ghost predicate Injective(text: Canonical)
  {
    forall a, b {:trigger Determines(text, a, b)} :: Determines(text, a, b)
  }

  ghost predicate Determines(text: Canonical, a: Row, b: Row)
  {
    text(a) == text(b) ==> a == b
  }

  /** There are such texts. */
  lemma SomeTextIsCanonical()
    ensures exists text: Canonical :: Injective(text)
  {
    var text: Canonical := (row: Row) => Code(JObject(row));
    forall a, b ensures Determines(text, a, b) {
      if text(a) == text(b) {
        CodeIsInjective(JObject(a), JObject(b));
      }
    }
    assert Injective(text);
  }

  // ---- changed keys and fields ----

  function Get<V>(m: map<string, V>, k: string): Option<V>
  {
    if k in m then Some(m[k]) else None
  }

  function ChangedKeys<V(==)>(before: map<string, V>, after: map<string, V>): set<string>
  {
    set k | k in before.Keys + after.Keys && Get(before, k) != Get(after, k)
  }

  /** An absent member compares as null. */
  function ChangedFields(before: Row, after: Row, excluded: set<string>): set<string>
  {
    set k | k in before.Keys + after.Keys && k !in excluded && Member(before, k) != Member(after, k)
  }

  lemma NoChangedKeys<V>(a: map<string, V>, b: map<string, V>)
    ensures ChangedKeys(a, b) == {} <==> a == b
  {
    if ChangedKeys(a, b) == {} {
      forall k | k in a.Keys + b.Keys ensures Get(a, k) == Get(b, k) {
        assert k !in ChangedKeys(a, b);
      }
      assert a.Keys == b.Keys by {
        forall k ensures k in a <==> k in b {
          if k in a.Keys + b.Keys {
            assert Get(a, k) == Get(b, k);
          }
        }
      }
      forall k | k in a ensures a[k] == b[k] {
        assert Get(a, k) == Get(b, k);
      }
    }
  }

  lemma ChangedKeysTriangle<V>(a: map<string, V>, b: map<string, V>, c: map<string, V>)
    ensures ChangedKeys(a, c) <= ChangedKeys(a, b) + ChangedKeys(b, c)
    ensures ChangedKeys(a, b) == ChangedKeys(b, a)
  {
    forall k | k in ChangedKeys(a, c) ensures k in ChangedKeys(a, b) + ChangedKeys(b, c) {
      assert Get(a, k) != Get(b, k) || Get(b, k) != Get(c, k);
    }
  }

  ghost predicate FieldsAgree(a: Row, b: Row, excluded: set<string>)
  {
    forall k :: k !in excluded ==> Member(a, k) == Member(b, k)
  }

  lemma NoChangedFields(a: Row, b: Row, excluded: set<string>)
    ensures ChangedFields(a, b, excluded) == {} <==> FieldsAgree(a, b, excluded)
  {
    if ChangedFields(a, b, excluded) == {} {
      forall k | k !in excluded ensures Member(a, k) == Member(b, k) {
        assert k !in ChangedFields(a, b, excluded);
      }
    }
  }

  lemma ChangedFieldsTriangle(a: Row, b: Row, c: Row, excluded: set<string>)
    ensures ChangedFields(a, c, excluded) <= ChangedFields(a, b, excluded) + ChangedFields(b, c, excluded)
    ensures ChangedFields(a, b, excluded) == ChangedFields(b, a, excluded)
  {
    forall k | k in ChangedFields(a, c, excluded) ensures k in ChangedFields(a, b, excluded) + ChangedFields(b, c, excluded) {
      assert Member(a, k) != Member(b, k) || Member(b, k) != Member(c, k);
    }
  }

  // ---- rows by key ----

  function Strip(row: Row, excluded: set<string>): Row
  {
    map k | k in row && k !in excluded :: row[k]
  }

  /** The row's identity: a non-empty text under the key. */
  function Identity(row: Row, key: string): Option<string>
  {
    if Member(row, key).JString? && Member(row, key).text != "" then Some(Member(row, key).text) else None
  }

  predicate AllIdentified(rows: seq<Row>, key: string)
  {
    forall i :: 0 <= i < |rows| ==> Identity(rows[i], key).Some?
  }

  predicate DistinctIdentities(rows: seq<Row>, key: string)
  {
    forall i, j :: 0 <= i < j < |rows| ==> Identity(rows[i], key) != Identity(rows[j], key)
  }

  function Keyed(text: Canonical, rows: seq<Row>, key: string, excluded: set<string>): map<string, string>
  {
    if rows == [] then map[]
    else
      var last := rows[|rows| - 1];
      var before := Keyed(text, rows[..|rows| - 1], key, excluded);
      if Identity(last, key).Some? then before[Identity(last, key).value := text(Strip(last, excluded))] else before
  }

  /** The texts of the rows with one identity, in the order of the rows. */
  function Texts(text: Canonical, rows: seq<Row>, key: string, excluded: set<string>, id: string): seq<string>
  {
    if rows == [] then []
    else
      Texts(text, rows[..|rows| - 1], key, excluded, id) +
        if Identity(rows[|rows| - 1], key) == Some(id) then [text(Strip(rows[|rows| - 1], excluded))] else []
  }

  function Identities(rows: seq<Row>, key: string): set<string>
  {
    set row | row in rows && Identity(row, key).Some? :: Identity(row, key).value
  }

  /** The groups of texts, each in the order of its rows. */
  function TextGroups(text: Canonical, rows: seq<Row>, key: string, excluded: set<string>): map<string, seq<string>>
  {
    map id | id in Identities(rows, key) :: Texts(text, rows, key, excluded, id)
  }

  function Grouped(text: Canonical, rows: seq<Row>, key: string, excluded: set<string>): map<string, seq<string>>
  {
    map id | id in Identities(rows, key) :: Sorted(Texts(text, rows, key, excluded, id), Before)
  }

  // ---- when two sections agree ----

  function Stripped(rows: seq<Row>, excluded: set<string>): (r: seq<Row>)
    ensures |r| == |rows|
  {
    if rows == [] then [] else Stripped(rows[..|rows| - 1], excluded) + [Strip(rows[|rows| - 1], excluded)]
  }

  /** The same rows in some order, apart from the excluded columns. */
  ghost predicate SameRows(a: seq<Row>, b: seq<Row>, excluded: set<string>)
  {
    multiset(Stripped(a, excluded)) == multiset(Stripped(b, excluded))
  }

  /** Rows are counted alike before and after they are turned into texts by identity. */
  lemma {:induction false} CountsAgree(text: Canonical, rows: seq<Row>, key: string, excluded: set<string>, w: Row, id: string)
    requires Injective(text) && key !in excluded && Identity(w, key) == Some(id)
    ensures multiset(Stripped(rows, excluded))[w] == multiset(Texts(text, rows, key, excluded, id))[text(w)]
  {
    if rows != [] {
      var last := rows[|rows| - 1];
      CountsAgree(text, rows[..|rows| - 1], key, excluded, w, id);
      assert Determines(text, Strip(last, excluded), w);
    }
  }

  lemma {:induction false} TextsComeFrom(text: Canonical, rows: seq<Row>, key: string, excluded: set<string>, id: string, t: string)
    requires key !in excluded && t in Texts(text, rows, key, excluded, id)
    ensures exists w :: Identity(w, key) == Some(id) && text(w) == t && w in Stripped(rows, excluded)
  {
    var last, before := rows[|rows| - 1], Texts(text, rows[..|rows| - 1], key, excluded, id);
    if t in before {
      TextsComeFrom(text, rows[..|rows| - 1], key, excluded, id, t);
    } else {
      assert Strip(last, excluded) in Stripped(rows, excluded);
    }
  }

  lemma {:induction false} StrippedComesFrom(rows: seq<Row>, key: string, excluded: set<string>, w: Row)
    requires key !in excluded && w in Stripped(rows, excluded)
    ensures exists row :: row in rows && Strip(row, excluded) == w && Identity(w, key) == Identity(row, key)
  {
    var last := rows[|rows| - 1];
    if w == Strip(last, excluded) {
      assert last in rows;
    } else {
      StrippedComesFrom(rows[..|rows| - 1], key, excluded, w);
    }
  }

  /** Every identity has the same texts on both sides. */
  ghost predicate SameTexts(text: Canonical, a: seq<Row>, b: seq<Row>, key: string, excluded: set<string>)
  {
    forall id {:trigger SameTextsFor(text, a, b, key, excluded, id)} :: SameTextsFor(text, a, b, key, excluded, id)
  }

  ghost predicate SameTextsFor(text: Canonical, a: seq<Row>, b: seq<Row>, key: string, excluded: set<string>, id: string)
  {
    multiset(Texts(text, a, key, excluded, id)) == multiset(Texts(text, b, key, excluded, id))
  }

  lemma RowsGiveTexts(text: Canonical, a: seq<Row>, b: seq<Row>, key: string, excluded: set<string>, id: string)
    requires Injective(text) && key !in excluded && SameRows(a, b, excluded)
    ensures SameTextsFor(text, a, b, key, excluded, id)
  {
    var s, t := multiset(Texts(text, a, key, excluded, id)), multiset(Texts(text, b, key, excluded, id));
    forall x | x in s + t ensures s[x] == t[x] {
      var rows := if x in s then a else b;
      TextsComeFrom(text, rows, key, excluded, id, x);
      var w :| Identity(w, key) == Some(id) && text(w) == x && w in Stripped(rows, excluded);
      CountsAgree(text, a, key, excluded, w, id);
      CountsAgree(text, b, key, excluded, w, id);
    }
  }

  lemma SameCount(text: Canonical, a: seq<Row>, b: seq<Row>, key: string, excluded: set<string>, rows: seq<Row>, w: Row)
    requires Injective(text) && key !in excluded && AllIdentified(rows, key)
    requires SameTexts(text, a, b, key, excluded) && w in Stripped(rows, excluded)
    ensures multiset(Stripped(a, excluded))[w] == multiset(Stripped(b, excluded))[w]
  {
    StrippedComesFrom(rows, key, excluded, w);
    var row :| row in rows && Strip(row, excluded) == w && Identity(w, key) == Identity(row, key);
    var i :| 0 <= i < |rows| && rows[i] == row;
    assert Identity(rows[i], key).Some?;
    var id := Identity(w, key).value;
    assert SameTextsFor(text, a, b, key, excluded, id);
    CountsAgree(text, a, key, excluded, w, id);
    CountsAgree(text, b, key, excluded, w, id);
  }

  lemma TextsGiveRows(text: Canonical, a: seq<Row>, b: seq<Row>, key: string, excluded: set<string>)
    requires Injective(text) && key !in excluded && AllIdentified(a, key) && AllIdentified(b, key)
    requires SameTexts(text, a, b, key, excluded)
    ensures SameRows(a, b, excluded)
  {
    var s, t := multiset(Stripped(a, excluded)), multiset(Stripped(b, excluded));
    forall w | w in s + t ensures s[w] == t[w] {
      SameCount(text, a, b, key, excluded, if w in s then a else b, w);
    }
  }

  lemma {:induction false} TextsOfIdentity(text: Canonical, rows: seq<Row>, key: string, excluded: set<string>, id: string)
    ensures Texts(text, rows, key, excluded, id) != [] <==> id in Identities(rows, key)
  {
    if rows != [] {
      var before, last := rows[..|rows| - 1], rows[|rows| - 1];
      TextsOfIdentity(text, before, key, excluded, id);
      assert rows == before + [last];
      assert forall row :: row in rows <==> row in before || row == last;
    }
  }

  /** Groups are equal exactly if the rows are, up to order and the excluded columns. */
  lemma GroupsMean(text: Canonical, a: seq<Row>, b: seq<Row>, key: string, excluded: set<string>)
    requires Injective(text) && key !in excluded && AllIdentified(a, key) && AllIdentified(b, key)
    ensures Grouped(text, a, key, excluded) == Grouped(text, b, key, excluded) <==> SameRows(a, b, excluded)
  {
    var g, h := Grouped(text, a, key, excluded), Grouped(text, b, key, excluded);
    if g == h {
      forall id ensures SameTextsFor(text, a, b, key, excluded, id) {
        SameGroupSameTexts(text, a, b, key, excluded, id);
      }
      TextsGiveRows(text, a, b, key, excluded);
    }
    if SameRows(a, b, excluded) {
      forall id ensures Get(g, id) == Get(h, id) {
        RowsGiveTexts(text, a, b, key, excluded, id);
        SameTextsSameGroup(text, a, b, key, excluded, id);
      }
      GetsDecide(g, h);
    }
  }

  lemma GetsDecide<V>(g: map<string, V>, h: map<string, V>)
    requires forall id :: Get(g, id) == Get(h, id)
    ensures g == h
  {
    assert forall id :: id in g <==> Get(g, id).Some?;
    assert forall id :: id in h <==> Get(h, id).Some?;
    forall id | id in g ensures id in h && g[id] == h[id] {
      assert Get(g, id) == Get(h, id);
    }
    forall id | id in h ensures id in g {
      assert Get(g, id) == Get(h, id);
    }
  }

  lemma SameGroupSameTexts(text: Canonical, a: seq<Row>, b: seq<Row>, key: string, excluded: set<string>, id: string)
    requires Grouped(text, a, key, excluded) == Grouped(text, b, key, excluded)
    ensures SameTextsFor(text, a, b, key, excluded, id)
  {
    var g, h := Grouped(text, a, key, excluded), Grouped(text, b, key, excluded);
    TextsOfIdentity(text, a, key, excluded, id);
    TextsOfIdentity(text, b, key, excluded, id);
    assert id in g <==> id in h;
    if id in g {
      assert g[id] == h[id];
      TextsAreOrdered();
      SortedIsMultiset(Texts(text, a, key, excluded, id), Texts(text, b, key, excluded, id), Before);
    }
  }

  lemma SameTextsSameGroup(text: Canonical, a: seq<Row>, b: seq<Row>, key: string, excluded: set<string>, id: string)
    requires SameTextsFor(text, a, b, key, excluded, id)
    ensures Get(Grouped(text, a, key, excluded), id) == Get(Grouped(text, b, key, excluded), id)
  {
    var s, t := Texts(text, a, key, excluded, id), Texts(text, b, key, excluded, id);
    TextsOfIdentity(text, a, key, excluded, id);
    TextsOfIdentity(text, b, key, excluded, id);
    TextsAreOrdered();
    SortedIsMultiset(s, t, Before);
    assert |multiset(s)| == |s| && |multiset(t)| == |t|;
  }

  // ---- rows with distinct keys ----

  lemma {:induction false} KeyedIsOneText(text: Canonical, rows: seq<Row>, key: string, excluded: set<string>, id: string)
    requires DistinctIdentities(rows, key)
    ensures Texts(text, rows, key, excluded, id) ==
      AsList(Get(Keyed(text, rows, key, excluded), id))
  {
    if rows != [] {
      var before, last := rows[..|rows| - 1], rows[|rows| - 1];
      KeyedIsOneText(text, before, key, excluded, id);
      if Identity(last, key) == Some(id) {
        TextsOfIdentity(text, before, key, excluded, id);
      }
    }
  }

  /** Keyed maps are equal exactly if the rows are, up to order and the excluded columns. */
  lemma KeysMean(text: Canonical, a: seq<Row>, b: seq<Row>, key: string, excluded: set<string>)
    requires Injective(text) && key !in excluded && AllIdentified(a, key) && AllIdentified(b, key)
    requires DistinctIdentities(a, key) && DistinctIdentities(b, key)
    ensures Keyed(text, a, key, excluded) == Keyed(text, b, key, excluded) <==> SameRows(a, b, excluded)
  {
    var g, h := Keyed(text, a, key, excluded), Keyed(text, b, key, excluded);
    forall id ensures Get(g, id) == Get(h, id) <==> SameTextsFor(text, a, b, key, excluded, id) {
      KeyedIsOneText(text, a, key, excluded, id);
      KeyedIsOneText(text, b, key, excluded, id);
    }
    if g == h {
      TextsGiveRows(text, a, b, key, excluded);
    }
    if SameRows(a, b, excluded) {
      forall id ensures Get(g, id) == Get(h, id) {
        RowsGiveTexts(text, a, b, key, excluded, id);
      }
      GetsDecide(g, h);
    }
  }

  function AsList(t: Option<string>): seq<string>
  {
    match t case None => [] case Some(x) => [x]
  }

  // ---- the input manifest ----

  predicate ManifestEntry(v: Json)
  {
    && v.JArray? && |v.items| == 2
    && v.items[0].JString? && v.items[0].text != "" && v.items[1].JString? && v.items[1].text != ""
  }

  predicate ManifestOk(items: seq<Json>)
  {
    && (forall i :: 0 <= i < |items| ==> ManifestEntry(items[i]))
    && forall i, j :: 0 <= i < j < |items| && ManifestEntry(items[i]) && ManifestEntry(items[j]) ==>
         items[i].items[0].text != items[j].items[0].text
  }

  function ManifestItems(index: Row): seq<Json>
  {
    if Member(index, "input_manifest").JArray? then Member(index, "input_manifest").items else []
  }

  function ManifestOf(items: seq<Json>): map<string, string>
  {
    if items == [] then map[]
    else
      var last := items[|items| - 1];
      if ManifestEntry(last) then ManifestOf(items[..|items| - 1])[last.items[0].text := last.items[1].text]
      else ManifestOf(items[..|items| - 1])
  }

  // ---- the comparison ----

  const UNDER_INGESTION: set<string> := {"ingestion_hash"}
  const UNDER_ADMISSION: set<string> := {"admission_hash"}
  const NUMBERED: set<string> := {"ingestion_hash", "ordinal"}
  const CONTRACT_IDENTITY: set<string> := {"admission_hash", "ingestion_hash"}
  const GENERATION_IDENTITY: set<string> := {"ingestion_hash", "index_hash", "raw_index_size", "input_manifest"}

  predicate KeyedOk(rows: seq<Row>, key: string)
  {
    AllIdentified(rows, key) && DistinctIdentities(rows, key)
  }

  predicate WellFormed(s: Snapshot)
  {
    && Member(s.index, "input_manifest").JArray? && ManifestOk(ManifestItems(s.index))
    && KeyedOk(s.documents, "relative_path") && KeyedOk(s.symbols, "symbol_key") && KeyedOk(s.subjects, "subject_id")
    && AllIdentified(s.relationships, "source_symbol_key") && AllIdentified(s.occurrences, "document_path")
    && AllIdentified(s.contractRelationships, "source_subject_id")
  }

  function DiffOf(text: Canonical, a: Snapshot, b: Snapshot): Diff
  {
    Diff(
      Member(a.index, "index_hash") != Member(b.index, "index_hash"),
      ChangedFields(a.admission, b.admission, CONTRACT_IDENTITY),
      ChangedFields(a.index, b.index, GENERATION_IDENTITY),
      ChangedKeys(ManifestOf(ManifestItems(a.index)), ManifestOf(ManifestItems(b.index))),
      ChangedKeys(Keyed(text, a.documents, "relative_path", UNDER_INGESTION),
        Keyed(text, b.documents, "relative_path", UNDER_INGESTION)),
      ChangedKeys(Keyed(text, a.symbols, "symbol_key", UNDER_INGESTION),
        Keyed(text, b.symbols, "symbol_key", UNDER_INGESTION)),
      ChangedKeys(Grouped(text, a.relationships, "source_symbol_key", NUMBERED),
        Grouped(text, b.relationships, "source_symbol_key", NUMBERED)),
      ChangedKeys(Grouped(text, a.occurrences, "document_path", NUMBERED),
        Grouped(text, b.occurrences, "document_path", NUMBERED)),
      ChangedKeys(Keyed(text, a.subjects, "subject_id", UNDER_ADMISSION),
        Keyed(text, b.subjects, "subject_id", UNDER_ADMISSION)),
      ChangedKeys(Grouped(text, a.contractRelationships, "source_subject_id", UNDER_ADMISSION),
        Grouped(text, b.contractRelationships, "source_subject_id", UNDER_ADMISSION)),
      ChangedFields(a.policy, b.policy, {}))
  }

  /** The snapshots agree up to the order of rows and inputs, ordinals, the index's size and identity hashes. */
  ghost predicate SnapshotsAgree(a: Snapshot, b: Snapshot)
  {
    && FieldsAgree(a.admission, b.admission, CONTRACT_IDENTITY)
    && FieldsAgree(a.index, b.index, {"ingestion_hash", "raw_index_size", "input_manifest"})
    && ManifestOf(ManifestItems(a.index)) == ManifestOf(ManifestItems(b.index))
    && SameRows(a.documents, b.documents, UNDER_INGESTION)
    && SameRows(a.symbols, b.symbols, UNDER_INGESTION)
    && SameRows(a.relationships, b.relationships, NUMBERED)
    && SameRows(a.occurrences, b.occurrences, NUMBERED)
    && SameRows(a.subjects, b.subjects, UNDER_ADMISSION)
    && SameRows(a.contractRelationships, b.contractRelationships, UNDER_ADMISSION)
    && FieldsAgree(a.policy, b.policy, {})
  }

  lemma IndexFields(a: Row, b: Row)
    ensures FieldsAgree(a, b, {"ingestion_hash", "raw_index_size", "input_manifest"}) <==>
      FieldsAgree(a, b, GENERATION_IDENTITY) && Member(a, "index_hash") == Member(b, "index_hash")
  {
  }

  lemma KeyedSectionsEmpty(text: Canonical, a: Snapshot, b: Snapshot)
    requires Injective(text) && WellFormed(a) && WellFormed(b)
    ensures var d := DiffOf(text, a, b);
      && (d.documentPaths == {} <==> SameRows(a.documents, b.documents, UNDER_INGESTION))
      && (d.symbolKeys == {} <==> SameRows(a.symbols, b.symbols, UNDER_INGESTION))
      && (d.subjectIds == {} <==> SameRows(a.subjects, b.subjects, UNDER_ADMISSION))
  {
    KeyedSection(text, a.documents, b.documents, "relative_path", UNDER_INGESTION);
    KeyedSection(text, a.symbols, b.symbols, "symbol_key", UNDER_INGESTION);
    KeyedSection(text, a.subjects, b.subjects, "subject_id", UNDER_ADMISSION);
  }

  lemma RelationshipSectionEmpty(text: Canonical, a: Snapshot, b: Snapshot)
    requires Injective(text) && WellFormed(a) && WellFormed(b)
    ensures DiffOf(text, a, b).relationshipSources == {} <==> SameRows(a.relationships, b.relationships, NUMBERED)
  {
    GroupedSection(text, a.relationships, b.relationships, "source_symbol_key", NUMBERED);
  }

  lemma OccurrenceSectionEmpty(text: Canonical, a: Snapshot, b: Snapshot)
    requires Injective(text) && WellFormed(a) && WellFormed(b)
    ensures DiffOf(text, a, b).occurrencePaths == {} <==> SameRows(a.occurrences, b.occurrences, NUMBERED)
  {
    GroupedSection(text, a.occurrences, b.occurrences, "document_path", NUMBERED);
  }

  lemma ContractSectionEmpty(text: Canonical, a: Snapshot, b: Snapshot)
    requires Injective(text) && WellFormed(a) && WellFormed(b)
    ensures DiffOf(text, a, b).contractRelationshipSources == {} <==>
      SameRows(a.contractRelationships, b.contractRelationships, UNDER_ADMISSION)
  {
    GroupedSection(text, a.contractRelationships, b.contractRelationships, "source_subject_id", UNDER_ADMISSION);
  }

  lemma FieldsEmpty(text: Canonical, a: Snapshot, b: Snapshot)
    ensures var d := DiffOf(text, a, b);
      && (d.contractFields == {} <==> FieldsAgree(a.admission, b.admission, CONTRACT_IDENTITY))
      && (d.generationFields == {} && !d.indexBytesChanged <==>
            FieldsAgree(a.index, b.index, {"ingestion_hash", "raw_index_size", "input_manifest"}))
      && (d.policyFields == {} <==> FieldsAgree(a.policy, b.policy, {}))
      && (d.inputPaths == {} <==> ManifestOf(ManifestItems(a.index)) == ManifestOf(ManifestItems(b.index)))
  {
    NoChangedFields(a.admission, b.admission, CONTRACT_IDENTITY);
    NoChangedFields(a.index, b.index, GENERATION_IDENTITY);
    NoChangedFields(a.policy, b.policy, {});
    IndexFields(a.index, b.index);
    NoChangedKeys(ManifestOf(ManifestItems(a.index)), ManifestOf(ManifestItems(b.index)));
  }

  /** The difference is empty exactly if the snapshots agree. */
  lemma EmptyMeansAgreement(text: Canonical, a: Snapshot, b: Snapshot)
    requires Injective(text) && WellFormed(a) && WellFormed(b)
    ensures DiffOf(text, a, b).IsEmpty() <==> SnapshotsAgree(a, b)
  {
    FieldsEmpty(text, a, b);
    KeyedSectionsEmpty(text, a, b);
    RelationshipSectionEmpty(text, a, b);
    OccurrenceSectionEmpty(text, a, b);
    ContractSectionEmpty(text, a, b);
  }

  lemma KeyedSection(text: Canonical, a: seq<Row>, b: seq<Row>, key: string, excluded: set<string>)
    requires Injective(text) && key !in excluded && KeyedOk(a, key) && KeyedOk(b, key)
    ensures ChangedKeys(Keyed(text, a, key, excluded), Keyed(text, b, key, excluded)) == {} <==> SameRows(a, b, excluded)
  {
    NoChangedKeys(Keyed(text, a, key, excluded), Keyed(text, b, key, excluded));
    KeysMean(text, a, b, key, excluded);
  }

  lemma GroupedSection(text: Canonical, a: seq<Row>, b: seq<Row>, key: string, excluded: set<string>)
    requires Injective(text) && key !in excluded && AllIdentified(a, key) && AllIdentified(b, key)
    ensures ChangedKeys(Grouped(text, a, key, excluded), Grouped(text, b, key, excluded)) == {} <==> SameRows(a, b, excluded)
  {
    NoChangedKeys(Grouped(text, a, key, excluded), Grouped(text, b, key, excluded));
    GroupsMean(text, a, b, key, excluded);
  }

  /** Every changed set of one difference lies in the corresponding sets of two others taken together. */
  predicate Covered(d: Diff, e: Diff, f: Diff)
  {
    && (d.indexBytesChanged ==> e.indexBytesChanged || f.indexBytesChanged)
    && d.contractFields <= e.contractFields + f.contractFields
    && d.generationFields <= e.generationFields + f.generationFields
    && d.inputPaths <= e.inputPaths + f.inputPaths
    && d.documentPaths <= e.documentPaths + f.documentPaths
    && d.symbolKeys <= e.symbolKeys + f.symbolKeys
    && d.relationshipSources <= e.relationshipSources + f.relationshipSources
    && d.occurrencePaths <= e.occurrencePaths + f.occurrencePaths
    && d.subjectIds <= e.subjectIds + f.subjectIds
    && d.contractRelationshipSources <= e.contractRelationshipSources + f.contractRelationshipSources
    && d.policyFields <= e.policyFields + f.policyFields
  }

  /** The difference is symmetric, and what changed over two steps changed in one of them. */
  lemma DiffIsMetric(text: Canonical, a: Snapshot, b: Snapshot, c: Snapshot)
    ensures DiffOf(text, a, b) == DiffOf(text, b, a)
    ensures Covered(DiffOf(text, a, c), DiffOf(text, a, b), DiffOf(text, b, c))
  {
    ChangedFieldsTriangle(a.admission, b.admission, c.admission, CONTRACT_IDENTITY);
    ChangedFieldsTriangle(a.index, b.index, c.index, GENERATION_IDENTITY);
    ChangedFieldsTriangle(a.policy, b.policy, c.policy, {});
    ChangedKeysTriangle(ManifestOf(ManifestItems(a.index)), ManifestOf(ManifestItems(b.index)), ManifestOf(ManifestItems(c.index)));
    KeyedTriangle(text, a.documents, b.documents, c.documents, "relative_path", UNDER_INGESTION);
    KeyedTriangle(text, a.symbols, b.symbols, c.symbols, "symbol_key", UNDER_INGESTION);
    KeyedTriangle(text, a.subjects, b.subjects, c.subjects, "subject_id", UNDER_ADMISSION);
    GroupedTriangle(text, a.relationships, b.relationships, c.relationships, "source_symbol_key", NUMBERED);
    GroupedTriangle(text, a.occurrences, b.occurrences, c.occurrences, "document_path", NUMBERED);
    GroupedTriangle(text, a.contractRelationships, b.contractRelationships, c.contractRelationships,
      "source_subject_id", UNDER_ADMISSION);
  }

  lemma KeyedTriangle(text: Canonical, a: seq<Row>, b: seq<Row>, c: seq<Row>, key: string, excluded: set<string>)
    ensures var x, y, z := Keyed(text, a, key, excluded), Keyed(text, b, key, excluded), Keyed(text, c, key, excluded);
      ChangedKeys(x, z) <= ChangedKeys(x, y) + ChangedKeys(y, z) && ChangedKeys(x, y) == ChangedKeys(y, x)
  {
    ChangedKeysTriangle(Keyed(text, a, key, excluded), Keyed(text, b, key, excluded), Keyed(text, c, key, excluded));
  }

  lemma GroupedTriangle(text: Canonical, a: seq<Row>, b: seq<Row>, c: seq<Row>, key: string, excluded: set<string>)
    ensures var x, y, z := Grouped(text, a, key, excluded), Grouped(text, b, key, excluded), Grouped(text, c, key, excluded);
      ChangedKeys(x, z) <= ChangedKeys(x, y) + ChangedKeys(y, z) && ChangedKeys(x, y) == ChangedKeys(y, x)
  {
    ChangedKeysTriangle(Grouped(text, a, key, excluded), Grouped(text, b, key, excluded), Grouped(text, c, key, excluded));
  }

  // ---- the loops ----

  lemma {:induction false} KeyedIdentities(text: Canonical, rows: seq<Row>, key: string, excluded: set<string>)
    ensures Keyed(text, rows, key, excluded).Keys == Identities(rows, key)
  {
    if rows != [] {
      var before, last := rows[..|rows| - 1], rows[|rows| - 1];
      KeyedIdentities(text, before, key, excluded);
      assert rows == before + [last];
      assert forall row :: row in rows <==> row in before || row == last;
    }
  }

  /** `_keyed_rows`. */
  method KeyedRows(text: Canonical, rows: seq<Row>, key: string, excluded: set<string>)
    returns (r: Option<map<string, string>>)
    ensures r.Some? <==> KeyedOk(rows, key)
    ensures r.Some? ==> r.value == Keyed(text, rows, key, excluded)
  {
    var result: map<string, string> := map[];
    for i := 0 to |rows|
      invariant KeyedOk(rows[..i], key) && result == Keyed(text, rows[..i], key, excluded)
    {
      var before := rows[..i];
      assert rows[..i + 1][..|rows[..i + 1]| - 1] == before;
      var identity := Identity(rows[i], key);
      if identity.None? {
        return None;
      }
      KeyedIdentities(text, before, key, excluded);
      if identity.value in result {
        return None;
      }
      result := result[identity.value := text(Strip(rows[i], excluded))];
    }
    assert rows[..|rows|] == rows;
    r := Some(result);
  }

  /** `_grouped_rows`. */
  method GroupedRows(text: Canonical, rows: seq<Row>, key: string, excluded: set<string>)
    returns (r: Option<map<string, seq<string>>>)
    ensures r.Some? <==> AllIdentified(rows, key)
    ensures r.Some? ==> r.value == Grouped(text, rows, key, excluded)
  {
    var groups: map<string, seq<string>> := map[];
    for i := 0 to |rows|
      invariant AllIdentified(rows[..i], key)
      invariant groups == TextGroups(text, rows[..i], key, excluded)
    {
      var identity := Identity(rows[i], key);
      if identity.None? {
        return None;
      }
      GroupNext(text, rows, key, excluded, i);
      NewlyIdentified(rows, key, i);
      var group := if identity.value in groups then groups[identity.value] else [];
      groups := groups[identity.value := group + [text(Strip(rows[i], excluded))]];
    }
    assert rows[..|rows|] == rows;
    r := Some(map id | id in groups :: Sorted(groups[id], Before));
    assert groups.Keys == Identities(rows, key);
  }

  lemma NewlyIdentified(rows: seq<Row>, key: string, i: nat)
    requires i < |rows| && Identity(rows[i], key).Some? && AllIdentified(rows[..i], key)
    ensures AllIdentified(rows[..i + 1], key)
  {
    assert rows[..i + 1] == rows[..i] + [rows[i]];
  }

  lemma TextsNext(text: Canonical, rows: seq<Row>, key: string, excluded: set<string>, i: nat, id: string)
    requires i < |rows|
    ensures Texts(text, rows[..i + 1], key, excluded, id) ==
      Texts(text, rows[..i], key, excluded, id) +
        if Identity(rows[i], key) == Some(id) then [text(Strip(rows[i], excluded))] else []
  {
    assert rows[..i + 1][..|rows[..i + 1]| - 1] == rows[..i];
  }

  lemma GroupNext(text: Canonical, rows: seq<Row>, key: string, excluded: set<string>, i: nat)
    requires i < |rows| && Identity(rows[i], key).Some?
    ensures var groups, id := TextGroups(text, rows[..i], key, excluded), Identity(rows[i], key).value;
      groups[id := (if id in groups then groups[id] else []) + [text(Strip(rows[i], excluded))]] ==
        TextGroups(text, rows[..i + 1], key, excluded)
  {
    var groups, more := TextGroups(text, rows[..i], key, excluded), TextGroups(text, rows[..i + 1], key, excluded);
    var id := Identity(rows[i], key).value;
    var next := groups[id := (if id in groups then groups[id] else []) + [text(Strip(rows[i], excluded))]];
    forall k | k in more ensures k in next && next[k] == more[k] {
      TextsNext(text, rows, key, excluded, i, k);
      TextsOfIdentity(text, rows[..i], key, excluded, k);
    }
  }

  /** `_input_manifest`. */
  method InputManifest(index: Row) returns (r: Option<map<string, string>>)
    ensures r.Some? <==> Member(index, "input_manifest").JArray? && ManifestOk(ManifestItems(index))
    ensures r.Some? ==> r.value == ManifestOf(ManifestItems(index))
  {
    if !Member(index, "input_manifest").JArray? {
      return None;
    }
    var items := ManifestItems(index);
    var result: map<string, string> := map[];
    for i := 0 to |items|
      invariant forall k :: 0 <= k < i ==> ManifestEntry(items[k])
      invariant forall j, k :: 0 <= j < k < i ==> items[j].items[0].text != items[k].items[0].text
      invariant forall path :: path in result <==> exists k :: 0 <= k < i && items[k].items[0].text == path
      invariant result == ManifestOf(items[..i])
    {
      assert items[..i + 1][..|items[..i + 1]| - 1] == items[..i];
      if !ManifestEntry(items[i]) {
        return None;
      }
      if items[i].items[0].text in result {
        return None;
      }
      result := result[items[i].items[0].text := items[i].items[1].text];
    }
    assert items[..|items|] == items;
    r := Some(result);
  }

  predicate Comparable(a: Snapshot, b: Snapshot, beforeHash: string, afterHash: string)
  {
    && Member(a.admission, "admission_hash") == JString(beforeHash)
    && Member(b.admission, "admission_hash") == JString(afterHash)
    && WellFormed(a) && WellFormed(b)
  }

  datatype Sections = Sections(
    inputs: map<string, string>, documents: map<string, string>, symbols: map<string, string>,
    relationships: map<string, seq<string>>, occurrences: map<string, seq<string>>,
    subjects: map<string, string>, contractRelationships: map<string, seq<string>>)

  function SectionsOf(text: Canonical, s: Snapshot): Sections
  {
    Sections(
      ManifestOf(ManifestItems(s.index)),
      Keyed(text, s.documents, "relative_path", UNDER_INGESTION),
      Keyed(text, s.symbols, "symbol_key", UNDER_INGESTION),
      Grouped(text, s.relationships, "source_symbol_key", NUMBERED),
      Grouped(text, s.occurrences, "document_path", NUMBERED),
      Keyed(text, s.subjects, "subject_id", UNDER_ADMISSION),
      Grouped(text, s.contractRelationships, "source_subject_id", UNDER_ADMISSION))
  }

  method ReadSections(text: Canonical, s: Snapshot) returns (r: Option<Sections>)
    ensures r.Some? <==> WellFormed(s)
    ensures r.Some? ==> r.value == SectionsOf(text, s)
  {
    var inputs := InputManifest(s.index);
    var documents := KeyedRows(text, s.documents, "relative_path", UNDER_INGESTION);
    var symbols := KeyedRows(text, s.symbols, "symbol_key", UNDER_INGESTION);
    var relationships := GroupedRows(text, s.relationships, "source_symbol_key", NUMBERED);
    var occurrences := GroupedRows(text, s.occurrences, "document_path", NUMBERED);
    var subjects := KeyedRows(text, s.subjects, "subject_id", UNDER_ADMISSION);
    var edges := GroupedRows(text, s.contractRelationships, "source_subject_id", UNDER_ADMISSION);
    if inputs.None? || documents.None? || symbols.None? || relationships.None? || occurrences.None?
      || subjects.None? || edges.None? {
      return None;
    }
    r := Some(Sections(inputs.value, documents.value, symbols.value, relationships.value, occurrences.value,
      subjects.value, edges.value));
  }

  /** `compare_scip_admissions` on the two snapshots found under the two hashes. */
  method CompareAdmissions(text: Canonical, a: Snapshot, b: Snapshot, beforeHash: string, afterHash: string)
    returns (r: Option<Diff>)
    requires Injective(text)
    ensures r.Some? <==> Comparable(a, b, beforeHash, afterHash)
    ensures r.Some? ==> r.value == DiffOf(text, a, b) && (r.value.IsEmpty() <==> SnapshotsAgree(a, b))
  {
    if Member(a.admission, "admission_hash") != JString(beforeHash)
      || Member(b.admission, "admission_hash") != JString(afterHash) {
      return None;
    }
    var x := ReadSections(text, a);
    var y := ReadSections(text, b);
    if x.None? || y.None? {
      return None;
    }
    EmptyMeansAgreement(text, a, b);
    r := Some(Diff(
      Member(a.index, "index_hash") != Member(b.index, "index_hash"),
      ChangedFields(a.admission, b.admission, CONTRACT_IDENTITY),
      ChangedFields(a.index, b.index, GENERATION_IDENTITY),
      ChangedKeys(x.value.inputs, y.value.inputs),
      ChangedKeys(x.value.documents, y.value.documents),
      ChangedKeys(x.value.symbols, y.value.symbols),
      ChangedKeys(x.value.relationships, y.value.relationships),
      ChangedKeys(x.value.occurrences, y.value.occurrences),
      ChangedKeys(x.value.subjects, y.value.subjects),
      ChangedKeys(x.value.contractRelationships, y.value.contractRelationships),
      ChangedFields(a.policy, b.policy, {})));
  }
}
