/**
 Validation of a decoded index: symbol uniqueness over all documents and externals, occurrence ranges,
 and the resolution of every definition.
 */
module ScipIndex {
  import opened Common
  import opened SourceRanges

  // ---- the decoded message ----

  datatype RawRelation = RawRelation(
    symbol: string, isReference: bool, isImplementation: bool, isTypeDefinition: bool, isDefinition: bool)

  datatype RawSymbol = RawSymbol(symbol: string, relations: seq<RawRelation>)

  /** A range in its typed encoding, in the deprecated list of integers, or in both. */
  datatype RawRange = RawRange(typed: Option<seq<int>>, legacy: seq<int>)

  datatype RawOccurrence = RawOccurrence(symbol: string, roles: int, range: RawRange, enclosing: RawRange)

  datatype RawDocument = RawDocument(
    path: string, language: string, symbols: seq<RawSymbol>, occurrences: seq<RawOccurrence>)

  datatype RawIndex = RawIndex(documents: seq<RawDocument>, externals: seq<RawSymbol>)

  /**
   Facts about the source tree: whether a document has a canonical path, a language, a supported encoding
   and readable source equal to its embedded text, and whether a range lies inside a document's source.
   */
  datatype Sources = Sources(documentOk: RawDocument -> bool, inBounds: (string, Range) -> bool)

  // ---- the validated index ----

  datatype Symbol = Symbol(key: string, symbol: string, path: Option<string>, relations: seq<Relation>)

  datatype Relation = Relation(
    target: string, isReference: bool, isImplementation: bool, isTypeDefinition: bool, isDefinition: bool)

  datatype Occurrence = Occurrence(
    path: string, symbol: string, key: string, isDefinition: bool, range: Range, enclosing: Option<Range>)

  datatype Index = Index(languages: map<string, string>, symbols: seq<Symbol>, occurrences: seq<Occurrence>)

  datatype Rejected = Rejected(errors: nat)

  predicate IsLocal(symbol: string)
  {
    |symbol| >= 6 && symbol[..6] == "local "
  }

  /** `_symbol_key`, which refuses a local symbol without a document. */
  function SymbolKey(symbol: string, path: Option<string>): string
  {
    if IsLocal(symbol) && path.Some? then path.value + "\0" + symbol else symbol
  }

  predicate KeyOk(symbol: string, path: Option<string>)
  {
    IsLocal(symbol) ==> path.Some?
  }

  predicate RelationOk(r: RawRelation, path: Option<string>)
  {
    && r.symbol != ""
    && (r.isReference || r.isImplementation || r.isTypeDefinition || r.isDefinition)
    && KeyOk(r.symbol, path)
  }

  predicate SymbolOk(s: RawSymbol, path: Option<string>)
  {
    s.symbol != "" && KeyOk(s.symbol, path) && RelationsOk(s, path)
  }

  predicate RelationsOk(s: RawSymbol, path: Option<string>)
  {
    forall i :: 0 <= i < |s.relations| ==> RelationOk(s.relations[i], path)
  }

  function ReadRelation(r: RawRelation, path: Option<string>): Relation
  {
    Relation(SymbolKey(r.symbol, path), r.isReference, r.isImplementation, r.isTypeDefinition, r.isDefinition)
  }

  function ReadSymbol(s: RawSymbol, path: Option<string>): Symbol
  {
    Symbol(SymbolKey(s.symbol, path), s.symbol, path,
      seq(|s.relations|, i requires 0 <= i < |s.relations| => ReadRelation(s.relations[i], path)))
  }

  /** `_occurrence_range`: both encodings must agree; the result may be absent. */
  function ReadRange(r: RawRange): Result<Option<Range>, ()>
  {
    var typed := if r.typed.None? then None else RangeFromValues(r.typed.value);
    var legacy := if r.legacy == [] then None else RangeFromValues(r.legacy);
    if (r.typed.Some? && typed.None?) || (r.legacy != [] && legacy.None?) then Err(())
    else if typed.Some? && legacy.Some? && typed != legacy then Err(())
    else Ok(if typed.Some? then typed else legacy)
  }

  /** The range must be present and in bounds; an enclosing range must also contain it. */
  predicate OccurrenceOk(o: RawOccurrence, path: string, sources: Sources)
  {
    var range, enclosing := ReadRange(o.range), ReadRange(o.enclosing);
    && range.Ok? && range.value.Some? && sources.inBounds(path, range.value.value)
    && enclosing.Ok?
    && (enclosing.value.Some? ==>
          sources.inBounds(path, enclosing.value.value) && enclosing.value.value.Contains(range.value.value))
    && 0 <= o.roles < 128
    && (o.symbol == "" ==> o.roles == 0)
  }

  function ReadOccurrence(o: RawOccurrence, path: string): Occurrence
  {
    var range, enclosing := ReadRange(o.range), ReadRange(o.enclosing);
    Occurrence(path, o.symbol, if o.symbol == "" then "" else SymbolKey(o.symbol, Some(path)), o.roles % 2 == 1,
      if range.Ok? && range.value.Some? then range.value.value else Range(Position(0, 0), Position(0, 0)),
      if enclosing.Ok? then enclosing.value else None)
  }

  function ReadSymbols(raws: seq<RawSymbol>, path: Option<string>): (r: seq<Symbol>)
    ensures |r| == |raws|
  {
    if raws == [] then [] else ReadSymbols(raws[..|raws| - 1], path) + [ReadSymbol(raws[|raws| - 1], path)]
  }

  function ReadOccurrences(raws: seq<RawOccurrence>, path: string): (r: seq<Occurrence>)
    ensures |r| == |raws|
  {
    if raws == [] then [] else ReadOccurrences(raws[..|raws| - 1], path) + [ReadOccurrence(raws[|raws| - 1], path)]
  }

  function DocumentSymbols(documents: seq<RawDocument>): seq<Symbol>
  {
    if documents == [] then []
    else
      var last := documents[|documents| - 1];
      DocumentSymbols(documents[..|documents| - 1]) + ReadSymbols(last.symbols, Some(last.path))
  }

  function DocumentOccurrences(documents: seq<RawDocument>): seq<Occurrence>
  {
    if documents == [] then []
    else
      var last := documents[|documents| - 1];
      DocumentOccurrences(documents[..|documents| - 1]) + ReadOccurrences(last.occurrences, last.path)
  }

  function Languages(documents: seq<RawDocument>): map<string, string>
  {
    if documents == [] then map[]
    else
      var last := documents[|documents| - 1];
      Languages(documents[..|documents| - 1])[last.path := last.language]
  }

  /** What an accepted message becomes. */
  function Parsed(raw: RawIndex): Index
  {
    Index(Languages(raw.documents), DocumentSymbols(raw.documents) + ReadSymbols(raw.externals, None),
      DocumentOccurrences(raw.documents))
  }

  // ---- when a message is accepted ----

  predicate DistinctKeys(symbols: seq<Symbol>)
  {
    forall i, j :: 0 <= i < j < |symbols| ==> symbols[i].key != symbols[j].key
  }

  function Keys(symbols: seq<Symbol>): set<string>
  {
    set s | s in symbols :: s.key
  }

  /** The document symbols a definition may resolve to. */
  function Matching(symbols: seq<Symbol>, o: Occurrence): seq<Symbol>
  {
    if symbols == [] then []
    else
      var last := symbols[|symbols| - 1];
      Matching(symbols[..|symbols| - 1], o) + if last.key == o.key && last.path == Some(o.path) then [last] else []
  }

  predicate DefinitionOk(symbols: seq<Symbol>, o: Occurrence)
  {
    o.isDefinition ==> |Matching(symbols, o)| == 1
  }

  predicate SymbolsOk(raws: seq<RawSymbol>, path: Option<string>)
  {
    forall i :: 0 <= i < |raws| ==> SymbolOk(raws[i], path)
  }

  predicate OccurrencesOk(raws: seq<RawOccurrence>, path: string, sources: Sources)
  {
    forall i :: 0 <= i < |raws| ==> OccurrenceOk(raws[i], path, sources)
  }

  predicate DocumentOk(document: RawDocument, sources: Sources)
  {
    && sources.documentOk(document)
    && SymbolsOk(document.symbols, Some(document.path))
    && OccurrencesOk(document.occurrences, document.path, sources)
  }

  predicate DistinctPaths(documents: seq<RawDocument>)
  {
    forall i, j :: 0 <= i < j < |documents| ==> documents[i].path != documents[j].path
  }

  predicate DocumentsOk(documents: seq<RawDocument>, sources: Sources)
  {
    DistinctPaths(documents) && forall i :: 0 <= i < |documents| ==> DocumentOk(documents[i], sources)
  }

  predicate DefinitionsOk(symbols: seq<Symbol>, occurrences: seq<Occurrence>)
  {
    forall i :: 0 <= i < |occurrences| ==> DefinitionOk(symbols, occurrences[i])
  }

  /** The whole of the acceptance condition, without reference to the order of the scan. */
  predicate Acceptable(raw: RawIndex, sources: Sources)
  {
    && raw.documents != []
    && DocumentsOk(raw.documents, sources)
    && SymbolsOk(raw.externals, None)
    && DistinctKeys(Parsed(raw).symbols)
    && DefinitionsOk(Parsed(raw).symbols, Parsed(raw).occurrences)
  }

  // ---- what acceptance gives ----

  /** Every symbol's key follows from its text and document, and no two symbols share one. */
  ghost predicate WellFormed(index: Index)
  {
    && DistinctKeys(index.symbols)
    && forall i :: 0 <= i < |index.symbols| ==>
         index.symbols[i].key == SymbolKey(index.symbols[i].symbol, index.symbols[i].path)
  }

  lemma {:induction false} ReadSymbolsAt(raws: seq<RawSymbol>, path: Option<string>, i: nat)
    requires i < |raws|
    ensures ReadSymbols(raws, path)[i] == ReadSymbol(raws[i], path)
  {
    if i < |raws| - 1 {
      ReadSymbolsAt(raws[..|raws| - 1], path, i);
    }
  }

  lemma {:induction false} DocumentSymbolsKeyed(documents: seq<RawDocument>, i: nat)
    requires i < |DocumentSymbols(documents)|
    ensures var s := DocumentSymbols(documents)[i]; s.key == SymbolKey(s.symbol, s.path) && s.path.Some?
  {
    var last, before := documents[|documents| - 1], DocumentSymbols(documents[..|documents| - 1]);
    if i < |before| {
      DocumentSymbolsKeyed(documents[..|documents| - 1], i);
    } else {
      ReadSymbolsAt(last.symbols, Some(last.path), i - |before|);
    }
  }

  lemma AcceptedIsWellFormed(raw: RawIndex, sources: Sources)
    requires Acceptable(raw, sources)
    ensures WellFormed(Parsed(raw))
  {
    var symbols, inside := Parsed(raw).symbols, DocumentSymbols(raw.documents);
    forall i | 0 <= i < |symbols| ensures symbols[i].key == SymbolKey(symbols[i].symbol, symbols[i].path) {
      if i < |inside| {
        DocumentSymbolsKeyed(raw.documents, i);
      } else {
        ReadSymbolsAt(raw.externals, None, i - |inside|);
      }
    }
  }

  /** A symbol that is not local has one entry in the whole index, whichever documents mention it. */
  lemma GlobalSymbolIsUnique(index: Index, i: nat, j: nat)
    requires WellFormed(index) && i < |index.symbols| && j < |index.symbols|
    requires index.symbols[i].symbol == index.symbols[j].symbol && !IsLocal(index.symbols[i].symbol)
    ensures i == j
  {
  }

  lemma {:induction false} MatchingComesFrom(symbols: seq<Symbol>, o: Occurrence, i: nat)
    requires i < |Matching(symbols, o)|
    ensures var s := Matching(symbols, o)[i]; s in symbols && s.key == o.key && s.path == Some(o.path)
  {
    var before := symbols[..|symbols| - 1];
    if i < |Matching(before, o)| {
      MatchingComesFrom(before, o, i);
    }
  }

  /** Every definition of an accepted index is described by a symbol of its own document. */
  lemma DefinitionIsDescribed(index: Index, o: Occurrence)
    requires DefinitionOk(index.symbols, o) && o.isDefinition
    ensures exists s :: s in index.symbols && s.key == o.key && s.path == Some(o.path)
  {
    MatchingComesFrom(index.symbols, o, 0);
  }

  // ---- the scan ----

  lemma KeysSnoc(symbols: seq<Symbol>, s: Symbol)
    ensures Keys(symbols + [s]) == Keys(symbols) + {s.key}
    ensures DistinctKeys(symbols + [s]) <==> DistinctKeys(symbols) && s.key !in Keys(symbols)
  {
    var more := symbols + [s];
    assert forall t :: t in more <==> t in symbols || t == s;
    if DistinctKeys(more) {
      forall i, j | 0 <= i < j < |symbols| ensures symbols[i].key != symbols[j].key {
        assert more[i].key != more[j].key;
      }
      forall t | t in symbols ensures t.key != s.key {
        var i :| 0 <= i < |symbols| && symbols[i] == t;
        assert more[i].key != more[|symbols|].key;
      }
    }
    if DistinctKeys(symbols) && s.key !in Keys(symbols) {
      forall i, j | 0 <= i < j < |more| ensures more[i].key != more[j].key {
        assert more[i] in symbols;
      }
    }
  }

  lemma DistinctPrefix(a: seq<Symbol>, b: seq<Symbol>)
    requires DistinctKeys(a + b)
    ensures DistinctKeys(a)
  {
    forall i, j | 0 <= i < j < |a| ensures a[i].key != a[j].key {
      assert (a + b)[i].key != (a + b)[j].key;
    }
  }

  /** The symbols recorded so far, with the keys in use and the documents of global symbols. */
  datatype Scan = Scan(
    errors: nat, keys: set<string>, locations: map<string, string>, symbols: seq<Symbol>,
    paths: set<string>, occurrences: seq<Occurrence>)

  ghost predicate Recorded(scan: Scan)
  {
    && scan.keys == Keys(scan.symbols)
    && DistinctKeys(scan.symbols)
    && scan.locations.Keys <= scan.keys
  }

  /** The scan has met no error exactly if all it was given is in order. */
  ghost predicate Agrees(before: Scan, after: Scan, ok: bool, symbols: seq<Symbol>)
  {
    && after.errors >= before.errors
    && (after.errors == 0 <==> before.errors == 0 && ok && DistinctKeys(symbols))
    && (after.errors == 0 ==> Recorded(after) && after.symbols == symbols)
  }

  method ScanRelations(s: RawSymbol, path: Option<string>) returns (errors: nat)
    ensures errors == 0 <==> RelationsOk(s, path)
  {
    errors := 0;
    for i := 0 to |s.relations|
      invariant errors == 0 <==> forall k :: 0 <= k < i ==> RelationOk(s.relations[k], path)
    {
      if !RelationOk(s.relations[i], path) {
        errors := errors + 1;
      }
    }
  }

  /** One symbol of a document, or an external one when there is no path. */
  method ScanSymbol(raw: RawSymbol, path: Option<string>, before: Scan) returns (after: Scan)
    requires before.errors == 0 ==> Recorded(before)
    ensures Agrees(before, after, SymbolOk(raw, path), before.symbols + [ReadSymbol(raw, path)])
    ensures after.paths == before.paths && after.occurrences == before.occurrences
  {
    KeysSnoc(before.symbols, ReadSymbol(raw, path));
    if raw.symbol == "" || !KeyOk(raw.symbol, path) {
      return before.(errors := before.errors + 1);
    }
    var key := SymbolKey(raw.symbol, path);
    if key in before.keys {
      return before.(errors := before.errors + 1);
    }
    if path.Some? && !IsLocal(raw.symbol) && raw.symbol in before.locations {
      return before.(errors := before.errors + 1);
    }
    var relationErrors := ScanRelations(raw, path);
    var locations := if IsLocal(raw.symbol) || path.None? then before.locations
                     else before.locations[raw.symbol := path.value];
    after := before.(errors := before.errors + relationErrors, keys := before.keys + {key}, locations := locations,
      symbols := before.symbols + [ReadSymbol(raw, path)]);
  }

  method ScanSymbols(raws: seq<RawSymbol>, path: Option<string>, before: Scan) returns (after: Scan)
    requires before.errors == 0 ==> Recorded(before)
    ensures Agrees(before, after, SymbolsOk(raws, path), before.symbols + ReadSymbols(raws, path))
    ensures after.paths == before.paths && after.occurrences == before.occurrences
  {
    after := before;
    assert before.symbols + ReadSymbols(raws[..0], path) == before.symbols;
    for i := 0 to |raws|
      invariant after.errors == 0 ==> Recorded(after)
      invariant Agrees(before, after, SymbolsOk(raws[..i], path), before.symbols + ReadSymbols(raws[..i], path))
      invariant after.paths == before.paths && after.occurrences == before.occurrences
    {
      SymbolsOkSnoc(raws, path, i);
      SymbolsSnoc(raws, path, before.symbols, i);
      after := ScanSymbol(raws[i], path, after);
    }
    assert raws[..|raws|] == raws;
  }

  lemma SymbolsOkSnoc(raws: seq<RawSymbol>, path: Option<string>, i: nat)
    requires i < |raws|
    ensures SymbolsOk(raws[..i + 1], path) <==> SymbolsOk(raws[..i], path) && SymbolOk(raws[i], path)
  {
    var more := raws[..i + 1];
    assert forall k :: 0 <= k < i ==> more[k] == raws[..i][k];
    assert more[i] == raws[i];
  }

  lemma SymbolsSnoc(raws: seq<RawSymbol>, path: Option<string>, start: seq<Symbol>, i: nat)
    requires i < |raws|
    ensures start + ReadSymbols(raws[..i + 1], path) == start + ReadSymbols(raws[..i], path) + [ReadSymbol(raws[i], path)]
    ensures DistinctKeys(start + ReadSymbols(raws[..i + 1], path)) ==> DistinctKeys(start + ReadSymbols(raws[..i], path))
  {
    var more := raws[..i + 1];
    assert more[..|more| - 1] == raws[..i];
    assert start + ReadSymbols(more, path) == start + ReadSymbols(raws[..i], path) + [ReadSymbol(raws[i], path)];
    if DistinctKeys(start + ReadSymbols(more, path)) {
      DistinctPrefix(start + ReadSymbols(raws[..i], path), [ReadSymbol(raws[i], path)]);
    }
  }

  lemma OccurrencesSnoc(raws: seq<RawOccurrence>, path: string, sources: Sources, i: nat)
    requires i < |raws|
    ensures OccurrencesOk(raws[..i + 1], path, sources) <==>
      OccurrencesOk(raws[..i], path, sources) && OccurrenceOk(raws[i], path, sources)
    ensures ReadOccurrences(raws[..i + 1], path) == ReadOccurrences(raws[..i], path) + [ReadOccurrence(raws[i], path)]
  {
    var more := raws[..i + 1];
    assert more[..|more| - 1] == raws[..i];
    assert forall k :: 0 <= k < i ==> more[k] == raws[..i][k];
  }

  method ScanOccurrences(raws: seq<RawOccurrence>, path: string, sources: Sources)
    returns (errors: nat, read: seq<Occurrence>)
    ensures errors == 0 <==> OccurrencesOk(raws, path, sources)
    ensures errors == 0 ==> read == ReadOccurrences(raws, path)
  {
    errors, read := 0, [];
    for i := 0 to |raws|
      invariant errors == 0 <==> OccurrencesOk(raws[..i], path, sources)
      invariant errors == 0 ==> read == ReadOccurrences(raws[..i], path)
    {
      OccurrencesSnoc(raws, path, sources, i);
      if OccurrenceOk(raws[i], path, sources) {
        read := read + [ReadOccurrence(raws[i], path)];
      } else {
        errors := errors + 1;
      }
    }
    assert raws[..|raws|] == raws;
  }

  ghost predicate DocumentsRead(documents: seq<RawDocument>, sources: Sources)
  {
    DocumentsOk(documents, sources) && DistinctKeys(DocumentSymbols(documents))
  }

  ghost predicate Scanned(documents: seq<RawDocument>, sources: Sources, scan: Scan)
  {
    && (scan.errors == 0 <==> DocumentsRead(documents, sources))
    && (scan.errors == 0 ==>
          && Recorded(scan)
          && scan.symbols == DocumentSymbols(documents)
          && scan.occurrences == DocumentOccurrences(documents)
          && (forall p :: p in scan.paths <==> exists i :: 0 <= i < |documents| && documents[i].path == p))
  }

  lemma DocumentsSnoc(documents: seq<RawDocument>, last: RawDocument, sources: Sources)
    ensures var more := documents + [last];
      && DocumentSymbols(more) == DocumentSymbols(documents) + ReadSymbols(last.symbols, Some(last.path))
      && DocumentOccurrences(more) == DocumentOccurrences(documents) + ReadOccurrences(last.occurrences, last.path)
      && (DocumentsOk(more, sources) <==>
            && DocumentsOk(documents, sources) && DocumentOk(last, sources)
            && forall i :: 0 <= i < |documents| ==> documents[i].path != last.path)
      && (DistinctKeys(DocumentSymbols(more)) ==> DistinctKeys(DocumentSymbols(documents)))
  {
    var more := documents + [last];
    assert more[..|more| - 1] == documents;
    if DistinctKeys(DocumentSymbols(more)) {
      DistinctPrefix(DocumentSymbols(documents), ReadSymbols(last.symbols, Some(last.path)));
    }
    DocumentsOkSnoc(documents, last, sources);
  }

  lemma DocumentsOkSnoc(documents: seq<RawDocument>, last: RawDocument, sources: Sources)
    ensures DocumentsOk(documents + [last], sources) <==>
      && DocumentsOk(documents, sources) && DocumentOk(last, sources)
      && forall i :: 0 <= i < |documents| ==> documents[i].path != last.path
  {
    var more := documents + [last];
    if DocumentsOk(more, sources) {
      forall i | 0 <= i < |documents| ensures documents[i].path != last.path && DocumentOk(documents[i], sources) {
        assert more[i].path != more[|documents|].path && DocumentOk(more[i], sources);
      }
      forall i, j | 0 <= i < j < |documents| ensures documents[i].path != documents[j].path {
        assert more[i].path != more[j].path;
      }
      assert more[|documents|] == last;
    }
  }

  /** The body of one document, once its path is new and its source is in order. */
  method ScanBody(document: RawDocument, sources: Sources, before: Scan) returns (after: Scan)
    requires before.errors == 0 ==> Recorded(before)
    ensures Agrees(before, after,
      SymbolsOk(document.symbols, Some(document.path)) && OccurrencesOk(document.occurrences, document.path, sources),
      before.symbols + ReadSymbols(document.symbols, Some(document.path)))
    ensures after.paths == before.paths
    ensures after.errors == 0 ==>
      after.occurrences == before.occurrences + ReadOccurrences(document.occurrences, document.path)
  {
    after := ScanSymbols(document.symbols, Some(document.path), before);
    var occurrenceErrors, read := ScanOccurrences(document.occurrences, document.path, sources);
    after := after.(errors := after.errors + occurrenceErrors, occurrences := after.occurrences + read);
  }

  method ScanDocument(document: RawDocument, sources: Sources, before: Scan, ghost documents: seq<RawDocument>)
    returns (after: Scan)
    requires Scanned(documents, sources, before)
    ensures Scanned(documents + [document], sources, after)
  {
    DocumentsSnoc(documents, document, sources);
    if document.path in before.paths {
      return before.(errors := before.errors + 1);
    }
    if !sources.documentOk(document) {
      return before.(errors := before.errors + 1);
    }
    after := ScanBody(document, sources, before.(paths := before.paths + {document.path}));
    if after.errors == 0 {
      PathsSnoc(documents, document, before.paths);
    }
  }

  lemma PathsSnoc(documents: seq<RawDocument>, last: RawDocument, paths: set<string>)
    requires forall p :: p in paths <==> exists i :: 0 <= i < |documents| && documents[i].path == p
    ensures var more := documents + [last];
      forall p :: p in paths + {last.path} <==> exists i :: 0 <= i < |more| && more[i].path == p
  {
    var more := documents + [last];
    forall p | p in paths + {last.path} ensures exists i :: 0 <= i < |more| && more[i].path == p {
      if p in paths {
        var i :| 0 <= i < |documents| && documents[i].path == p;
        assert more[i].path == p;
      } else {
        assert more[|documents|].path == p;
      }
    }
  }

  method ScanDocuments(documents: seq<RawDocument>, sources: Sources) returns (scan: Scan)
    ensures Scanned(documents, sources, scan)
  {
    scan := Scan(0, {}, map[], [], {}, []);
    for i := 0 to |documents|
      invariant Scanned(documents[..i], sources, scan)
    {
      scan := ScanDocument(documents[i], sources, scan, documents[..i]);
      assert documents[..i] + [documents[i]] == documents[..i + 1];
    }
    assert documents[..|documents|] == documents;
  }

  method CheckDefinitions(symbols: seq<Symbol>, occurrences: seq<Occurrence>) returns (errors: nat)
    ensures errors == 0 <==> DefinitionsOk(symbols, occurrences)
  {
    errors := 0;
    for i := 0 to |occurrences|
      invariant errors == 0 <==> forall k :: 0 <= k < i ==> DefinitionOk(symbols, occurrences[k])
    {
      if occurrences[i].isDefinition && |Matching(symbols, occurrences[i])| != 1 {
        errors := errors + 1;
      }
    }
  }

  lemma AcceptanceFacts(raw: RawIndex, sources: Sources)
    ensures Acceptable(raw, sources) ==> WellFormed(Parsed(raw))
    ensures DistinctKeys(Parsed(raw).symbols) ==> DistinctKeys(DocumentSymbols(raw.documents))
  {
    if Acceptable(raw, sources) {
      AcceptedIsWellFormed(raw, sources);
    }
    if DistinctKeys(Parsed(raw).symbols) {
      DistinctPrefix(DocumentSymbols(raw.documents), ReadSymbols(raw.externals, None));
    }
  }

  /** `_validate_scip_message`: accepts exactly the acceptable messages, and keeps everything in them. */
  method ValidateIndex(raw: RawIndex, sources: Sources) returns (r: Result<Index, Rejected>)
    ensures r.Ok? <==> Acceptable(raw, sources)
    ensures r.Ok? ==> r.value == Parsed(raw) && WellFormed(r.value)
  {
    var scan := ScanDocuments(raw.documents, sources);
    scan := ScanSymbols(raw.externals, None, scan);
    var unresolved := CheckDefinitions(scan.symbols, scan.occurrences);
    AcceptanceFacts(raw, sources);
    var errors := scan.errors + unresolved + if raw.documents == [] then 1 else 0;
    r := if errors != 0 then Err(Rejected(errors))
         else Ok(Index(Languages(raw.documents), scan.symbols, scan.occurrences));
  }
}
