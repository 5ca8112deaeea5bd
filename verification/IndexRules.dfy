/**
 When an index message is accepted, said of its documents, entries and occurrences, and what the accepted index holds.
 */
module IndexRules {
  import opened Common
  import opened SourceRanges
  import opened ScipIndex

  // ---- keys ----

  predicate StartsLocal(symbol: string)
  {
    "local " <= symbol
  }

  /** A local symbol is known by its document and its text, any other by its text alone. */
  predicate IsKey(key: string, symbol: string, path: Option<string>)
  {
    if StartsLocal(symbol) then path.Some? && key == path.value + "\0" + symbol else key == symbol
  }

  // ---- ranges ----

  /** Three numbers on one line, or four, none negative, the end not before the start. */
  predicate Encodes(values: seq<int>, range: Range)
  {
    && (|values| == 3 || |values| == 4) && (forall v :: v in values ==> v >= 0)
    && range.start == Position(values[0], values[1])
    && range.end == (if |values| == 3 then Position(values[0], values[2]) else Position(values[2], values[3]))
    && (range.start.line < range.end.line
        || (range.start.line == range.end.line && range.start.character <= range.end.character))
  }

  predicate Omits(r: RawRange)
  {
    r.typed.None? && r.legacy == []
  }

  /** Written in one encoding or in both, and both agree. */
  predicate Writes(r: RawRange, range: Range)
  {
    !Omits(r) && (r.typed.Some? ==> Encodes(r.typed.value, range)) && (r.legacy != [] ==> Encodes(r.legacy, range))
  }

  // ---- entries and occurrences ----

  /** A relationship names a symbol and says what it is; outside documents there are no local symbols. */
  predicate RelationFollows(r: RawRelation, path: Option<string>)
  {
    && r.symbol != "" && (r.isReference || r.isImplementation || r.isTypeDefinition || r.isDefinition)
    && (path.None? ==> !StartsLocal(r.symbol))
  }

  predicate EntryFollows(s: RawSymbol, path: Option<string>)
  {
    s.symbol != "" && (path.None? ==> !StartsLocal(s.symbol)) && forall r :: r in s.relations ==> RelationFollows(r, path)
  }

  /** A range in bounds, inside its enclosing range if there is one, and only the seven known roles, of a symbol. */
  ghost predicate OccurrenceFollows(o: RawOccurrence, path: string, sources: Sources)
  {
    && (exists range :: Writes(o.range, range) && sources.inBounds(path, range) && EnclosesWell(o, path, sources, range))
    && 0 <= o.roles <= 127 && (o.symbol == "" ==> o.roles == 0)
  }

  ghost predicate EnclosesWell(o: RawOccurrence, path: string, sources: Sources, range: Range)
  {
    Omits(o.enclosing) ||
    exists outer :: Writes(o.enclosing, outer) && sources.inBounds(path, outer) && Inside(range, outer)
  }

  // ---- places of entries: in a document, or after the last one among the externals ----

  function EntriesOf(raw: RawIndex, d: int): seq<RawSymbol>
    requires 0 <= d <= |raw.documents|
  {
    if d < |raw.documents| then raw.documents[d].symbols else raw.externals
  }

  function PathOf(raw: RawIndex, d: int): Option<string>
    requires 0 <= d <= |raw.documents|
  {
    if d < |raw.documents| then Some(raw.documents[d].path) else None
  }

  predicate IsPlace(raw: RawIndex, d: int, i: int)
  {
    0 <= d <= |raw.documents| && 0 <= i < |EntriesOf(raw, d)|
  }

  predicate HasKey(raw: RawIndex, d: int, i: int, key: string)
  {
    IsPlace(raw, d, i) && IsKey(key, EntriesOf(raw, d)[i].symbol, PathOf(raw, d))
  }

  predicate IsOccurrence(raw: RawIndex, d: int, k: int)
  {
    0 <= d < |raw.documents| && 0 <= k < |raw.documents[d].occurrences|
  }

  /** An entry of the occurrence's document has its key. */
  ghost predicate Described(raw: RawIndex, d: int, k: int)
    requires IsOccurrence(raw, d, k)
  {
    exists i, key :: IsKey(key, raw.documents[d].occurrences[k].symbol, PathOf(raw, d)) && HasKey(raw, d, i, key)
  }

  ghost predicate OnePath(raw: RawIndex)
  {
    forall i, j :: 0 <= i < |raw.documents| && 0 <= j < |raw.documents| && raw.documents[i].path == raw.documents[j].path ==> i == j
  }

  ghost predicate DocumentsFollow(raw: RawIndex, sources: Sources)
  {
    && raw.documents != []
    && OnePath(raw)
    && forall d :: 0 <= d < |raw.documents| ==> sources.documentOk(raw.documents[d])
  }

  /** Every entry is in order, and no two have one key. */
  ghost predicate EntriesFollow(raw: RawIndex)
  {
    && (forall d, i :: IsPlace(raw, d, i) ==> EntryFollows(EntriesOf(raw, d)[i], PathOf(raw, d)))
    && forall d, i, e, j, key {:trigger HasKey(raw, d, i, key), HasKey(raw, e, j, key)} ::
         HasKey(raw, d, i, key) && HasKey(raw, e, j, key) ==> d == e && i == j
  }

  /** Every definition, which has the lowest role, has an entry with its key in its own document. */
  ghost predicate OccurrencesFollow(raw: RawIndex, sources: Sources)
  {
    forall d, k :: IsOccurrence(raw, d, k) ==>
      var o := raw.documents[d].occurrences[k];
      && OccurrenceFollows(o, raw.documents[d].path, sources)
      && (o.roles % 2 == 1 ==> Described(raw, d, k))
  }

  // ---- what an accepted message becomes ----

  /** The entry keeps key, symbol, document and every relationship in order, with its flags and the key of its target. */
  predicate KeepsEntry(s: Symbol, raw: RawSymbol, path: Option<string>)
  {
    && IsKey(s.key, raw.symbol, path) && s.symbol == raw.symbol && s.path == path && |s.relations| == |raw.relations|
    && forall k :: 0 <= k < |s.relations| ==>
         var r, q := s.relations[k], raw.relations[k];
         && IsKey(r.target, q.symbol, path) && r.isReference == q.isReference && r.isImplementation == q.isImplementation
         && r.isTypeDefinition == q.isTypeDefinition && r.isDefinition == q.isDefinition
  }

  ghost predicate KeepsOccurrence(o: Occurrence, raw: RawOccurrence, path: string)
  {
    && o.path == path && o.symbol == raw.symbol && (o.isDefinition <==> raw.roles % 2 == 1) && Writes(raw.range, o.range)
    && (match o.enclosing case None => Omits(raw.enclosing) case Some(outer) => Writes(raw.enclosing, outer))
    && (if raw.symbol == "" then o.key == "" else IsKey(o.key, raw.symbol, Some(path)))
  }

  // ---- ranges are read as written ----

  lemma EncodesIs(values: seq<int>, range: Range)
    ensures RangeFromValues(values) == Some(range) <==> Encodes(values, range)
  {
    if forall v :: v in values ==> v >= 0 {
      forall i | 0 <= i < |values| ensures values[i] >= 0 {
        assert values[i] in values;
      }
    }
  }

  lemma WritesIs(r: RawRange, range: Range)
    ensures ReadRange(r) == Ok(Some(range)) <==> Writes(r, range)
  {
    if r.typed.Some? {
      EncodesIs(r.typed.value, range);
      if t :| RangeFromValues(r.typed.value) == Some(t) {
        EncodesIs(r.typed.value, t);
      }
    }
    if r.legacy != [] {
      EncodesIs(r.legacy, range);
      if t :| RangeFromValues(r.legacy) == Some(t) {
        EncodesIs(r.legacy, t);
      }
    }
  }

  lemma OmitsIs(r: RawRange)
    ensures ReadRange(r) == Ok(None) <==> Omits(r)
  {
  }

  lemma OccurrenceIs(o: RawOccurrence, path: string, sources: Sources)
    ensures OccurrenceOk(o, path, sources) <==> OccurrenceFollows(o, path, sources)
  {
    var range, enclosing := ReadRange(o.range), ReadRange(o.enclosing);
    OmitsIs(o.enclosing);
    forall t ensures range == Ok(Some(t)) <==> Writes(o.range, t) {
      WritesIs(o.range, t);
    }
    forall t ensures enclosing == Ok(Some(t)) <==> Writes(o.enclosing, t) {
      WritesIs(o.enclosing, t);
    }
    if OccurrenceOk(o, path, sources) {
      var t := range.value.value;
      assert Writes(o.range, t);
      if enclosing.value.Some? {
        assert Writes(o.enclosing, enclosing.value.value);
      }
      assert EnclosesWell(o, path, sources, t);
    }
  }

  lemma OccurrenceIsKept(o: RawOccurrence, path: string, sources: Sources)
    requires OccurrenceOk(o, path, sources)
    ensures KeepsOccurrence(ReadOccurrence(o, path), o, path)
  {
    var range, enclosing := ReadRange(o.range), ReadRange(o.enclosing);
    WritesIs(o.range, range.value.value);
    OmitsIs(o.enclosing);
    if enclosing.value.Some? {
      WritesIs(o.enclosing, enclosing.value.value);
    }
    KeyIs(o.symbol, Some(path), SymbolKey(o.symbol, Some(path)));
  }

  // ---- keys and entries ----

  lemma LocalIs(symbol: string)
    ensures IsLocal(symbol) <==> StartsLocal(symbol)
  {
  }

  lemma KeyIs(symbol: string, path: Option<string>, key: string)
    requires KeyOk(symbol, path)
    ensures SymbolKey(symbol, path) == key <==> IsKey(key, symbol, path)
  {
    LocalIs(symbol);
  }

  lemma EntryIs(s: RawSymbol, path: Option<string>)
    ensures SymbolOk(s, path) <==> EntryFollows(s, path)
  {
    LocalIs(s.symbol);
    forall r ensures RelationOk(r, path) <==> RelationFollows(r, path) {
      LocalIs(r.symbol);
    }
    if EntryFollows(s, path) {
      forall i | 0 <= i < |s.relations| ensures RelationOk(s.relations[i], path) {
        assert s.relations[i] in s.relations;
      }
    }
  }

  lemma EntryIsKept(s: RawSymbol, path: Option<string>)
    requires SymbolOk(s, path)
    ensures KeepsEntry(ReadSymbol(s, path), s, path)
  {
    KeyIs(s.symbol, path, SymbolKey(s.symbol, path));
    forall k | 0 <= k < |s.relations| ensures IsKey(ReadSymbol(s, path).relations[k].target, s.relations[k].symbol, path) {
      assert RelationOk(s.relations[k], path);
      KeyIs(s.relations[k].symbol, path, SymbolKey(s.relations[k].symbol, path));
    }
  }

  // ---- all entries, document by document ----

  function Block(raw: RawIndex, d: int): seq<Symbol>
    requires 0 <= d <= |raw.documents|
  {
    ReadSymbols(EntriesOf(raw, d), PathOf(raw, d))
  }

  function Blocks(raw: RawIndex, n: nat): seq<Symbol>
    requires n <= |raw.documents| + 1
  {
    if n == 0 then [] else Blocks(raw, n - 1) + Block(raw, n - 1)
  }

  lemma {:induction false} BlocksAre(raw: RawIndex, n: nat)
    requires n <= |raw.documents|
    ensures Blocks(raw, n) == DocumentSymbols(raw.documents[..n])
  {
    if n > 0 {
      BlocksAre(raw, n - 1);
      assert raw.documents[..n][..n - 1] == raw.documents[..n - 1];
    }
  }

  lemma ParsedAreBlocks(raw: RawIndex)
    ensures Parsed(raw).symbols == Blocks(raw, |raw.documents| + 1)
  {
    BlocksAre(raw, |raw.documents|);
    assert raw.documents[..|raw.documents|] == raw.documents;
  }

  function SymbolAt(raw: RawIndex, d: int, i: int): Symbol
    requires IsPlace(raw, d, i)
  {
    ReadSymbol(EntriesOf(raw, d)[i], PathOf(raw, d))
  }

  lemma BlockAt(raw: RawIndex, d: int, i: int)
    requires IsPlace(raw, d, i)
    ensures |Block(raw, d)| == |EntriesOf(raw, d)| && Block(raw, d)[i] == SymbolAt(raw, d, i)
  {
    ReadSymbolsAt(EntriesOf(raw, d), PathOf(raw, d), i);
  }

  /** The symbol stands for some entry of the first documents. */
  ghost predicate StandsFor(raw: RawIndex, n: nat, s: Symbol)
  {
    exists d, i :: IsPlace(raw, d, i) && d < n && SymbolAt(raw, d, i) == s
  }

  ghost predicate StandsIn(raw: RawIndex, d: int, s: Symbol)
  {
    exists i :: IsPlace(raw, d, i) && SymbolAt(raw, d, i) == s
  }

  lemma {:induction false} BlocksHold(raw: RawIndex, n: nat)
    requires n <= |raw.documents| + 1
    ensures forall s :: s in Blocks(raw, n) <==> StandsFor(raw, n, s)
  {
    if n > 0 {
      BlocksHold(raw, n - 1);
      BlockHoldsAll(raw, n - 1);
      forall s ensures s in Blocks(raw, n) <==> StandsFor(raw, n, s) {
        if s in Blocks(raw, n - 1) {
          assert StandsFor(raw, n - 1, s);
        } else if s in Block(raw, n - 1) {
          var i :| IsPlace(raw, n - 1, i) && SymbolAt(raw, n - 1, i) == s;
        }
        if d, i :| IsPlace(raw, d, i) && d < n && SymbolAt(raw, d, i) == s {
          if d < n - 1 {
            assert StandsFor(raw, n - 1, s);
          }
        }
      }
    }
  }

  lemma BlockHolds(raw: RawIndex, d: int, s: Symbol)
    requires 0 <= d <= |raw.documents|
    ensures s in Block(raw, d) <==> StandsIn(raw, d, s)
  {
    if s in Block(raw, d) {
      var i :| 0 <= i < |Block(raw, d)| && Block(raw, d)[i] == s;
      BlockAt(raw, d, i);
    }
    if i :| IsPlace(raw, d, i) && SymbolAt(raw, d, i) == s {
      BlockAt(raw, d, i);
    }
  }

  lemma BlockHoldsAll(raw: RawIndex, d: int)
    requires 0 <= d <= |raw.documents|
    ensures forall s :: s in Block(raw, d) <==> StandsIn(raw, d, s)
  {
    forall s ensures s in Block(raw, d) <==> StandsIn(raw, d, s) {
      BlockHolds(raw, d, s);
    }
  }

  // ---- no two keys ----

  ghost predicate Clash(raw: RawIndex, d: int, i: int, e: int, j: int)
  {
    IsPlace(raw, d, i) && IsPlace(raw, e, j) && SymbolAt(raw, d, i).key == SymbolAt(raw, e, j).key
  }

  ghost predicate Within(raw: RawIndex, d: int, i: int, j: int)
  {
    Clash(raw, d, i, d, j)
  }

  ghost predicate NoneWithin(raw: RawIndex, d: int)
  {
    forall i, j :: Within(raw, d, i, j) ==> i == j
  }

  ghost predicate NoClash(raw: RawIndex, n: nat)
  {
    forall d, i, e, j :: Clash(raw, d, i, e, j) && d < n && e < n ==> d == e && i == j
  }

  lemma KeysSplit(a: seq<Symbol>, b: seq<Symbol>)
    ensures DistinctKeys(a + b) <==> DistinctKeys(a) && DistinctKeys(b) && forall s, t :: s in a && t in b ==> s.key != t.key
  {
    var whole := a + b;
    if DistinctKeys(whole) {
      DistinctPrefix(a, b);
      forall i, j | 0 <= i < j < |b| ensures b[i].key != b[j].key {
        assert whole[|a| + i].key != whole[|a| + j].key;
      }
      forall s, t | s in a && t in b ensures s.key != t.key {
        var i :| 0 <= i < |a| && a[i] == s;
        var j :| 0 <= j < |b| && b[j] == t;
        assert whole[i].key != whole[|a| + j].key;
      }
    }
    if DistinctKeys(a) && DistinctKeys(b) && forall s, t :: s in a && t in b ==> s.key != t.key {
      forall i, j | 0 <= i < j < |whole| ensures whole[i].key != whole[j].key {
        if i < |a| && j >= |a| {
          assert whole[i] in a && whole[j] in b;
        }
      }
    }
  }

  lemma BlockDistinct(raw: RawIndex, d: int)
    requires 0 <= d <= |raw.documents|
    ensures DistinctKeys(Block(raw, d)) <==> NoneWithin(raw, d)
  {
    forall i | 0 <= i < |EntriesOf(raw, d)| ensures |Block(raw, d)| == |EntriesOf(raw, d)| && Block(raw, d)[i] == SymbolAt(raw, d, i) {
      BlockAt(raw, d, i);
    }
    if DistinctKeys(Block(raw, d)) {
      forall i, j | Within(raw, d, i, j) ensures i == j {
      }
    }
    if NoneWithin(raw, d) {
      forall i, j | 0 <= i < j < |Block(raw, d)| ensures Block(raw, d)[i].key != Block(raw, d)[j].key {
        assert IsPlace(raw, d, i) && IsPlace(raw, d, j);
        assert !Within(raw, d, i, j);
      }
    }
  }

  /** The last document's entries share no key with the earlier ones. */
  ghost predicate Apart(raw: RawIndex, n: nat)
    requires 0 < n <= |raw.documents| + 1
  {
    forall s, t :: s in Blocks(raw, n - 1) && t in Block(raw, n - 1) ==> s.key != t.key
  }

  lemma NextNoClash(raw: RawIndex, n: nat)
    requires 0 < n <= |raw.documents| + 1 && NoClash(raw, n - 1) && NoneWithin(raw, n - 1) && Apart(raw, n)
    ensures NoClash(raw, n)
  {
    forall d, i, e, j | Clash(raw, d, i, e, j) && d < n && e < n ensures d == e && i == j {
      NoClashStep(raw, n, d, i, e, j);
    }
  }

  lemma BlocksSplit(raw: RawIndex, n: nat)
    requires 0 < n <= |raw.documents| + 1
    ensures DistinctKeys(Blocks(raw, n)) <==>
      DistinctKeys(Blocks(raw, n - 1)) && DistinctKeys(Block(raw, n - 1)) && Apart(raw, n)
  {
    KeysSplit(Blocks(raw, n - 1), Block(raw, n - 1));
  }

  lemma DistinctNoClash(raw: RawIndex, n: nat)
    requires 0 < n <= |raw.documents| + 1 && DistinctKeys(Blocks(raw, n))
    requires DistinctKeys(Blocks(raw, n - 1)) ==> NoClash(raw, n - 1)
    ensures NoClash(raw, n)
  {
    BlocksSplit(raw, n);
    BlockDistinct(raw, n - 1);
    NextNoClash(raw, n);
  }

  lemma NoClashDistinct(raw: RawIndex, n: nat)
    requires 0 < n <= |raw.documents| + 1 && NoClash(raw, n)
    requires NoClash(raw, n - 1) ==> DistinctKeys(Blocks(raw, n - 1))
    ensures DistinctKeys(Blocks(raw, n))
  {
    NoClashApart(raw, n);
    BlockDistinct(raw, n - 1);
    BlocksSplit(raw, n);
  }

  lemma {:induction false} BlocksDistinct(raw: RawIndex, n: nat)
    requires n <= |raw.documents| + 1
    ensures DistinctKeys(Blocks(raw, n)) <==> NoClash(raw, n)
    decreases n
  {
    if n > 0 {
      BlocksDistinct(raw, n - 1);
      if DistinctKeys(Blocks(raw, n)) {
        DistinctNoClash(raw, n);
      } else if NoClash(raw, n) {
        NoClashDistinct(raw, n);
      }
    }
  }

  lemma NoClashStep(raw: RawIndex, n: nat, d: int, i: int, e: int, j: int)
    requires 0 < n <= |raw.documents| + 1 && Clash(raw, d, i, e, j) && d < n && e < n
    requires NoClash(raw, n - 1) && NoneWithin(raw, n - 1)
    requires Apart(raw, n)
    ensures d == e && i == j
  {
    BlocksHold(raw, n - 1);
    if d < n - 1 && e == n - 1 {
      BlockHolds(raw, e, SymbolAt(raw, e, j));
      assert StandsFor(raw, n - 1, SymbolAt(raw, d, i));
    } else if d == n - 1 && e < n - 1 {
      BlockHolds(raw, d, SymbolAt(raw, d, i));
      assert StandsFor(raw, n - 1, SymbolAt(raw, e, j));
    } else if d == e == n - 1 {
      assert Within(raw, n - 1, i, j);
    }
  }

  lemma NoClashApart(raw: RawIndex, n: nat)
    requires 0 < n <= |raw.documents| + 1 && NoClash(raw, n)
    ensures NoClash(raw, n - 1) && NoneWithin(raw, n - 1)
    ensures Apart(raw, n)
  {
    BlocksHold(raw, n - 1);
    forall s, t | s in Blocks(raw, n - 1) && t in Block(raw, n - 1) ensures s.key != t.key {
      assert StandsFor(raw, n - 1, s);
      var d, i :| IsPlace(raw, d, i) && d < n - 1 && SymbolAt(raw, d, i) == s;
      BlockHolds(raw, n - 1, t);
      var j :| IsPlace(raw, n - 1, j) && SymbolAt(raw, n - 1, j) == t;
      assert !Clash(raw, d, i, n - 1, j);
    }
  }

  // ---- the verdict ----

  ghost predicate AllInOrder(raw: RawIndex)
  {
    forall d, i :: IsPlace(raw, d, i) ==> EntryFollows(EntriesOf(raw, d)[i], PathOf(raw, d))
  }

  lemma EntriesInOrder(raw: RawIndex)
    ensures AllInOrder(raw) <==>
      SymbolsOk(raw.externals, None) && forall d :: 0 <= d < |raw.documents| ==> SymbolsOk(raw.documents[d].symbols, Some(raw.documents[d].path))
  {
    forall d, i | IsPlace(raw, d, i)
      ensures SymbolOk(EntriesOf(raw, d)[i], PathOf(raw, d)) <==> EntryFollows(EntriesOf(raw, d)[i], PathOf(raw, d))
    {
      EntryIs(EntriesOf(raw, d)[i], PathOf(raw, d));
    }
    if AllInOrder(raw) {
      forall d, i | 0 <= d < |raw.documents| && 0 <= i < |raw.documents[d].symbols|
        ensures SymbolOk(raw.documents[d].symbols[i], Some(raw.documents[d].path))
      {
        assert IsPlace(raw, d, i);
      }
      forall i | 0 <= i < |raw.externals| ensures SymbolOk(raw.externals[i], None) {
        assert IsPlace(raw, |raw.documents|, i);
      }
    }
  }

  lemma PlaceKey(raw: RawIndex, d: int, i: int)
    requires AllInOrder(raw) && IsPlace(raw, d, i)
    ensures forall key :: HasKey(raw, d, i, key) <==> SymbolAt(raw, d, i).key == key
  {
    var s, path := EntriesOf(raw, d)[i], PathOf(raw, d);
    assert EntryFollows(s, path);
    EntryIs(s, path);
    forall key ensures HasKey(raw, d, i, key) <==> SymbolAt(raw, d, i).key == key {
      KeyIs(s.symbol, path, key);
    }
  }

  lemma ClashIs(raw: RawIndex)
    requires AllInOrder(raw)
    ensures DistinctKeys(Parsed(raw).symbols) <==> EntriesFollow(raw)
  {
    ParsedAreBlocks(raw);
    BlocksDistinct(raw, |raw.documents| + 1);
    if EntriesFollow(raw) {
      forall d, i, e, j | Clash(raw, d, i, e, j) ensures d == e && i == j {
        PlaceKey(raw, d, i);
        PlaceKey(raw, e, j);
        assert HasKey(raw, d, i, SymbolAt(raw, d, i).key) && HasKey(raw, e, j, SymbolAt(raw, d, i).key);
      }
    }
    if NoClash(raw, |raw.documents| + 1) {
      forall d, i, e, j, key | HasKey(raw, d, i, key) && HasKey(raw, e, j, key) ensures d == e && i == j {
        PlaceKey(raw, d, i);
        PlaceKey(raw, e, j);
        assert Clash(raw, d, i, e, j);
      }
    }
  }

  // ---- occurrences ----

  lemma {:induction false} OccurrencesRead(raws: seq<RawOccurrence>, path: string, k: nat)
    requires k < |raws|
    ensures ReadOccurrences(raws, path)[k] == ReadOccurrence(raws[k], path)
  {
    if k < |raws| - 1 {
      OccurrencesRead(raws[..|raws| - 1], path, k);
    }
  }

  function OccurrenceAt(raw: RawIndex, d: int, k: int): Occurrence
    requires IsOccurrence(raw, d, k)
  {
    ReadOccurrence(raw.documents[d].occurrences[k], raw.documents[d].path)
  }

  ghost predicate OccursIn(raw: RawIndex, n: nat, o: Occurrence)
  {
    exists d, k :: IsOccurrence(raw, d, k) && d < n && OccurrenceAt(raw, d, k) == o
  }

  lemma DocumentOccurs(raw: RawIndex, d: int, o: Occurrence)
    requires 0 <= d < |raw.documents|
    ensures o in ReadOccurrences(raw.documents[d].occurrences, raw.documents[d].path) <==>
      exists k :: IsOccurrence(raw, d, k) && OccurrenceAt(raw, d, k) == o
  {
    var read := ReadOccurrences(raw.documents[d].occurrences, raw.documents[d].path);
    if o in read {
      var k :| 0 <= k < |read| && read[k] == o;
      OccurrencesRead(raw.documents[d].occurrences, raw.documents[d].path, k);
      assert IsOccurrence(raw, d, k);
    }
    if k :| IsOccurrence(raw, d, k) && OccurrenceAt(raw, d, k) == o {
      OccurrencesRead(raw.documents[d].occurrences, raw.documents[d].path, k);
    }
  }

  lemma {:induction false} OccurrencesHold(raw: RawIndex, n: nat)
    requires n <= |raw.documents|
    ensures forall o :: o in DocumentOccurrences(raw.documents[..n]) <==> OccursIn(raw, n, o)
  {
    if n > 0 {
      var before := raw.documents[..n - 1];
      OccurrencesHold(raw, n - 1);
      assert raw.documents[..n][..n - 1] == before;
      forall o ensures o in DocumentOccurrences(raw.documents[..n]) <==> OccursIn(raw, n, o) {
        DocumentOccurs(raw, n - 1, o);
        if o in DocumentOccurrences(before) {
          assert OccursIn(raw, n - 1, o);
        }
        if d, k :| IsOccurrence(raw, d, k) && d < n && OccurrenceAt(raw, d, k) == o {
          if d < n - 1 {
            assert OccursIn(raw, n - 1, o);
          }
        }
      }
    }
  }

  lemma {:induction false} MatchingIsOne(symbols: seq<Symbol>, o: Occurrence)
    requires DistinctKeys(symbols)
    ensures |Matching(symbols, o)| <= 1
    ensures |Matching(symbols, o)| == 1 <==> exists s :: s in symbols && s.key == o.key && s.path == Some(o.path)
  {
    if symbols != [] {
      var before, last := symbols[..|symbols| - 1], symbols[|symbols| - 1];
      MatchingIsOne(before, o);
      assert symbols == before + [last];
    }
  }

  lemma EntryDescribes(raw: RawIndex, d: int, k: int, s: Symbol)
    requires AllInOrder(raw) && OnePath(raw) && IsOccurrence(raw, d, k) && raw.documents[d].occurrences[k].symbol != ""
    requires s in Parsed(raw).symbols && s.key == OccurrenceAt(raw, d, k).key && s.path == Some(raw.documents[d].path)
    ensures Described(raw, d, k)
  {
    var key := OccurrenceAt(raw, d, k).key;
    ParsedAreBlocks(raw);
    BlocksHold(raw, |raw.documents| + 1);
    assert StandsFor(raw, |raw.documents| + 1, s);
    var e, i :| IsPlace(raw, e, i) && SymbolAt(raw, e, i) == s;
    assert e == d;
    PlaceKey(raw, d, i);
    KeyIs(raw.documents[d].occurrences[k].symbol, PathOf(raw, d), key);
    assert HasKey(raw, d, i, key);
  }

  lemma DescribedHasEntry(raw: RawIndex, d: int, k: int) returns (s: Symbol)
    requires AllInOrder(raw) && IsOccurrence(raw, d, k) && raw.documents[d].occurrences[k].symbol != "" && Described(raw, d, k)
    ensures s in Parsed(raw).symbols && s.key == OccurrenceAt(raw, d, k).key && s.path == Some(raw.documents[d].path)
  {
    var i, key :| IsKey(key, raw.documents[d].occurrences[k].symbol, PathOf(raw, d)) && HasKey(raw, d, i, key);
    s := SymbolAt(raw, d, i);
    PlaceKey(raw, d, i);
    KeyIs(raw.documents[d].occurrences[k].symbol, PathOf(raw, d), key);
    PlaceIsParsed(raw, d, i);
  }

  lemma PlaceIsParsed(raw: RawIndex, d: int, i: int)
    requires IsPlace(raw, d, i)
    ensures SymbolAt(raw, d, i) in Parsed(raw).symbols
  {
    ParsedAreBlocks(raw);
    BlocksHold(raw, |raw.documents| + 1);
    assert StandsFor(raw, |raw.documents| + 1, SymbolAt(raw, d, i));
  }

  /** A definition is described exactly if an entry of its own document has its key. */
  lemma DefinitionIs(raw: RawIndex, d: int, k: int)
    requires AllInOrder(raw) && OnePath(raw) && DistinctKeys(Parsed(raw).symbols)
    requires IsOccurrence(raw, d, k) && raw.documents[d].occurrences[k].symbol != ""
    ensures |Matching(Parsed(raw).symbols, OccurrenceAt(raw, d, k))| == 1 <==> Described(raw, d, k)
  {
    var o, symbols := OccurrenceAt(raw, d, k), Parsed(raw).symbols;
    MatchingIsOne(symbols, o);
    if s :| s in symbols && s.key == o.key && s.path == Some(o.path) {
      EntryDescribes(raw, d, k, s);
    }
    if Described(raw, d, k) {
      var s := DescribedHasEntry(raw, d, k);
    }
  }

  lemma OccurrenceOkIs(raw: RawIndex, sources: Sources)
    ensures (forall d :: 0 <= d < |raw.documents| ==> OccurrencesOk(raw.documents[d].occurrences, raw.documents[d].path, sources)) <==>
      forall d, k :: IsOccurrence(raw, d, k) ==> OccurrenceFollows(raw.documents[d].occurrences[k], raw.documents[d].path, sources)
  {
    forall d, k | IsOccurrence(raw, d, k)
      ensures OccurrenceOk(raw.documents[d].occurrences[k], raw.documents[d].path, sources) <==>
        OccurrenceFollows(raw.documents[d].occurrences[k], raw.documents[d].path, sources)
    {
      OccurrenceIs(raw.documents[d].occurrences[k], raw.documents[d].path, sources);
    }
    if forall d, k :: IsOccurrence(raw, d, k) ==> OccurrenceFollows(raw.documents[d].occurrences[k], raw.documents[d].path, sources) {
      forall d, k | 0 <= d < |raw.documents| && 0 <= k < |raw.documents[d].occurrences|
        ensures OccurrenceOk(raw.documents[d].occurrences[k], raw.documents[d].path, sources)
      {
        assert IsOccurrence(raw, d, k);
      }
    }
  }

  // ---- the verdict ----

  lemma DefinitionsAre(raw: RawIndex, sources: Sources)
    requires AllInOrder(raw) && OnePath(raw) && DistinctKeys(Parsed(raw).symbols)
    requires forall d, k :: IsOccurrence(raw, d, k) ==>
      OccurrenceFollows(raw.documents[d].occurrences[k], raw.documents[d].path, sources)
    ensures DefinitionsOk(Parsed(raw).symbols, Parsed(raw).occurrences) <==>
      forall d, k :: IsOccurrence(raw, d, k) && raw.documents[d].occurrences[k].roles % 2 == 1 ==> Described(raw, d, k)
  {
    var symbols, occurrences := Parsed(raw).symbols, Parsed(raw).occurrences;
    OccurrencesHold(raw, |raw.documents|);
    assert raw.documents[..|raw.documents|] == raw.documents;
    forall d, k | IsOccurrence(raw, d, k)
      ensures DefinitionOk(symbols, OccurrenceAt(raw, d, k)) <==>
        (raw.documents[d].occurrences[k].roles % 2 == 1 ==> Described(raw, d, k))
    {
      if raw.documents[d].occurrences[k].roles % 2 == 1 {
        DefinitionIs(raw, d, k);
      }
    }
    if DefinitionsOk(symbols, occurrences) {
      forall d, k | IsOccurrence(raw, d, k) ensures DefinitionOk(symbols, OccurrenceAt(raw, d, k)) {
        assert OccursIn(raw, |raw.documents|, OccurrenceAt(raw, d, k));
        var i :| 0 <= i < |occurrences| && occurrences[i] == OccurrenceAt(raw, d, k);
        assert DefinitionOk(symbols, occurrences[i]);
      }
    }
    if forall d, k :: IsOccurrence(raw, d, k) && raw.documents[d].occurrences[k].roles % 2 == 1 ==> Described(raw, d, k) {
      forall i | 0 <= i < |occurrences| ensures DefinitionOk(symbols, occurrences[i]) {
        assert occurrences[i] in occurrences;
        assert OccursIn(raw, |raw.documents|, occurrences[i]);
        var d, k :| IsOccurrence(raw, d, k) && OccurrenceAt(raw, d, k) == occurrences[i];
      }
    }
  }

  lemma DocumentsAre(raw: RawIndex, sources: Sources)
    ensures raw.documents != [] && DocumentsOk(raw.documents, sources) && SymbolsOk(raw.externals, None) <==>
      && DocumentsFollow(raw, sources) && AllInOrder(raw)
      && forall d, k :: IsOccurrence(raw, d, k) ==>
           OccurrenceFollows(raw.documents[d].occurrences[k], raw.documents[d].path, sources)
  {
    EntriesInOrder(raw);
    OccurrenceOkIs(raw, sources);
  }

  /**
   A message is accepted exactly if it has documents, each in order and under its own path, no two entries have one key,
   every occurrence is in order, and every definition has an entry in its own document.
   */
  lemma AcceptableExactly(raw: RawIndex, sources: Sources)
    ensures Acceptable(raw, sources) <==>
      DocumentsFollow(raw, sources) && EntriesFollow(raw) && OccurrencesFollow(raw, sources)
  {
    DocumentsAre(raw, sources);
    if AllInOrder(raw) {
      ClashIs(raw);
      if DistinctKeys(Parsed(raw).symbols) && OnePath(raw)
        && forall d, k :: IsOccurrence(raw, d, k) ==>
             OccurrenceFollows(raw.documents[d].occurrences[k], raw.documents[d].path, sources) {
        DefinitionsAre(raw, sources);
      }
    }
  }

  ghost predicate EntryIsHeld(raw: RawIndex, d: int, i: int)
    requires IsPlace(raw, d, i)
  {
    exists s :: s in Parsed(raw).symbols && KeepsEntry(s, EntriesOf(raw, d)[i], PathOf(raw, d))
  }

  lemma {:induction false} LanguagesAre(documents: seq<RawDocument>)
    requires DistinctPaths(documents)
    ensures forall d :: 0 <= d < |documents| ==>
      documents[d].path in Languages(documents) && Languages(documents)[documents[d].path] == documents[d].language
    ensures forall path :: path in Languages(documents) ==> exists d :: 0 <= d < |documents| && documents[d].path == path
  {
    if documents != [] {
      var before := documents[..|documents| - 1];
      LanguagesAre(before);
      forall d | 0 <= d < |before| ensures documents[d] == before[d] && documents[d].path != documents[|documents| - 1].path {
      }
      forall path | path in Languages(documents) ensures exists d :: 0 <= d < |documents| && documents[d].path == path {
        if path in Languages(before) {
          var d :| 0 <= d < |before| && before[d].path == path;
          assert documents[d].path == path;
        }
      }
    }
  }

  /** The accepted index keeps every entry and every occurrence, and holds nothing else. */
  lemma AcceptedKeeps(raw: RawIndex, sources: Sources)
    requires Acceptable(raw, sources)
    ensures forall d, i :: IsPlace(raw, d, i) ==> EntryIsHeld(raw, d, i)
    ensures forall s :: s in Parsed(raw).symbols ==>
      exists d, i :: IsPlace(raw, d, i) && KeepsEntry(s, EntriesOf(raw, d)[i], PathOf(raw, d))
    ensures forall d, k :: IsOccurrence(raw, d, k) ==>
      exists o :: o in Parsed(raw).occurrences && KeepsOccurrence(o, raw.documents[d].occurrences[k], raw.documents[d].path)
    ensures forall o :: o in Parsed(raw).occurrences ==>
      exists d, k :: IsOccurrence(raw, d, k) && KeepsOccurrence(o, raw.documents[d].occurrences[k], raw.documents[d].path)
  {
    ParsedAreBlocks(raw);
    BlocksHold(raw, |raw.documents| + 1);
    OccurrencesHold(raw, |raw.documents|);
    assert raw.documents[..|raw.documents|] == raw.documents;
    forall d, i | IsPlace(raw, d, i) ensures KeepsEntry(SymbolAt(raw, d, i), EntriesOf(raw, d)[i], PathOf(raw, d)) {
      assert d < |raw.documents| ==> DocumentOk(raw.documents[d], sources);
      EntryIsKept(EntriesOf(raw, d)[i], PathOf(raw, d));
    }
    forall d, k | IsOccurrence(raw, d, k)
      ensures KeepsOccurrence(OccurrenceAt(raw, d, k), raw.documents[d].occurrences[k], raw.documents[d].path)
    {
      assert DocumentOk(raw.documents[d], sources);
      OccurrenceIsKept(raw.documents[d].occurrences[k], raw.documents[d].path, sources);
    }
    forall d, i | IsPlace(raw, d, i) ensures SymbolAt(raw, d, i) in Parsed(raw).symbols {
      assert StandsFor(raw, |raw.documents| + 1, SymbolAt(raw, d, i));
    }
    forall d, k | IsOccurrence(raw, d, k) ensures OccurrenceAt(raw, d, k) in Parsed(raw).occurrences {
      assert OccursIn(raw, |raw.documents|, OccurrenceAt(raw, d, k));
    }
    forall s | s in Parsed(raw).symbols
      ensures exists d, i :: IsPlace(raw, d, i) && KeepsEntry(s, EntriesOf(raw, d)[i], PathOf(raw, d))
    {
      assert StandsFor(raw, |raw.documents| + 1, s);
      var d, i :| IsPlace(raw, d, i) && SymbolAt(raw, d, i) == s;
    }
    forall o | o in Parsed(raw).occurrences
      ensures exists d, k :: IsOccurrence(raw, d, k) && KeepsOccurrence(o, raw.documents[d].occurrences[k], raw.documents[d].path)
    {
      assert OccursIn(raw, |raw.documents|, o);
      var d, k :| IsOccurrence(raw, d, k) && OccurrenceAt(raw, d, k) == o;
    }
  }
}
