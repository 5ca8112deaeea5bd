/**
 The one implementation slot of a source file: finding it by its two marker lines, replacing its body, and
 sorting the statements around it by line number. Source text is a sequence of bytes, and finding, counting
 and splitting are Python's operations on bytes; the parser's statements are given by their line numbers.
 */
module SlotSplice {
  import opened Common

  function Ascii(text: string): (b: Bytes)
    requires forall i :: 0 <= i < |text| ==> text[i] < 128 as char
    ensures |b| == |text| && forall i :: 0 <= i < |b| ==> b[i] == text[i] as byte
  {
    seq(|text|, i requires 0 <= i < |text| => text[i] as byte)
  }

  const NL: byte := 10

  const BEGIN: Bytes := Ascii("    # mkso:implementation:begin\n")

  const END: Bytes := Ascii("    # mkso:implementation:end\n")

  // ---- Python's find, count and split on bytes ----

  predicate Occurs(s: Bytes, m: Bytes, i: nat)
  {
    i + |m| <= |s| && s[i..i + |m|] == m
  }

  function Find(s: Bytes, m: Bytes): (r: Option<nat>)
    requires m != []
    ensures r.Some? ==> r.value + |m| <= |s|
  {
    if |s| < |m| then None
    else if s[..|m|] == m then Some(0)
    else match Find(s[1..], m) case None => None case Some(i) => Some(i + 1)
  }

  /** Occurrences that do not overlap, taken from the left. */
  function Count(s: Bytes, m: Bytes): nat
    requires m != []
    decreases |s|
  {
    match Find(s, m) case None => 0 case Some(i) => 1 + Count(s[i + |m|..], m)
  }

  function Split(s: Bytes, m: Bytes): (pieces: seq<Bytes>)
    requires m != []
    ensures |pieces| >= 1
    decreases |s|
  {
    match Find(s, m) case None => [s] case Some(i) => [s[..i]] + Split(s[i + |m|..], m)
  }

  /** A line: nothing but its last byte is a newline. */
  ghost predicate Marker(m: Bytes)
  {
    |m| >= 2 && m[|m| - 1] == NL && forall i :: 0 <= i < |m| - 1 ==> m[i] != NL
  }

  lemma Markers()
    ensures Marker(BEGIN) && Marker(END) && BEGIN[|BEGIN| - 2] != END[|END| - 2]
  {
    var b, e := "    # mkso:implementation:begin\n", "    # mkso:implementation:end\n";
    assert |b| == 32 && |e| == 30;
    assert forall i :: 0 <= i < |b| - 1 ==> b[i] != '\n';
    assert forall i :: 0 <= i < |e| - 1 ==> e[i] != '\n';
    assert b[30] == 'n' && e[28] == 'd' && b[31] == '\n' && e[29] == '\n';
  }

  lemma {:induction false} FindIsFirst(s: Bytes, m: Bytes)
    requires m != []
    ensures Find(s, m).None? ==> forall i: nat :: !Occurs(s, m, i)
    ensures Find(s, m).Some? ==> Occurs(s, m, Find(s, m).value) && forall i: nat :: i < Find(s, m).value ==> !Occurs(s, m, i)
  {
    if |s| >= |m| && s[..|m|] != m {
      FindIsFirst(s[1..], m);
      forall i: nat | Occurs(s, m, i) ensures i > 0 && Occurs(s[1..], m, i - 1) {
        assert s[1..][i - 1..i - 1 + |m|] == s[i..i + |m|];
      }
      if r :| Find(s[1..], m) == Some(r) {
        assert s[1..][r..r + |m|] == s[r + 1..r + 1 + |m|];
      }
    }
  }

  ghost predicate Absent(s: Bytes, m: Bytes)
  {
    forall i: nat :: !Occurs(s, m, i)
  }

  ghost predicate Once(s: Bytes, m: Bytes, i: nat)
  {
    Occurs(s, m, i) && forall j: nat :: Occurs(s, m, j) ==> j == i
  }

  lemma OccursLater(s: Bytes, from: nat, m: Bytes, i: nat)
    requires from <= |s|
    ensures Occurs(s[from..], m, i) <==> Occurs(s, m, from + i)
  {
    if from + i + |m| <= |s| {
      assert s[from..][i..i + |m|] == s[from + i..from + i + |m|];
    }
  }

  lemma MarkerByte(s: Bytes, m: Bytes, at: nat, p: int)
    requires Marker(m) && Occurs(s, m, at) && at <= p < at + |m|
    ensures s[p] == m[p - at] && (s[p] == NL <==> p == at + |m| - 1)
  {
    assert s[at + (p - at)] == m[p - at];
  }

  /** Two markers that share a byte end together. */
  lemma MarkersMeet(s: Bytes, at: nat, m: Bytes, i: nat, other: Bytes)
    requires Marker(m) && Marker(other) && (m == other || m[|m| - 2] != other[|other| - 2])
    requires Occurs(s, m, at) && Occurs(s, other, i)
    requires i < at + |m| && at < i + |other|
    ensures m == other && i == at
  {
    SameEnd(s, at, m, i, other);
    MarkerByte(s, m, at, at + |m| - 2);
    MarkerByte(s, other, i, i + |other| - 2);
  }

  lemma SameEnd(s: Bytes, at: nat, m: Bytes, i: nat, other: Bytes)
    requires Marker(m) && Marker(other) && Occurs(s, m, at) && Occurs(s, other, i)
    requires i < at + |m| && at < i + |other|
    ensures at + |m| == i + |other|
  {
    MarkerByte(s, m, at, at + |m| - 1);
    MarkerByte(s, other, i, i + |other| - 1);
    if i + |other| < at + |m| {
      MarkerByte(s, m, at, i + |other| - 1);
    } else {
      MarkerByte(s, other, i, at + |m| - 1);
    }
  }

  /** Occurrences of a marker do not overlap. */
  lemma MarkersApart(s: Bytes, m: Bytes, i: nat, j: nat)
    requires Marker(m) && Occurs(s, m, i) && Occurs(s, m, j) && i < j
    ensures i + |m| <= j
  {
    if j < i + |m| {
      MarkersMeet(s, i, m, j, m);
    }
  }

  /** What follows the first occurrence holds no further one exactly if the first is the only one. */
  lemma FirstIsOnly(s: Bytes, m: Bytes, i: nat)
    requires Marker(m) && Occurs(s, m, i) && forall j: nat :: j < i ==> !Occurs(s, m, j)
    ensures Absent(s[i + |m|..], m) <==> Once(s, m, i)
  {
    forall j: nat | Occurs(s, m, j) && j != i ensures !Absent(s[i + |m|..], m) {
      MarkersApart(s, m, i, j);
      OccursLater(s, i + |m|, m, j - i - |m|);
    }
    var tail := s[i + |m|..];
    if k: nat :| Occurs(tail, m, k) {
      OccursLater(s, i + |m|, m, k);
    }
  }

  lemma FindNone(s: Bytes, m: Bytes)
    requires m != []
    ensures Find(s, m).None? <==> Absent(s, m)
  {
    FindIsFirst(s, m);
  }

  lemma CountStep(s: Bytes, m: Bytes)
    requires m != []
    ensures Count(s, m) == 1 <==> Find(s, m).Some? && Find(s[Find(s, m).value + |m|..], m).None?
    ensures Count(s, m) == 1 ==> Split(s, m) == [s[..Find(s, m).value], s[Find(s, m).value + |m|..]]
    ensures |Split(s, m)| == 2 ==> Count(s, m) == 1
  {
  }

  lemma CountOnce(s: Bytes, m: Bytes)
    requires Marker(m)
    ensures Count(s, m) == 1 <==> Find(s, m).Some? && Once(s, m, Find(s, m).value)
  {
    CountStep(s, m);
    FindIsFirst(s, m);
    if Find(s, m).Some? {
      FirstIsOnly(s, m, Find(s, m).value);
      FindNone(s[Find(s, m).value + |m|..], m);
    }
  }

  lemma OnceIsFound(s: Bytes, m: Bytes, i: nat)
    requires m != [] && Once(s, m, i)
    ensures Find(s, m) == Some(i)
  {
    FindIsFirst(s, m);
  }

  /** Around a marker line, another marker lies wholly before it or wholly after it, or is the same one. */
  lemma MarkerSplits(a: Bytes, m: Bytes, b: Bytes, other: Bytes, i: nat)
    requires Marker(m) && Marker(other) && (m == other || m[|m| - 2] != other[|other| - 2])
    requires Occurs(a + m + b, other, i)
    ensures Occurs(a, other, i) || (i >= |a| + |m| && Occurs(b, other, i - |a| - |m|)) || (m == other && i == |a|)
  {
    var s := a + m + b;
    assert Occurs(s, m, |a|);
    if i + |other| <= |a| {
      assert a[i..i + |other|] == s[i..i + |other|];
    } else if i >= |a| + |m| {
      assert s[|a| + |m|..] == b;
      OccursLater(s, |a| + |m|, other, i - |a| - |m|);
    } else {
      MarkersMeet(s, |a|, m, i, other);
    }
  }

  lemma AbsentAround(a: Bytes, m: Bytes, b: Bytes, other: Bytes)
    requires Marker(m) && Marker(other) && m[|m| - 2] != other[|other| - 2]
    ensures Absent(a + m + b, other) <==> Absent(a, other) && Absent(b, other)
  {
    forall i: nat | Occurs(a, other, i) ensures Occurs(a + m + b, other, i) {
      assert a + m + b == [] + a + (m + b);
    }
    forall i: nat | Occurs(b, other, i) ensures Occurs(a + m + b, other, |a + m| + i) {
      assert a + m + b == (a + m) + b + [];
    }
    forall i: nat | Occurs(a + m + b, other, i) ensures !Absent(a, other) || !Absent(b, other) {
      MarkerSplits(a, m, b, other, i);
    }
  }

  lemma OnceAround(a: Bytes, m: Bytes, b: Bytes)
    requires Marker(m)
    ensures Once(a + m + b, m, |a|) <==> Absent(a, m) && Absent(b, m)
  {
    assert Occurs(a + m + b, m, |a|);
    forall i: nat | Occurs(a, m, i) ensures Occurs(a + m + b, m, i) && i != |a| {
      assert a + m + b == [] + a + (m + b);
    }
    forall i: nat | Occurs(b, m, i) ensures Occurs(a + m + b, m, |a + m| + i) {
      assert a + m + b == (a + m) + b + [];
    }
    forall i: nat | Occurs(a + m + b, m, i) && i != |a| ensures !Absent(a, m) || !Absent(b, m) {
      MarkerSplits(a, m, b, m, i);
    }
  }

  // ---- the slot ----

  datatype Slot = Slot(prefix: Bytes, body: Bytes, suffix: Bytes)

  datatype Rejected = Ambiguous | OutOfOrder | ControlCharacter | NoFunction | SlotOutside | Crossing | EmptySlot

  /** A slot written out with its marker lines. */
  function Print(slot: Slot): Bytes
  {
    slot.prefix + BEGIN + slot.body + END + slot.suffix
  }

  /** The marker checks and splits of `_structure`. */
  function Parse(raw: Bytes): Result<Slot, Rejected>
  {
    Markers();
    if Count(raw, BEGIN) != 1 || Count(raw, END) != 1 then Err(Ambiguous)
    else
      CountStep(raw, BEGIN);
      var pieces := Split(raw, BEGIN);
      var rest := Split(pieces[1], END);
      if |rest| != 2 then Err(OutOfOrder) else Ok(Slot(pieces[0], rest[0], rest[1]))
  }

  ghost predicate Free(x: Bytes)
  {
    Absent(x, BEGIN) && Absent(x, END)
  }

  ghost predicate AllFree(slot: Slot)
  {
    Free(slot.prefix) && Free(slot.body) && Free(slot.suffix)
  }

  /** With one begin marker, the text is what stands before it, the marker, and the rest, both free of it. */
  lemma CutOnce(s: Bytes, m: Bytes)
    requires Marker(m) && Count(s, m) == 1
    ensures |Split(s, m)| == 2 && s == Split(s, m)[0] + m + Split(s, m)[1]
    ensures Absent(Split(s, m)[0], m) && Absent(Split(s, m)[1], m)
  {
    CountStep(s, m);
    CountOnce(s, m);
    var i := Find(s, m).value;
    OnceAround(s[..i], m, s[i + |m|..]);
  }

  lemma PrintOnce(a: Bytes, m: Bytes, b: Bytes)
    requires Marker(m) && Absent(a, m) && Absent(b, m)
    ensures Count(a + m + b, m) == 1 && Split(a + m + b, m) == [a, b]
  {
    var s := a + m + b;
    OnceAround(a, m, b);
    OnceIsFound(s, m, |a|);
    CountOnce(s, m);
    CountStep(s, m);
    assert s[..|a|] == a && s[|a| + |m|..] == b;
  }

  /** A file parses to a slot exactly if it is that slot printed and none of its three parts holds a marker. */
  lemma ParseMeans(raw: Bytes, slot: Slot)
    ensures Parse(raw) == Ok(slot) <==> raw == Print(slot) && AllFree(slot)
  {
    if Parse(raw) == Ok(slot) {
      ParsedIsPrinted(raw, slot);
    }
    if raw == Print(slot) && AllFree(slot) {
      PrintedParses(slot);
    }
  }

  lemma PrintedParses(slot: Slot)
    requires AllFree(slot)
    ensures Parse(Print(slot)) == Ok(slot)
  {
    Markers();
    var rest := slot.body + END + slot.suffix;
    var raw, head := Print(slot), slot.prefix + BEGIN + slot.body;
    AbsentAround(slot.body, END, slot.suffix, BEGIN);
    AbsentAround(slot.prefix, BEGIN, slot.body, END);
    assert raw == slot.prefix + BEGIN + rest && raw == head + END + slot.suffix;
    PrintOnce(slot.prefix, BEGIN, rest);
    PrintOnce(head, END, slot.suffix);
    PrintOnce(slot.body, END, slot.suffix);
  }

  lemma ParsedIsPrinted(raw: Bytes, slot: Slot)
    requires Parse(raw) == Ok(slot)
    ensures raw == Print(slot) && AllFree(slot)
  {
    Markers();
    var rest := slot.body + END + slot.suffix;
    CutsOfParse(raw, slot);
    AbsentAround(slot.body, END, slot.suffix, BEGIN);
    var head := slot.prefix + BEGIN + slot.body;
    assert slot.prefix + BEGIN + rest == head + END + slot.suffix;
    CountOnce(raw, END);
    OnceAtHead(head, slot.suffix);
    AbsentAround(slot.prefix, BEGIN, slot.body, END);
  }

  lemma CutsOfParse(raw: Bytes, slot: Slot)
    requires Parse(raw) == Ok(slot)
    ensures var rest := slot.body + END + slot.suffix;
      && raw == slot.prefix + BEGIN + rest && Count(raw, END) == 1
      && Absent(slot.prefix, BEGIN) && Absent(rest, BEGIN)
  {
    Markers();
    CutOnce(raw, BEGIN);
    CountStep(Split(raw, BEGIN)[1], END);
    CutOnce(Split(raw, BEGIN)[1], END);
  }

  lemma OnceAtHead(a: Bytes, b: Bytes)
    requires Marker(END) && Find(a + END + b, END).Some? && Once(a + END + b, END, Find(a + END + b, END).value)
    ensures Absent(a, END) && Absent(b, END)
  {
    assert Occurs(a + END + b, END, |a|);
    OnceAround(a, END, b);
  }

  // ---- replacing the body ----

  function Splice(slot: Slot, body: Bytes): Bytes
  {
    Print(slot.(body := body))
  }

  /**
   Replacing the body of an accepted file gives a file with exactly one of each marker that splits back into
   the same prefix, the new body and the same suffix, if and only if the new body holds no marker.
   */
  lemma SpliceParsesBack(raw: Bytes, slot: Slot, body: Bytes)
    requires Parse(raw) == Ok(slot)
    ensures Parse(Splice(slot, body)) == Ok(slot.(body := body)) <==> Free(body)
    ensures Free(body) ==> Count(Splice(slot, body), BEGIN) == 1 && Count(Splice(slot, body), END) == 1
  {
    ParseMeans(raw, slot);
    ParseMeans(Splice(slot, body), slot.(body := body));
    if Free(body) {
      assert Parse(Splice(slot, body)).Ok?;
    }
  }

  /** Putting the old body back restores the file. */
  lemma SpliceUndoes(raw: Bytes, slot: Slot, body: Bytes)
    requires Parse(raw) == Ok(slot) && Free(body)
    ensures var spliced := Parse(Splice(slot, body)); spliced.Ok? && Splice(spliced.value, slot.body) == raw
  {
    ParseMeans(raw, slot);
    SpliceParsesBack(raw, slot, body);
  }

  // ---- line numbers ----

  function Newlines(s: Bytes): nat
  {
    if s == [] then 0 else Newlines(s[..|s| - 1]) + if s[|s| - 1] == NL then 1 else 0
  }

  lemma {:induction false} NewlinesAdd(a: Bytes, b: Bytes)
    ensures Newlines(a + b) == Newlines(a) + Newlines(b)
    decreases |b|
  {
    if b == [] {
      assert a + b == a;
    } else {
      assert (a + b)[..|a + b| - 1] == a + b[..|b| - 1];
      NewlinesAdd(a, b[..|b| - 1]);
    }
  }

  /** The line of the byte at a position, counted from one. */
  function LineOf(s: Bytes, at: nat): nat
    requires at <= |s|
  {
    Newlines(s[..at]) + 1
  }

  function BeginLine(slot: Slot): nat
  {
    Newlines(slot.prefix) + 1
  }

  function EndLine(slot: Slot): nat
  {
    Newlines(slot.prefix + BEGIN + slot.body) + 1
  }

  /** Where the suffix starts. */
  function SuffixAt(slot: Slot): nat
  {
    |slot.prefix + BEGIN + slot.body + END|
  }

  lemma HeadNewlines(slot: Slot, tail: Bytes)
    ensures Newlines(slot.prefix + BEGIN + slot.body + tail) ==
      Newlines(slot.prefix) + Newlines(BEGIN) + Newlines(slot.body) + Newlines(tail)
  {
    NewlinesAdd(slot.prefix, BEGIN);
    NewlinesAdd(slot.prefix + BEGIN, slot.body);
    NewlinesAdd(slot.prefix + BEGIN + slot.body, tail);
  }

  /** Replacing the body leaves the begin marker's line and moves the end marker's by the change in newlines. */
  lemma MarkerLinesShift(slot: Slot, body: Bytes)
    ensures var other := slot.(body := body);
      BeginLine(other) == BeginLine(slot) && EndLine(other) - EndLine(slot) == Newlines(body) - Newlines(slot.body)
  {
    HeadNewlines(slot, []);
    HeadNewlines(slot.(body := body), []);
    assert slot.prefix + BEGIN + slot.body + [] == slot.prefix + BEGIN + slot.body;
    assert slot.prefix + BEGIN + body + [] == slot.prefix + BEGIN + body;
  }

  /** Every byte of the prefix keeps its place and its line. */
  lemma PrefixStays(slot: Slot, body: Bytes, at: nat)
    requires at < |slot.prefix|
    ensures at < |Splice(slot, body)| && at < |Print(slot)|
    ensures Splice(slot, body)[at] == Print(slot)[at] && LineOf(Splice(slot, body), at) == LineOf(Print(slot), at)
  {
    PrefixLine(slot, at);
    PrefixLine(slot.(body := body), at);
  }

  /** Every byte of the suffix is kept, and its line moves by the change in the body's newlines. */
  lemma SuffixShifts(slot: Slot, body: Bytes, at: nat)
    requires at < |slot.suffix|
    ensures var other := slot.(body := body); var i, j := SuffixAt(other) + at, SuffixAt(slot) + at;
      && i < |Splice(slot, body)| && j < |Print(slot)|
      && Splice(slot, body)[i] == Print(slot)[j]
      && LineOf(Splice(slot, body), i) - LineOf(Print(slot), j) == Newlines(body) - Newlines(slot.body)
  {
    SuffixLine(slot, at);
    SuffixLine(slot.(body := body), at);
  }

  lemma PrefixLine(slot: Slot, at: nat)
    requires at <= |slot.prefix|
    ensures LineOf(Print(slot), at) == Newlines(slot.prefix[..at]) + 1
    ensures at < |slot.prefix| ==> Print(slot)[at] == slot.prefix[at]
  {
    assert Print(slot)[..at] == slot.prefix[..at];
  }

  lemma SuffixLine(slot: Slot, at: nat)
    requires at <= |slot.suffix|
    ensures SuffixAt(slot) + at <= |Print(slot)|
    ensures LineOf(Print(slot), SuffixAt(slot) + at) ==
      Newlines(slot.prefix) + Newlines(BEGIN) + Newlines(slot.body) + Newlines(END + slot.suffix[..at]) + 1
    ensures at < |slot.suffix| ==> Print(slot)[SuffixAt(slot) + at] == slot.suffix[at]
  {
    var tail := END + slot.suffix[..at];
    assert Print(slot)[..SuffixAt(slot) + at] == slot.prefix + BEGIN + slot.body + tail;
    HeadNewlines(slot, tail);
  }

  // ---- the statements around the slot ----

  datatype Statement = Statement(first: int, last: int)

  /** The function's definition line and the line ranges of its statements. */
  datatype Definition = Definition(line: int, statements: seq<Statement>)

  datatype Side = Before | Inside | After | Across

  function SideOf(s: Statement, begin: int, end: int): Side
  {
    if s.last < begin then Before
    else if s.first > end then After
    else if begin < s.first <= s.last < end then Inside
    else Across
  }

  function OnSide(statements: seq<Statement>, side: Side, begin: int, end: int): seq<Statement>
  {
    if statements == [] then []
    else
      OnSide(statements[..|statements| - 1], side, begin, end) +
        if SideOf(statements[|statements| - 1], begin, end) == side then [statements[|statements| - 1]] else []
  }

  predicate NoneAcross(statements: seq<Statement>, begin: int, end: int)
  {
    forall i :: 0 <= i < |statements| ==> SideOf(statements[i], begin, end) != Across
  }

  method Partition(statements: seq<Statement>, begin: int, end: int)
    returns (ok: bool, before: seq<Statement>, inside: seq<Statement>, after: seq<Statement>)
    ensures ok <==> NoneAcross(statements, begin, end)
    ensures ok ==>
      && before == OnSide(statements, Before, begin, end)
      && inside == OnSide(statements, Inside, begin, end)
      && after == OnSide(statements, After, begin, end)
  {
    ok, before, inside, after := true, [], [], [];
    for i := 0 to |statements|
      invariant NoneAcross(statements[..i], begin, end)
      invariant before == OnSide(statements[..i], Before, begin, end)
      invariant inside == OnSide(statements[..i], Inside, begin, end)
      invariant after == OnSide(statements[..i], After, begin, end)
    {
      var s := statements[i];
      assert statements[..i + 1][..|statements[..i + 1]| - 1] == statements[..i];
      if s.last < begin {
        before := before + [s];
      } else if s.first > end {
        after := after + [s];
      } else if begin < s.first <= s.last < end {
        inside := inside + [s];
      } else {
        assert SideOf(statements[i], begin, end) == Across;
        ok := false;
        return;
      }
    }
    assert statements[..|statements|] == statements;
  }

  predicate Controlled(raw: Bytes)
  {
    exists i :: 0 <= i < |raw| && raw[i] in {13 as byte, 12 as byte, 0 as byte}
  }

  /** When the slot lies inside one function and every statement is on one side of its markers. */
  predicate Structured(slot: Slot, d: Definition)
  {
    && d.line < BeginLine(slot) < EndLine(slot)
    && NoneAcross(d.statements, BeginLine(slot), EndLine(slot))
    && OnSide(d.statements, Inside, BeginLine(slot), EndLine(slot)) != []
  }

  /** `_structure`, given the one top-level function the parser finds: the slot and the statements around it. */
  method Structure(raw: Bytes, definition: Option<Definition>)
    returns (r: Result<(Slot, seq<Statement>, seq<Statement>), Rejected>)
    ensures r.Ok? <==>
      Parse(raw).Ok? && !Controlled(raw) && definition.Some? && Structured(Parse(raw).value, definition.value)
    ensures r.Ok? ==>
      var slot := Parse(raw).value;
      r.value == (slot,
        OnSide(definition.value.statements, Before, BeginLine(slot), EndLine(slot)),
        OnSide(definition.value.statements, After, BeginLine(slot), EndLine(slot)))
  {
    var parsed := Parse(raw);
    if parsed.Err? {
      return Err(parsed.error);
    }
    var slot := parsed.value;
    if Controlled(raw) {
      return Err(ControlCharacter);
    }
    var begin, end := BeginLine(slot), EndLine(slot);
    if definition.None? {
      return Err(NoFunction);
    }
    if !(definition.value.line < begin < end) {
      return Err(SlotOutside);
    }
    var ok, before, inside, after := Partition(definition.value.statements, begin, end);
    if !ok {
      return Err(Crossing);
    }
    if inside == [] {
      return Err(EmptySlot);
    }
    r := Ok((slot, before, after));
  }

  lemma EndAfterBegin(slot: Slot)
    ensures EndLine(slot) == BeginLine(slot) + 1 + Newlines(slot.body)
  {
    HeadNewlines(slot, []);
    assert slot.prefix + BEGIN + slot.body + [] == slot.prefix + BEGIN + slot.body;
    BeginIsOneLine();
  }

  /** A statement outside the slot, moved as the text around it moves, stays on its side of the slot. */
  lemma SurroundingsKeepSides(slot: Slot, body: Bytes, s: Statement)
    requires s.first <= s.last
    ensures var other := slot.(body := body);
      var shift := Newlines(body) - Newlines(slot.body);
      var side := SideOf(s, BeginLine(slot), EndLine(slot));
      && (side == Before ==> SideOf(s, BeginLine(other), EndLine(other)) == Before)
      && (side == After ==>
            SideOf(Statement(s.first + shift, s.last + shift), BeginLine(other), EndLine(other)) == After)
  {
    MarkerLinesShift(slot, body);
    EndAfterBegin(slot.(body := body));
  }

  /** Where the first line ends: at its line feed or carriage return, or with the text. */
  function LineEnd(s: Bytes): (n: nat)
    ensures n <= |s|
  {
    if s == [] || s[0] == NL || s[0] == 13 then 0 else 1 + LineEnd(s[1..])
  }

  /** The length of the line break a line ends in: none at the end of the text, two for carriage return and line feed. */
  function Break(s: Bytes): (n: nat)
    ensures LineEnd(s) + n <= |s| && (s != [] ==> LineEnd(s) + n > 0)
  {
    var n := LineEnd(s);
    if n == |s| then 0 else if s[n] == 13 && n + 1 < |s| && s[n + 1] == NL then 2 else 1
  }

  /** `bytes.splitlines`. */
  function Lines(s: Bytes): seq<Bytes>
  {
    if s == [] then [] else [s[..LineEnd(s)]] + Lines(s[LineEnd(s) + Break(s)..])
  }

  /** The bytes that `bytes.strip` removes. */
  predicate Blank(line: Bytes)
  {
    forall b :: b in line ==> b == 32 || 9 <= b <= 13
  }

  const INDENT: Bytes := [32, 32, 32, 32]

  predicate Indented(body: Bytes)
  {
    forall line :: line in Lines(body) ==> Blank(line) || INDENT <= line
  }

  /** The submission's own checks on a body. */
  predicate BodyOk(body: Bytes)
  {
    Markers();
    && 0 < |body| <= 65536 && body[|body| - 1] == NL
    && Find(body, BEGIN).None? && Find(body, END).None?
    && Indented(body)
  }

  /** A body that passes the checks replaces the old one and nothing else, on the lines between the markers. */
  lemma AcceptedBodySplices(raw: Bytes, slot: Slot, body: Bytes)
    requires Parse(raw) == Ok(slot) && BodyOk(body)
    ensures Parse(Splice(slot, body)) == Ok(slot.(body := body))
    ensures EndLine(slot.(body := body)) == BeginLine(slot) + 1 + Newlines(body)
  {
    Markers();
    FindNone(body, BEGIN);
    FindNone(body, END);
    SpliceParsesBack(raw, slot, body);
    EndAfterBegin(slot.(body := body));
  }

  lemma BeginIsOneLine()
    ensures Newlines(BEGIN) == 1
  {
    Markers();
    NoNewlines(BEGIN[..|BEGIN| - 1]);
  }

  lemma {:induction false} NoNewlines(s: Bytes)
    requires forall i :: 0 <= i < |s| ==> s[i] != NL
    ensures Newlines(s) == 0
  {
    if s != [] {
      NoNewlines(s[..|s| - 1]);
    }
  }
}
