/**
 When a file has its one slot, said of its bytes and its statements' lines, and which statements are kept around it.
 */
module SlotRules {
  import opened Common
  import opened SlotSplice

  /** The text holds no such line. */
  ghost predicate Lacks(s: Bytes, line: string)
    requires forall i :: 0 <= i < |line| ==> line[i] < 128 as char
  {
    forall before: Bytes, after: Bytes :: s != before + Ascii(line) + after
  }

  ghost predicate LacksMarkers(s: Bytes)
  {
    Lacks(s, "    # mkso:implementation:begin\n") && Lacks(s, "    # mkso:implementation:end\n")
  }

  /** The file is three parts without marker lines, with one of each between them. */
  ghost predicate Divides(raw: Bytes, slot: Slot)
  {
    && raw == slot.prefix + Ascii("    # mkso:implementation:begin\n") + slot.body
         + Ascii("    # mkso:implementation:end\n") + slot.suffix
    && LacksMarkers(slot.prefix) && LacksMarkers(slot.body) && LacksMarkers(slot.suffix)
  }

  function NewlinesAt(s: Bytes): set<int>
  {
    set i | 0 <= i < |s| && s[i] == 10
  }

  /** The lines of the two markers, counted from one. */
  function BeginsOn(slot: Slot): int
  {
    |NewlinesAt(slot.prefix)| + 1
  }

  function EndsOn(slot: Slot): int
  {
    |NewlinesAt(slot.prefix)| + |NewlinesAt(slot.body)| + 2
  }

  /** The function begins above the slot, no statement reaches into it from outside, and one lies within. */
  ghost predicate Surrounds(d: Definition, slot: Slot)
  {
    && d.line < BeginsOn(slot)
    && (forall s :: s in d.statements ==>
          s.last < BeginsOn(slot) || EndsOn(slot) < s.first || (BeginsOn(slot) < s.first <= s.last < EndsOn(slot)))
    && exists s :: s in d.statements && BeginsOn(slot) < s.first <= s.last < EndsOn(slot)
  }

  /** The kept statements are those at these places of the function, in order. */
  ghost predicate KeepsAt(kept: seq<Statement>, statements: seq<Statement>, places: seq<int>)
  {
    && |places| == |kept| && (forall i :: 0 <= i < |kept| ==> 0 <= places[i] < |statements| && kept[i] == statements[places[i]])
    && forall i, j :: 0 <= i < j < |places| ==> places[i] < places[j]
  }

  // ---- markers ----

  lemma LacksIsAbsent(s: Bytes, line: string)
    requires forall i :: 0 <= i < |line| ==> line[i] < 128 as char
    ensures Lacks(s, line) <==> Absent(s, Ascii(line))
  {
    var m := Ascii(line);
    if i: nat :| Occurs(s, m, i) {
      assert s == s[..i] + m + s[i + |m|..];
    }
    if Absent(s, m) {
      forall before: Bytes, after: Bytes ensures s != before + m + after {
        if s == before + m + after {
          assert Occurs(s, m, |before|);
        }
      }
    }
  }

  /** A file has its slot exactly if it is divided so. */
  lemma ParsesExactly(raw: Bytes, slot: Slot)
    ensures Parse(raw) == Ok(slot) <==> Divides(raw, slot)
  {
    ParseMeans(raw, slot);
    FreeIs(slot.prefix);
    FreeIs(slot.body);
    FreeIs(slot.suffix);
  }

  lemma FreeIs(s: Bytes)
    ensures LacksMarkers(s) <==> Free(s)
  {
    LacksIsAbsent(s, "    # mkso:implementation:begin\n");
    LacksIsAbsent(s, "    # mkso:implementation:end\n");
  }

  // ---- lines ----

  lemma {:induction false} NewlinesAre(s: Bytes)
    ensures Newlines(s) == |NewlinesAt(s)|
  {
    if s != [] {
      var before := s[..|s| - 1];
      NewlinesAre(before);
      assert NewlinesAt(s) == NewlinesAt(before) + if s[|s| - 1] == 10 then {|s| - 1} else {};
    }
  }

  lemma LinesAre(slot: Slot)
    ensures BeginLine(slot) == BeginsOn(slot) && EndLine(slot) == EndsOn(slot)
  {
    NewlinesAre(slot.prefix);
    NewlinesAre(slot.body);
    EndAfterBegin(slot);
  }

  // ---- statements ----

  lemma {:induction false} SideIs(statements: seq<Statement>, side: Side, begin: int, end: int)
    ensures forall s :: s in OnSide(statements, side, begin, end) <==> s in statements && SideOf(s, begin, end) == side
  {
    if statements != [] {
      SideIs(statements[..|statements| - 1], side, begin, end);
      assert statements == statements[..|statements| - 1] + [statements[|statements| - 1]];
    }
  }

  lemma {:induction false} SidePlaces(statements: seq<Statement>, side: Side, begin: int, end: int) returns (places: seq<int>)
    ensures KeepsAt(OnSide(statements, side, begin, end), statements, places)
    ensures forall k :: 0 <= k < |statements| ==> (k in places <==> SideOf(statements[k], begin, end) == side)
  {
    if statements == [] {
      places := [];
    } else {
      var last := |statements| - 1;
      var before := SidePlaces(statements[..last], side, begin, end);
      places := before + if SideOf(statements[last], begin, end) == side then [last] else [];
    }
  }

  /** The slot is structured exactly if the function surrounds it. */
  lemma StructuredExactly(slot: Slot, d: Definition)
    ensures Structured(slot, d) <==> Surrounds(d, slot)
  {
    LinesAre(slot);
    SideIs(d.statements, Inside, BeginLine(slot), EndLine(slot));
    var inside := OnSide(d.statements, Inside, BeginLine(slot), EndLine(slot));
    if inside != [] {
      assert inside[0] in inside;
    }
    if Surrounds(d, slot) {
      forall i | 0 <= i < |d.statements| ensures SideOf(d.statements[i], BeginLine(slot), EndLine(slot)) != Across {
        assert d.statements[i] in d.statements;
      }
    }
  }

  /** Kept before the slot are the statements that end above it, and after it those that begin below, all in order. */
  lemma KeptStatements(slot: Slot, d: Definition) returns (above: seq<int>, below: seq<int>)
    ensures KeepsAt(OnSide(d.statements, Before, BeginLine(slot), EndLine(slot)), d.statements, above)
    ensures KeepsAt(OnSide(d.statements, After, BeginLine(slot), EndLine(slot)), d.statements, below)
    ensures forall k :: 0 <= k < |d.statements| ==> (k in above <==> d.statements[k].last < BeginsOn(slot))
    ensures forall k :: 0 <= k < |d.statements| ==>
      (k in below <==> d.statements[k].last >= BeginsOn(slot) && EndsOn(slot) < d.statements[k].first)
  {
    LinesAre(slot);
    above := SidePlaces(d.statements, Before, BeginLine(slot), EndLine(slot));
    below := SidePlaces(d.statements, After, BeginLine(slot), EndLine(slot));
  }

  /** No carriage return, form feed or null byte. */
  lemma ControlledExactly(raw: Bytes)
    ensures Controlled(raw) <==> 13 in raw || 12 in raw || 0 in raw
  {
  }

  // ---- bodies ----

  predicate EndsLine(b: byte)
  {
    b == 10 || b == 13
  }

  /** A line begins here: at the start, after a line feed, or after a carriage return that is not half of a break. */
  predicate BeginsLine(s: Bytes, i: int)
  {
    0 <= i < |s| && (i == 0 || s[i - 1] == 10 || (s[i - 1] == 13 && s[i] != 10))
  }

  /** From `i` to `j` there is no line break. */
  predicate InLine(s: Bytes, i: int, j: int)
  {
    0 <= i <= j < |s| && forall k :: i <= k <= j ==> !EndsLine(s[k])
  }

  /** Four spaces. */
  predicate SpacesAt(s: Bytes, i: int)
  {
    0 <= i && i + 4 <= |s| && s[i] == 32 && s[i + 1] == 32 && s[i + 2] == 32 && s[i + 3] == 32
  }

  /** Nothing but blanks up to the end of the line. */
  ghost predicate BlankFrom(s: Bytes, i: int)
  {
    forall j :: InLine(s, i, j) ==> s[j] in {32, 9, 11, 12}
  }

  lemma {:induction false} LineEndIs(s: Bytes)
    ensures forall k :: 0 <= k < LineEnd(s) ==> !EndsLine(s[k])
    ensures LineEnd(s) < |s| ==> EndsLine(s[LineEnd(s)])
  {
    if s != [] && !EndsLine(s[0]) {
      LineEndIs(s[1..]);
      assert forall k :: 1 <= k < |s| ==> s[k] == s[1..][k - 1];
    }
  }

  /** The first line is blank or indented exactly if it is so at its place. */
  lemma FirstLine(s: Bytes)
    requires s != []
    ensures var line := s[..LineEnd(s)]; Blank(line) || INDENT <= line <==> SpacesAt(s, 0) || BlankFrom(s, 0)
  {
    var n := LineEnd(s);
    var line := s[..n];
    LineEndIs(s);
    assert INDENT <= line <==> n >= 4 && s[0] == 32 && s[1] == 32 && s[2] == 32 && s[3] == 32;
    assert SpacesAt(s, 0) ==> n >= 4;
    forall j ensures InLine(s, 0, j) <==> 0 <= j < n {
      assert n <= j < |s| ==> EndsLine(s[n]);
    }
    assert forall j :: 0 <= j < n ==> line[j] == s[j] && !EndsLine(s[j]);
    if Blank(line) {
      forall j | 0 <= j < n ensures s[j] in {32, 9, 11, 12} { assert line[j] in line; }
    }
  }

  lemma InLineShifts(s: Bytes, m: nat, i: int, j: int)
    requires m <= i && m <= |s|
    ensures InLine(s, i, j) <==> InLine(s[m..], i - m, j - m)
  {
    var rest := s[m..];
    assert forall k :: m <= k < |s| ==> s[k] == rest[k - m];
    assert forall k :: 0 <= k < |rest| ==> rest[k] == s[k + m];
    if InLine(rest, i - m, j - m) {
      forall k | i <= k <= j ensures !EndsLine(s[k]) { assert !EndsLine(rest[k - m]); }
    }
  }

  lemma BlankShifts(s: Bytes, m: nat, i: int)
    requires m <= i && m <= |s|
    ensures BlankFrom(s, i) <==> BlankFrom(s[m..], i - m)
  {
    var rest := s[m..];
    if BlankFrom(s, i) {
      forall j | InLine(rest, i - m, j) ensures rest[j] in {32, 9, 11, 12} {
        InLineShifts(s, m, i, j + m);
        assert InLine(s, i, j + m);
      }
    }
    if BlankFrom(rest, i - m) {
      forall j | InLine(s, i, j) ensures s[j] in {32, 9, 11, 12} {
        InLineShifts(s, m, i, j);
        assert InLine(rest, i - m, j - m);
      }
    }
  }

  lemma SpacesShift(s: Bytes, m: nat, i: int)
    requires m <= i && m <= |s|
    ensures SpacesAt(s, i) <==> SpacesAt(s[m..], i - m)
  {
    if i + 4 <= |s| {
      assert s[m..][i - m] == s[i] && s[m..][i - m + 1] == s[i + 1];
      assert s[m..][i - m + 2] == s[i + 2] && s[m..][i - m + 3] == s[i + 3];
    }
  }

  /** After a whole break, lines begin at the same places. */
  lemma BeginsShift(s: Bytes, m: nat, i: int)
    requires 0 < m <= i < |s| && EndsLine(s[m - 1]) && (s[m - 1] == 13 ==> s[m] != 10)
    ensures BeginsLine(s, i) <==> BeginsLine(s[m..], i - m)
  {
    if i > m {
      assert s[m..][i - m - 1] == s[i - 1] && s[m..][i - m] == s[i];
    }
  }

  lemma BreakIsWhole(s: Bytes)
    requires LineEnd(s) + Break(s) < |s|
    ensures var m := LineEnd(s) + Break(s); 0 < m && EndsLine(s[m - 1]) && (s[m - 1] == 13 ==> s[m] != 10)
  {
    LineEndIs(s);
  }

  /** The other lines of a text are those after its first break, at the same places. */
  lemma LaterLines(s: Bytes, i: int)
    requires s != [] && LineEnd(s) + Break(s) <= i < |s|
    ensures var m := LineEnd(s) + Break(s);
      && (BeginsLine(s, i) <==> BeginsLine(s[m..], i - m))
      && (SpacesAt(s, i) <==> SpacesAt(s[m..], i - m)) && (BlankFrom(s, i) <==> BlankFrom(s[m..], i - m))
  {
    var m := LineEnd(s) + Break(s);
    BreakIsWhole(s);
    BeginsShift(s, m, i);
    SpacesShift(s, m, i);
    BlankShifts(s, m, i);
  }

  /** No line begins inside the first one or its break. */
  lemma NoLineBefore(s: Bytes, i: int)
    requires s != [] && 0 < i < LineEnd(s) + Break(s)
    ensures !BeginsLine(s, i)
  {
    LineEndIs(s);
  }

  lemma {:induction false} IndentedIs(s: Bytes)
    ensures Indented(s) <==> forall i :: BeginsLine(s, i) ==> SpacesAt(s, i) || BlankFrom(s, i)
  {
    if s != [] {
      var m := LineEnd(s) + Break(s);
      IndentedIs(s[m..]);
      FirstLine(s);
      LinesSplit(s);
      forall i | m <= i < |s|
        ensures (BeginsLine(s, i) <==> BeginsLine(s[m..], i - m)) && (SpacesAt(s, i) <==> SpacesAt(s[m..], i - m))
          && (BlankFrom(s, i) <==> BlankFrom(s[m..], i - m))
      {
        LaterLines(s, i);
      }
      forall i | 0 < i < m ensures !BeginsLine(s, i) { NoLineBefore(s, i); }
      assert forall i :: BeginsLine(s[m..], i) ==> BeginsLine(s, i + m);
    }
  }

  lemma LinesSplit(s: Bytes)
    requires s != []
    ensures Indented(s) <==>
      && (Blank(s[..LineEnd(s)]) || INDENT <= s[..LineEnd(s)]) && Indented(s[LineEnd(s) + Break(s)..])
  {
    assert Lines(s)[0] == s[..LineEnd(s)];
  }

  /**
   A body is accepted exactly if it is not empty, not too long, ends a line, holds no marker, and every line is blank or
   begins with four spaces.
   */
  lemma BodyOkExactly(body: Bytes)
    ensures BodyOk(body) <==>
      && body != [] && |body| <= 65536 && body[|body| - 1] == 10 && LacksMarkers(body)
      && forall i :: BeginsLine(body, i) ==> SpacesAt(body, i) || BlankFrom(body, i)
  {
    Markers();
    FindNone(body, BEGIN);
    FindNone(body, END);
    FreeIs(body);
    IndentedIs(body);
  }
}
