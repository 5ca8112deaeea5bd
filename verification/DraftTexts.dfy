/** The names, identifiers and hashes in draft records, said of their characters. */
module DraftTexts {
  import opened Common
  import opened Alphabets
  import opened DraftBridge

  lemma HashExactly(v: Json)
    ensures Hex64(v) <==> v.JString? && |v.text| == 64 && Uses(v.text, "0123456789abcdef")
  {
    if v.JString? { HexDigitsUsed(v.text); }
  }

  lemma LettersAre(c: char)
    ensures Alphanumeric(c) <==> c in Lower || c in Upper || c in Digits
  {
    LowerIs(c);
    UpperIs(c);
    DigitsAre(c);
  }

  /** Letters, digits and these others. */
  predicate LettersAnd(text: string, others: string)
  {
    forall c :: c in text ==> c in Lower || c in Upper || c in Digits || c in others
  }

  lemma LettersAndIs(text: string, others: string)
    ensures LettersAnd(text, others) <==> forall i :: 0 <= i < |text| ==> Alphanumeric(text[i]) || text[i] in others
  {
    forall c: char ensures Alphanumeric(c) <==> c in Lower || c in Upper || c in Digits { LettersAre(c); }
    forall i | 0 <= i < |text| ensures text[i] in text {
    }
  }

  lemma NameExactly(v: Json)
    ensures NameText(v) <==> v.JString? && 1 <= |v.text| <= 128 && LettersAnd(v.text, "_.-")
  {
    if v.JString? { LettersAndIs(v.text, "_.-"); }
  }

  lemma CallIdExactly(v: Json)
    ensures CallId(v) <==> v.JString? && 1 <= |v.text| <= 128 && LettersAnd(v.text, "_-")
  {
    if v.JString? { LettersAndIs(v.text, "_-"); }
  }

  predicate IdentifierTail(text: string)
  {
    |text| <= 63 && forall c :: c in text ==> c in Lower || c in Digits || c == '_'
  }

  /** A small letter, then at most 63 small letters, digits and underscores. */
  ghost predicate NamesIdentifier(text: string)
  {
    exists first, rest :: text == [first] + rest && first in Lower && IdentifierTail(rest)
  }

  lemma IdentifierSplits(first: char, rest: string)
    ensures Identifier([first] + rest) <==> first in Lower && IdentifierTail(rest)
  {
    var text := [first] + rest;
    LowerIs(first);
    forall c: char ensures (c in Lower <==> 'a' <= c <= 'z') && (c in Digits <==> '0' <= c <= '9') {
      LowerIs(c);
      DigitsAre(c);
    }
    forall i | 0 <= i < |rest| ensures text[i + 1] == rest[i] && rest[i] in rest {
    }
    assert forall i :: 1 <= i < |text| ==> text[i] == rest[i - 1];
  }

  lemma IdentifierExactly(text: string)
    ensures Identifier(text) <==> NamesIdentifier(text)
  {
    if text != [] {
      assert text == [text[0]] + text[1..];
      IdentifierSplits(text[0], text[1..]);
    }
    if first, rest :| text == [first] + rest && first in Lower && IdentifierTail(rest) {
      IdentifierSplits(first, rest);
    }
  }

  lemma SourceNameExactly(text: string)
    ensures SourceName(text) <==> exists stem :: text == stem + ".py" && NamesIdentifier(stem)
  {
    if SourceName(text) {
      var stem := text[..|text| - 3];
      assert text == stem + ".py";
      IdentifierExactly(stem);
    }
    if stem :| text == stem + ".py" && NamesIdentifier(stem) {
      assert text[..|text| - 3] == stem && text[|text| - 3..] == ".py";
      IdentifierExactly(stem);
    }
  }

  /** Which texts name hashes, tasks and slots, calls, functions and source files. */
  lemma TextsExactly(v: Json, text: string)
    ensures Hex64(v) <==> v.JString? && |v.text| == 64 && Uses(v.text, "0123456789abcdef")
    ensures NameText(v) <==> v.JString? && 1 <= |v.text| <= 128 && LettersAnd(v.text, "_.-")
    ensures CallId(v) <==> v.JString? && 1 <= |v.text| <= 128 && LettersAnd(v.text, "_-")
    ensures Identifier(text) <==> NamesIdentifier(text)
    ensures SourceName(text) <==> exists stem :: text == stem + ".py" && NamesIdentifier(stem)
  {
    HashExactly(v);
    NameExactly(v);
    CallIdExactly(v);
    IdentifierExactly(text);
    SourceNameExactly(text);
  }
}
