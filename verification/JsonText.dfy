/** A text that determines the JSON value written. */
module JsonText {
  import opened Common

  /*
   Each value is written so that no written value is a proper prefix of another. Members of an object are
   written in an arbitrary order; reading them back gives the same object whatever that order was.
   */

  function TextCode(s: string): string
  {
    if s == "" then "." else "c" + [s[0]] + TextCode(s[1..])
  }

  function NatCode(n: nat): string
  {
    if n == 0 then "." else "1" + NatCode(n - 1)
  }

  function IntCode(i: int): string
  {
    if i < 0 then "-" + NatCode(-i) else "+" + NatCode(i)
  }

  ghost function Code(j: Json): string
    decreases j, 1, 0
  {
    match j
    case JNull => "n"
    case JBool(flag) => if flag then "t" else "f"
    case JInt(number) => "i" + IntCode(number)
    case JReal(fraction) => "r" + IntCode(fraction.mantissa) + IntCode(fraction.exponent)
    case JString(text) => "s" + TextCode(text)
    case JArray(items) => "a" + ItemsCode(j, 0)
    case JObject(fields) => "o" + FieldsCode(j, fields)
  }

  /** The items of an array from one position on. */
  ghost function ItemsCode(j: Json, from: nat): string
    requires j.JArray? && from <= |j.items|
    decreases j, 0, |j.items| - from
  {
    if from == |j.items| then "." else "," + Code(j.items[from]) + ItemsCode(j, from + 1)
  }

  /** Some of the members of an object. */
  ghost function FieldsCode(j: Json, rest: map<string, Json>): string
    requires j.JObject? && rest.Keys <= j.fields.Keys && forall k :: k in rest ==> rest[k] == j.fields[k]
    decreases j, 0, |rest|
  {
    if rest == map[] then "."
    else
      var k :| k in rest;
      "," + TextCode(k) + Code(j.fields[k]) + FieldsCode(j, rest - {k})
  }

  /** The first characters agree, and so does what follows them. */
  lemma Peel(c: char, a: string, d: char, b: string, x: string, y: string)
    requires ([c] + a) + x == ([d] + b) + y
    ensures c == d && a + x == b + y
  {
    var u, v := ([c] + a) + x, ([d] + b) + y;
    assert u[0] == c && v[0] == d;
    assert u[1..] == a + x && v[1..] == b + y;
  }

  lemma Heads(u: string, v: string, x: string, y: string)
    requires u != "" && v != "" && u + x == v + y
    ensures u[0] == v[0] && u[1..] + x == v[1..] + y
  {
    assert u == [u[0]] + u[1..] && v == [v[0]] + v[1..];
    Peel(u[0], u[1..], v[0], v[1..], x, y);
  }

  lemma Regroup(a: string, b: string, x: string)
    ensures (a + b) + x == a + (b + x)
  {
  }

  lemma {:induction false} TextReads(s: string, t: string, x: string, y: string)
    requires TextCode(s) + x == TextCode(t) + y
    ensures s == t && x == y
  {
    var u, v := TextCode(s) + x, TextCode(t) + y;
    assert u[0] == v[0];
    if s == "" {
      assert u[1..] == x && v[1..] == y;
    } else {
      assert u[1] == s[0] && v[1] == t[0];
      assert u[2..] == TextCode(s[1..]) + x && v[2..] == TextCode(t[1..]) + y;
      TextReads(s[1..], t[1..], x, y);
      assert s == [s[0]] + s[1..] && t == [t[0]] + t[1..];
    }
  }

  lemma {:induction false} NatReads(m: nat, n: nat, x: string, y: string)
    requires NatCode(m) + x == NatCode(n) + y
    ensures m == n && x == y
  {
    var u, v := NatCode(m) + x, NatCode(n) + y;
    assert u[0] == v[0];
    if m == 0 {
      assert u[1..] == x && v[1..] == y;
    } else {
      assert u[1..] == NatCode(m - 1) + x && v[1..] == NatCode(n - 1) + y;
      NatReads(m - 1, n - 1, x, y);
    }
  }

  function Sign(i: int): char
  {
    if i < 0 then '-' else '+'
  }

  function Size(i: int): nat
  {
    if i < 0 then -i else i
  }

  lemma IntReads(m: int, n: int, x: string, y: string)
    requires IntCode(m) + x == IntCode(n) + y
    ensures m == n && x == y
  {
    Peel(Sign(m), NatCode(Size(m)), Sign(n), NatCode(Size(n)), x, y);
    NatReads(Size(m), Size(n), x, y);
  }

  /** Two integers in a row. */
  lemma IntsRead(m: int, m': int, n: int, n': int, x: string, y: string)
    requires (IntCode(m) + IntCode(m')) + x == (IntCode(n) + IntCode(n')) + y
    ensures m == n && m' == n' && x == y
  {
    Regroup(IntCode(m), IntCode(m'), x);
    Regroup(IntCode(n), IntCode(n'), y);
    IntReads(m, n, IntCode(m') + x, IntCode(n') + y);
    IntReads(m', n', x, y);
  }

  /** The kind of a value and what is written after it. */
  function Tag(j: Json): char
  {
    match j
    case JNull => 'n'
    case JBool(flag) => if flag then 't' else 'f'
    case JInt(_) => 'i'
    case JReal(_) => 'r'
    case JString(_) => 's'
    case JArray(_) => 'a'
    case JObject(_) => 'o'
  }

  ghost function Body(j: Json): string
  {
    match j
    case JNull => ""
    case JBool(_) => ""
    case JInt(number) => IntCode(number)
    case JReal(fraction) => IntCode(fraction.mantissa) + IntCode(fraction.exponent)
    case JString(text) => TextCode(text)
    case JArray(_) => ItemsCode(j, 0)
    case JObject(fields) => FieldsCode(j, fields)
  }

  lemma CodeParts(j: Json)
    ensures Code(j) == [Tag(j)] + Body(j)
  {
  }

  lemma {:induction false} ItemsRead(j: Json, k: Json, i: nat, x: string, y: string)
    requires j.JArray? && k.JArray? && i <= |j.items| && i <= |k.items|
    requires ItemsCode(j, i) + x == ItemsCode(k, i) + y
    ensures j.items[i..] == k.items[i..] && x == y
    decreases j, 0, |j.items| - i
  {
    if i == |j.items| || i == |k.items| {
      Heads(ItemsCode(j, i), ItemsCode(k, i), x, y);
      assert "" + x == x && "" + y == y;
    } else {
      var c, d := Code(j.items[i]), Code(k.items[i]);
      var s, t := ItemsCode(j, i + 1), ItemsCode(k, i + 1);
      Regroup([','], c, s);
      Regroup([','], d, t);
      Peel(',', c + s, ',', d + t, x, y);
      Regroup(c, s, x);
      Regroup(d, t, y);
      CodeReads(j.items[i], k.items[i], s + x, t + y);
      ItemsRead(j, k, i + 1, x, y);
      assert j.items[i..] == [j.items[i]] + j.items[i + 1..] && k.items[i..] == [k.items[i]] + k.items[i + 1..];
    }
  }

  /** The member written first. */
  lemma FirstField(j: Json, p: map<string, Json>) returns (a: string)
    requires j.JObject? && p.Keys <= j.fields.Keys && forall n :: n in p ==> p[n] == j.fields[n]
    requires p != map[]
    ensures a in p
    ensures FieldsCode(j, p) == [','] + (TextCode(a) + (Code(j.fields[a]) + FieldsCode(j, p - {a})))
  {
    a :| a in p && FieldsCode(j, p) == "," + TextCode(a) + Code(j.fields[a]) + FieldsCode(j, p - {a});
  }

  lemma WithoutOne(p: map<string, Json>, q: map<string, Json>, a: string)
    requires a in p && a in q && p[a] == q[a] && p - {a} == q - {a}
    ensures p == q
  {
    assert p == (p - {a})[a := p[a]] && q == (q - {a})[a := q[a]];
  }

  lemma {:induction false} FieldsRead(j: Json, k: Json, p: map<string, Json>, q: map<string, Json>, x: string, y: string)
    requires j.JObject? && p.Keys <= j.fields.Keys && forall n :: n in p ==> p[n] == j.fields[n]
    requires k.JObject? && q.Keys <= k.fields.Keys && forall n :: n in q ==> q[n] == k.fields[n]
    requires FieldsCode(j, p) + x == FieldsCode(k, q) + y
    ensures p == q && x == y
    decreases j, 0, |p|
  {
    if p == map[] || q == map[] {
      Heads(FieldsCode(j, p), FieldsCode(k, q), x, y);
      assert "" + x == x && "" + y == y;
    } else {
      var a := FirstField(j, p);
      var b := FirstField(k, q);
      var s, t := FieldsCode(j, p - {a}), FieldsCode(k, q - {b});
      var c, d := Code(j.fields[a]), Code(k.fields[b]);
      Peel(',', TextCode(a) + (c + s), ',', TextCode(b) + (d + t), x, y);
      Regroup(TextCode(a), c + s, x);
      Regroup(TextCode(b), d + t, y);
      TextReads(a, b, (c + s) + x, (d + t) + y);
      Regroup(c, s, x);
      Regroup(d, t, y);
      CodeReads(j.fields[a], k.fields[b], s + x, t + y);
      FieldsRead(j, k, p - {a}, q - {b}, x, y);
      WithoutOne(p, q, a);
    }
  }

  /** What is written first determines the value and the rest. */
  lemma {:induction false} CodeReads(j: Json, k: Json, x: string, y: string)
    requires Code(j) + x == Code(k) + y
    ensures j == k && x == y
    decreases j, 1, 0
  {
    CodeParts(j);
    CodeParts(k);
    Peel(Tag(j), Body(j), Tag(k), Body(k), x, y);
    assert "" + x == x && "" + y == y;
    match j
    case JNull =>
    case JBool(_) =>
    case JInt(m) => IntReads(m, k.number, x, y);
    case JReal(f) => IntsRead(f.mantissa, f.exponent, k.fraction.mantissa, k.fraction.exponent, x, y);
    case JString(s) => TextReads(s, k.text, x, y);
    case JArray(items) =>
      ItemsRead(j, k, 0, x, y);
      assert items[0..] == items && k.items[0..] == k.items;
    case JObject(fields) => FieldsRead(j, k, fields, k.fields, x, y);
  }

  /** Different values are written differently. */
  lemma CodeIsInjective(j: Json, k: Json)
    requires Code(j) == Code(k)
    ensures j == k
  {
    assert Code(j) + "" == Code(k) + "";
    CodeReads(j, k, "", "");
  }

  // ---- values that stand for others ----

  function TextOrNull(t: Option<string>): Json
  {
    match t case None => JNull case Some(text) => JString(text)
  }

  lemma StringsTell(a: seq<string>, b: seq<string>)
    requires Strings(a) == Strings(b)
    ensures a == b
  {
    forall i | 0 <= i < |a| ensures a[i] == b[i] {
      assert Strings(a)[i] == Strings(b)[i];
    }
  }
}
