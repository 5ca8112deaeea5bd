/** A text that determines the subject of a digest, so that digests which tell all subjects apart exist. */
module SubjectText {
  import opened Common
  import opened JsonText
  import opened Plan
  import opened Evidence

  function KindNumber(kind: Kind): int
  {
    match kind case Theme => 0 case Epic => 1 case Story => 2 case Task => 3
  }

  function RoleNumber(role: Role): int
  {
    match role case Behavior => 0 case Composition => 1
  }

  function EvidenceNumber(kind: EvidenceKind): int
  {
    match kind
    case Test => 0 case Mutation => 1 case Contract => 2 case StaticAnalysis => 3 case FormalProof => 4
    case CompositionEvidence => 5
  }

  function ObligationValue(o: Obligation): Json
  {
    JArray([
      JArray(Strings([o.id, o.workItem, o.record])), JInt(RoleNumber(o.role)), JArray(Strings(o.inputs)),
      JArray(seq(|o.required|, i requires 0 <= i < |o.required| => JInt(EvidenceNumber(o.required[i]))))])
  }

  function BindingValue(b: BindingPayload): Json
  {
    JArray([
      JArray(Strings([b.planned.obligation, b.planned.file, b.planned.name, b.planned.symbol, b.planned.record])),
      TextOrNull(b.symbol), TextOrNull(b.admission), TextOrNull(b.current)])
  }

  function InputValue(input: (string, Option<string>)): Json
  {
    JArray([JString(input.0), TextOrNull(input.1)])
  }

  function PayloadValue(p: ObligationPayload): Json
  {
    JArray([
      ObligationValue(p.obligation),
      JArray(seq(|p.inputs|, i requires 0 <= i < |p.inputs| => InputValue(p.inputs[i]))),
      JArray(seq(|p.bindings|, i requires 0 <= i < |p.bindings| => BindingValue(p.bindings[i])))])
  }

  function SubtreeValue(t: Subtree): Json
  {
    JArray([
      JArray(Strings([t.id, t.title, t.description])), JInt(KindNumber(t.kind)), TextOrNull(t.parent),
      JArray(seq(|t.obligations|, i requires 0 <= i < |t.obligations| => PayloadValue(t.obligations[i]))),
      JArray(seq(|t.children|, i requires 0 <= i < |t.children| => SubtreeValue(t.children[i])))])
  }

  function SubjectValue(admission: Option<string>, s: Subject): Json
  {
    JArray([TextOrNull(admission), JBool(s.One?), match s case One(p) => PayloadValue(p) case Whole(t) => SubtreeValue(t)])
  }

  // ---- each value determines what it stands for ----

  lemma ObligationTells(o: Obligation, p: Obligation)
    requires ObligationValue(o) == ObligationValue(p)
    ensures o == p
  {
    var s, t := ObligationValue(o).items, ObligationValue(p).items;
    assert s[0] == t[0] && s[1] == t[1] && s[2] == t[2] && s[3] == t[3];
    var a, b := [o.id, o.workItem, o.record], [p.id, p.workItem, p.record];
    StringsTell(a, b);
    assert a[0] == b[0] && a[1] == b[1] && a[2] == b[2];
    StringsTell(o.inputs, p.inputs);
    assert |o.required| == |s[3].items| && |p.required| == |t[3].items|;
    forall i | 0 <= i < |o.required| ensures o.required[i] == p.required[i] {
      assert s[3].items[i] == t[3].items[i];
    }
  }

  lemma BindingTells(b: BindingPayload, c: BindingPayload)
    requires BindingValue(b) == BindingValue(c)
    ensures b == c
  {
    var s, t := BindingValue(b).items, BindingValue(c).items;
    assert s[0] == t[0] && s[1] == t[1] && s[2] == t[2] && s[3] == t[3];
    var x := [b.planned.obligation, b.planned.file, b.planned.name, b.planned.symbol, b.planned.record];
    var y := [c.planned.obligation, c.planned.file, c.planned.name, c.planned.symbol, c.planned.record];
    StringsTell(x, y);
    assert x[0] == y[0] && x[1] == y[1] && x[2] == y[2] && x[3] == y[3] && x[4] == y[4];
  }

  lemma InputTells(x: (string, Option<string>), y: (string, Option<string>))
    requires InputValue(x) == InputValue(y)
    ensures x == y
  {
    assert InputValue(x).items[0] == InputValue(y).items[0] && InputValue(x).items[1] == InputValue(y).items[1];
  }

  lemma PayloadTells(p: ObligationPayload, q: ObligationPayload)
    requires PayloadValue(p) == PayloadValue(q)
    ensures p == q
  {
    var s, t := PayloadValue(p).items, PayloadValue(q).items;
    assert s[0] == t[0] && s[1] == t[1] && s[2] == t[2];
    ObligationTells(p.obligation, q.obligation);
    assert |p.inputs| == |s[1].items| && |q.inputs| == |t[1].items|;
    forall i | 0 <= i < |p.inputs| ensures p.inputs[i] == q.inputs[i] {
      assert s[1].items[i] == t[1].items[i];
      InputTells(p.inputs[i], q.inputs[i]);
    }
    assert |p.bindings| == |s[2].items| && |q.bindings| == |t[2].items|;
    forall i | 0 <= i < |p.bindings| ensures p.bindings[i] == q.bindings[i] {
      assert s[2].items[i] == t[2].items[i];
      BindingTells(p.bindings[i], q.bindings[i]);
    }
  }

  lemma {:induction false} SubtreeTells(a: Subtree, b: Subtree)
    requires SubtreeValue(a) == SubtreeValue(b)
    ensures a == b
  {
    var s, t := SubtreeValue(a).items, SubtreeValue(b).items;
    assert s[0] == t[0] && s[1] == t[1] && s[2] == t[2] && s[3] == t[3] && s[4] == t[4];
    var x, y := [a.id, a.title, a.description], [b.id, b.title, b.description];
    StringsTell(x, y);
    assert x[0] == y[0] && x[1] == y[1] && x[2] == y[2];
    assert |a.obligations| == |s[3].items| && |b.obligations| == |t[3].items|;
    forall i | 0 <= i < |a.obligations| ensures a.obligations[i] == b.obligations[i] {
      assert s[3].items[i] == t[3].items[i];
      PayloadTells(a.obligations[i], b.obligations[i]);
    }
    assert |a.children| == |s[4].items| && |b.children| == |t[4].items|;
    forall i | 0 <= i < |a.children| ensures a.children[i] == b.children[i] {
      assert s[4].items[i] == t[4].items[i];
      SubtreeTells(a.children[i], b.children[i]);
    }
  }

  lemma SubjectTells(a: Option<string>, s: Subject, b: Option<string>, t: Subject)
    requires SubjectValue(a, s) == SubjectValue(b, t)
    ensures a == b && s == t
  {
    var x, y := SubjectValue(a, s).items, SubjectValue(b, t).items;
    assert x[0] == y[0] && x[1] == y[1] && x[2] == y[2];
    match (s, t)
    case (One(p), One(q)) => PayloadTells(p, q);
    case (Whole(p), Whole(q)) => SubtreeTells(p, q);
    case _ =>
  }

  /** There are digests that tell all admissions and subjects apart. */
  lemma SomeDigestIsInjective()
    ensures exists hash: Digest :: Injective(hash)
  {
    var hash: Digest := (admission: Option<string>, s: Subject) => Code(SubjectValue(admission, s));
    forall a, s, b, t | hash(a, s) == hash(b, t) ensures a == b && s == t {
      CodeIsInjective(SubjectValue(a, s), SubjectValue(b, t));
      SubjectTells(a, s, b, t);
    }
    assert Injective(hash);
  }
}
