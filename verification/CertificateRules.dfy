/** What certificates hold, and exactly which are accepted. */
module CertificateRules {
  import opened Common
  import opened AllPathsEventually
  import opened ModelCheck

  /*
   The members of a certificate by name and value, and the checker's verdict in terms of the certificate and the
   model alone.
   */

  predicate Has(fields: map<string, Json>, name: string, value: Json)
  {
    name in fields && fields[name] == value
  }

  /** The texts in order. */
  predicate Lists(value: Json, texts: seq<string>)
  {
    value.JArray? && |value.items| == |texts| && forall i :: 0 <= i < |texts| ==> value.items[i] == JString(texts[i])
  }

  /** The record of a property: four members, its own states in its own order. */
  predicate Records(value: Json, p: Property)
  {
    && value.JObject? && value.fields.Keys == {"id", "kind", "source_states", "target_states"}
    && value.fields["id"] == JString(p.id) && value.fields["kind"] == JString("all_paths_eventually")
    && Lists(value.fields["source_states"], p.sources) && Lists(value.fields["target_states"], p.targets)
  }

  /** The number 1, `true` or the fraction 1.0: what Python holds equal to one. */
  predicate IsOne(value: Json)
  {
    || value == JInt(1) || value == JBool(true)
    || (value.JReal? && value.fraction.mantissa == 1 && value.fraction.exponent == 0)
  }

  predicate Heads(c: Certificate, digest: string)
  {
    && "schema_version" in c && IsOne(c["schema_version"])
    && Has(c, "checker", JString("mkso.af-rank.v1")) && Has(c, "model_sha256", JString(digest))
  }

  /** The certificate's property is recorded exactly as the model states it. */
  ghost predicate About(m: Model, c: Certificate, p: Property)
  {
    p.id in m.properties && m.properties[p.id] == p && "property" in c && Records(c["property"], p)
  }

  /** The states ranked, each with a natural number. */
  predicate Ranks(m: Model, claim: Json)
  {
    && claim.JObject? && claim.fields != map[]
    && forall s :: s in claim.fields ==> s in m.transitions && claim.fields[s].JInt? && claim.fields[s].number >= 0
  }

  /** Every source is ranked; zero is for targets only, and whatever else is ranked has successors, all of a lower rank. */
  predicate Descends(m: Model, p: Property, claim: Json)
    requires Ranks(m, claim)
  {
    && (forall s :: s in p.sources ==> s in claim.fields)
    && (forall s :: s in claim.fields && claim.fields[s] == JInt(0) ==> s in p.targets)
    && forall s :: s in claim.fields && claim.fields[s] != JInt(0) ==>
         && s !in p.targets && m.transitions[s] != []
         && forall t :: t in m.transitions[s] ==> t in claim.fields && claim.fields[t].number < claim.fields[s].number
  }

  /** From a source, past no target, into a dead end or back to a state the path has been in. */
  ghost predicate EscapesBy(m: Model, p: Property, path: seq<State>)
  {
    && path != [] && path[0] in p.sources
    && (forall i :: 0 <= i < |path| ==> path[i] !in p.targets && path[i] in m.transitions)
    && (forall i :: 0 < i < |path| ==> path[i] in m.transitions[path[i - 1]])
    && (m.transitions[path[|path| - 1]] == [] || exists i :: 0 <= i < |path| - 1 && path[i] == path[|path| - 1])
  }

  ghost predicate Escapes(m: Model, p: Property, claim: Json)
  {
    exists path: seq<State> :: Lists(claim, path) && EscapesBy(m, p, path)
  }

  // ---- what the prover writes ----

  /** A proof: the header, the property, and exactly the ranks. */
  lemma ProvedSays(digest: string, p: Property, ranks: map<State, nat>)
    ensures var c := Proved(digest, p, ranks);
      && c.Keys == {"schema_version", "checker", "model_sha256", "property", "result", "ranks"}
      && c["schema_version"] == JInt(1) && Heads(c, digest) && Records(c["property"], p) && c["result"] == JString("proved")
      && c["ranks"].JObject? && c["ranks"].fields.Keys == ranks.Keys
      && forall s :: s in ranks ==> c["ranks"].fields[s] == JInt(ranks[s])
  {
    ProvedMembers(digest, p, ranks);
  }

  /** A refutation: the header, the property, and the path. */
  lemma DisprovedSays(digest: string, p: Property, path: seq<State>)
    ensures var c := Disproved(digest, p, path);
      && c.Keys == {"schema_version", "checker", "model_sha256", "property", "result", "counterexample"}
      && c["schema_version"] == JInt(1) && Heads(c, digest) && Records(c["property"], p)
      && c["result"] == JString("disproved") && Lists(c["counterexample"], path)
  {
  }

  // ---- what the checker accepts ----

  lemma RecordsIs(value: Json, p: Property)
    ensures value == PropertyRecord(p) <==> Records(value, p)
  {
    if Records(value, p) {
      ListsIs(value.fields["source_states"], p.sources);
      ListsIs(value.fields["target_states"], p.targets);
      assert value.fields == PropertyRecord(p).fields;
    }
  }

  lemma ListsIs(value: Json, texts: seq<string>)
    ensures Lists(value, texts) <==> value == JArray(Strings(texts))
  {
    if Lists(value, texts) {
      assert value.items == Strings(texts);
    }
  }

  lemma OneIs(value: Json)
    ensures EqualsOne(value) <==> IsOne(value)
  {
  }

  lemma RanksAre(m: Model, p: Property, claim: Json)
    ensures RanksAccepted(m, p, claim) <==> Ranks(m, claim) && Descends(m, p, claim)
  {
    if Ranks(m, claim) {
      var ranks := map s | s in claim.fields :: claim.fields[s].number;
      forall s | s in claim.fields ensures ranks[s] == 0 <==> claim.fields[s] == JInt(0) {
      }
      if Descends(m, p, claim) {
        forall s | s in ranks ensures RankStep(m, Targets(p), ranks, s) {
        }
      }
      if RanksAccepted(m, p, claim) {
        forall s | s in claim.fields ensures RankStep(m, Targets(p), ranks, s) {
        }
      }
    }
  }

  lemma PathIs(m: Model, p: Property, claim: Json)
    requires Loaded(m) && LoadedProperty(m, p.id, p)
    ensures PathAccepted(m, p, claim) <==> Escapes(m, p, claim)
  {
    if PathAccepted(m, p, claim) {
      PathEscapes(m, p, claim);
    }
    if Escapes(m, p, claim) {
      EscapeIsPath(m, p, claim);
    }
  }

  lemma {:induction false} PathStays(m: Model, p: Property, claim: Json, i: nat)
    requires Loaded(m) && LoadedProperty(m, p.id, p) && PathAccepted(m, p, claim) && i < |claim.items|
    ensures claim.items[i].text in m.transitions
  {
    if i > 0 {
      PathStays(m, p, claim, i - 1);
      assert claim.items[i - 1 + 1].text in m.transitions[claim.items[i - 1].text];
    }
  }

  lemma PathEscapes(m: Model, p: Property, claim: Json)
    requires Loaded(m) && LoadedProperty(m, p.id, p) && PathAccepted(m, p, claim)
    ensures Escapes(m, p, claim)
  {
    var n := |claim.items|;
    var path := seq(n, i requires 0 <= i < n => claim.items[i].text);
    forall i | 0 <= i < n ensures path[i] !in p.targets && path[i] in m.transitions && claim.items[i] == JString(path[i]) {
      PathStays(m, p, claim, i);
    }
    forall i | 0 < i < n ensures path[i] in m.transitions[path[i - 1]] {
      assert claim.items[i - 1 + 1].text in m.transitions[claim.items[i - 1].text];
    }
    if m.transitions[path[n - 1]] != [] {
      var k :| 0 <= k < n - 1 && claim.items[k] == claim.items[n - 1];
      assert path[k] == path[n - 1];
    }
    assert Lists(claim, path);
  }

  lemma EscapeIsPath(m: Model, p: Property, claim: Json)
    requires Escapes(m, p, claim)
    ensures PathAccepted(m, p, claim)
  {
    var path: seq<State> :| Lists(claim, path) && EscapesBy(m, p, path);
    forall i | 0 <= i < |path| - 1
      ensures claim.items[i].text in m.transitions && claim.items[i + 1].text in m.transitions[claim.items[i].text]
    {
      assert path[i + 1] in m.transitions[path[i + 1 - 1]];
    }
    if m.transitions[path[|path| - 1]] != [] {
      var i :| 0 <= i < |path| - 1 && path[i] == path[|path| - 1];
      assert claim.items[..|claim.items| - 1][i] == claim.items[|claim.items| - 1];
    }
  }

  /** Proof of a property by descending ranks, or refutation by an escaping path. */
  ghost predicate Supports(m: Model, p: Property, c: Certificate)
  {
    || (Has(c, "result", JString("proved")) && "ranks" in c && Ranks(m, c["ranks"]) && Descends(m, p, c["ranks"]))
    || (Has(c, "result", JString("disproved")) && "counterexample" in c && Escapes(m, p, c["counterexample"]))
  }

  /** Past the header, the record and its identifier. */
  ghost predicate Identifies(m: Model, c: Certificate)
  {
    && "property" in c && c["property"].JObject? && "id" in c["property"].fields && c["property"].fields["id"].JString?
    && c["property"].fields["id"].text in m.properties
  }

  lemma SupportIs(m: Model, c: Certificate, p: Property)
    requires Loaded(m) && LoadedProperty(m, p.id, p)
    ensures Supports(m, p, c) <==>
      || (Member(c, "result") == JString("proved") && RanksAccepted(m, p, Member(c, "ranks")))
      || (Member(c, "result") == JString("disproved") && PathAccepted(m, p, Member(c, "counterexample")))
  {
    RanksAre(m, p, Member(c, "ranks"));
    PathIs(m, p, Member(c, "counterexample"));
  }

  lemma HeadsIs(c: Certificate, digest: string)
    ensures Heads(c, digest) <==>
      && EqualsOne(Member(c, "schema_version")) && Member(c, "checker") == JString("mkso.af-rank.v1")
      && Member(c, "model_sha256") == JString(digest)
  {
    OneIs(Member(c, "schema_version"));
  }

  /**
   A certificate is accepted exactly if it has the right header and model digest, records a property of the model as
   the model states it, and supports its result.
   */
  lemma AcceptedExactly(m: Model, digest: string, c: Certificate)
    requires Loaded(m)
    ensures CheckCertificate(m, digest, c) == Accepted <==>
      Heads(c, digest) && exists p :: About(m, c, p) && Supports(m, p, c)
  {
    HeadsIs(c, digest);
    if Identifies(m, c) {
      var p := m.properties[c["property"].fields["id"].text];
      assert LoadedProperty(m, p.id, p);
      RecordsIs(c["property"], p);
      SupportIs(m, c, p);
      assert About(m, c, p) <==> Records(c["property"], p);
    }
    forall p | About(m, c, p) ensures Identifies(m, c) && p == m.properties[c["property"].fields["id"].text] {
    }
  }

  /** The checker raises, as Python does on an unhashable key, exactly if the identifier is a list or an object. */
  lemma RaisesExactly(m: Model, digest: string, c: Certificate)
    ensures CheckCertificate(m, digest, c) == Raised <==>
      && Heads(c, digest) && "property" in c && c["property"].JObject? && "id" in c["property"].fields
      && (c["property"].fields["id"].JArray? || c["property"].fields["id"].JObject?)
  {
    HeadsIs(c, digest);
  }
}
