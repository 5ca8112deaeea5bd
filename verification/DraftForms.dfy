/** Exactly which model output, broker records, dispatches and runtime reports are accepted. */
module DraftForms {
  import opened Common
  import opened Sequences
  import opened DraftBridge
  import opened DraftSession

  /*
   Each validation said of the members of the value it looks at, and each dispatch of the request it makes and the
   answer it releases.
   */

  predicate Holds(fields: map<string, Json>, name: string, text: string)
  {
    name in fields && fields[name] == JString(text)
  }

  // ---- model output ----

  /** One to 128 letters, digits, underscores and dashes. */
  predicate IdText(id: string)
  {
    && 1 <= |id| <= 128
    && forall c :: c in id ==> 'a' <= c <= 'z' || 'A' <= c <= 'Z' || '0' <= c <= '9' || c == '_' || c == '-'
  }

  /** The decoded arguments: none for the public read, one member for a submission. */
  predicate ArgumentsFollow(name: string, arguments: Json)
  {
    arguments.JObject? && if name == "public" then arguments.fields == map[] else arguments.fields.Keys == {"body_base64"}
  }

  /** A completed call of one of the two operations, under an identifier not seen before. */
  ghost predicate CallFollows(o: Oracles, fields: map<string, Json>, seen: set<string>)
  {
    && (forall k :: k in fields ==> k in {"type", "id", "call_id", "name", "arguments", "status"})
    && ("status" in fields ==> fields["status"] == JString("completed"))
    && (exists id :: Holds(fields, "call_id", id) && IdText(id) && id !in seen)
    && exists name, text :: Holds(fields, "name", name) && Holds(fields, "arguments", text) && (name == "public" || name == "submit")
         && |text| <= 131072 && o.decode(text).Some? && ArgumentsFollow(name, o.decode(text).value)
  }

  predicate MessageFollows(fields: map<string, Json>)
  {
    && Holds(fields, "role", "assistant") && "content" in fields && fields["content"].JArray?
    && forall part :: part in fields["content"].items ==> part.JObject? && Holds(part.fields, "type", "output_text")
  }

  ghost predicate ItemFollows(o: Oracles, item: Json, seen: set<string>)
  {
    && item.JObject?
    && (|| (Holds(item.fields, "type", "function_call") && CallFollows(o, item.fields, seen))
        || (Holds(item.fields, "type", "message") && MessageFollows(item.fields))
        || (Holds(item.fields, "type", "reasoning")
            && forall k :: k in item.fields ==> k in {"type", "id", "summary", "content", "encrypted_content", "status"}))
  }

  predicate CallsAt(response: Json, i: int)
  {
    && response.JObject? && "output" in response.fields && response.fields["output"].JArray?
    && 0 <= i < |response.fields["output"].items|
    && response.fields["output"].items[i].JObject? && Holds(response.fields["output"].items[i].fields, "type", "function_call")
  }

  /** A completed response of this model, without error, of at most 128 items, all in order. */
  ghost predicate ResponseFollows(o: Oracles, response: Json, model: string, seen: set<string>)
  {
    && response.JObject? && Holds(response.fields, "model", model) && Holds(response.fields, "status", "completed")
    && ("error" in response.fields ==> response.fields["error"] == JNull)
    && "output" in response.fields && response.fields["output"].JArray? && |response.fields["output"].items| <= 128
    && forall item :: item in response.fields["output"].items ==> ItemFollows(o, item, seen)
  }

  /** The call is the response's only one; without a call, it has none. */
  ghost predicate OnlyCall(response: Json, call: Option<Json>)
  {
    match call
    case None => forall i :: !CallsAt(response, i)
    case Some(c) =>
      exists i :: CallsAt(response, i) && response.fields["output"].items[i] == c && forall j :: CallsAt(response, j) ==> j == i
  }

  lemma CallIs(o: Oracles, fields: map<string, Json>, seen: set<string>)
    ensures CallOk(o, fields, seen) <==> CallFollows(o, fields, seen)
  {
    if CallOk(o, fields, seen) {
      var id, name, text := Member(fields, "call_id").text, Member(fields, "name").text, Member(fields, "arguments").text;
      assert Holds(fields, "call_id", id) && Holds(fields, "name", name) && Holds(fields, "arguments", text);
      forall c | c in id ensures 'a' <= c <= 'z' || 'A' <= c <= 'Z' || '0' <= c <= '9' || c == '_' || c == '-' {
        var i :| 0 <= i < |id| && id[i] == c;
        assert Alphanumeric(id[i]) || id[i] in "_-";
      }
      assert IdText(id);
    }
    if CallFollows(o, fields, seen) {
      var id :| Holds(fields, "call_id", id) && IdText(id) && id !in seen;
      forall i | 0 <= i < |id| ensures Alphanumeric(id[i]) || id[i] in "_-" {
        assert id[i] in id;
      }
    }
  }

  lemma MessageIs(fields: map<string, Json>)
    ensures MessageOk(fields) <==> MessageFollows(fields)
  {
    if MessageFollows(fields) {
      forall i | 0 <= i < |fields["content"].items| ensures TextPart(fields["content"].items[i]) {
        assert fields["content"].items[i] in fields["content"].items;
      }
    }
    if MessageOk(fields) {
      forall part | part in fields["content"].items ensures part.JObject? && Holds(part.fields, "type", "output_text") {
        var i :| 0 <= i < |fields["content"].items| && fields["content"].items[i] == part;
        assert TextPart(fields["content"].items[i]);
      }
    }
  }

  lemma ItemIs(o: Oracles, item: Json, seen: set<string>)
    ensures ItemOk(o, item, seen) <==> ItemFollows(o, item, seen)
  {
    if item.JObject? {
      CallIs(o, item.fields, seen);
      MessageIs(item.fields);
    }
  }

  function CallPlaces(items: seq<Json>): set<int>
  {
    set i | 0 <= i < |items| && IsCall(items[i])
  }

  lemma {:induction false} CallsCount(items: seq<Json>)
    ensures |CallsIn(items)| == |CallPlaces(items)|
    ensures forall c :: c in CallsIn(items) <==> exists i :: i in CallPlaces(items) && items[i] == c
  {
    if items != [] {
      var before, last := items[..|items| - 1], |items| - 1;
      CallsCount(before);
      assert CallPlaces(items) == CallPlaces(before) + if IsCall(items[last]) then {last} else {};
      forall i | i in CallPlaces(before) ensures before[i] == items[i] {
      }
      forall c ensures c in CallsIn(items) <==> exists i :: i in CallPlaces(items) && items[i] == c {
        if c in CallsIn(before) {
          var i :| i in CallPlaces(before) && before[i] == c;
          assert i in CallPlaces(items) && items[i] == c;
        }
        if i :| i in CallPlaces(items) && items[i] == c {
          if i < last {
            assert i in CallPlaces(before) && before[i] == c;
          }
        }
      }
    }
  }

  lemma CallsAre(response: Json, call: Option<Json>)
    requires response.JObject? && "output" in response.fields && response.fields["output"].JArray?
    ensures var calls := CallsIn(Output(response));
      (call.None? ==> (calls == [] <==> OnlyCall(response, call))) && (call.Some? ==> (calls == [call.value] <==> OnlyCall(response, call)))
  {
    var items := response.fields["output"].items;
    var calls, places := CallsIn(items), CallPlaces(items);
    CallsCount(items);
    OneElement(places);
    forall i ensures i in places <==> CallsAt(response, i) {
    }
    if call.None? {
      if calls == [] {
        assert places == {};
      }
      if OnlyCall(response, call) {
        assert places == {};
      }
    } else {
      if calls == [call.value] {
        assert call.value in calls;
        var i :| i in places && items[i] == call.value;
        assert CallsAt(response, i);
      }
      if OnlyCall(response, call) {
        var i :| CallsAt(response, i) && items[i] == call.value && forall j :: CallsAt(response, j) ==> j == i;
        assert i in places && |calls| == 1;
        assert calls[0] in calls;
      }
    }
  }

  /** A response is read exactly if it is in order and has at most one call, and its call is that one. */
  lemma CallExactly(o: Oracles, response: Json, model: string, seen: set<string>, call: Option<Json>)
    ensures CallOf(o, response, model, seen) == Ok(call) <==> ResponseFollows(o, response, model, seen) && OnlyCall(response, call)
  {
    if response.JObject? && "output" in response.fields && response.fields["output"].JArray? {
      var items := response.fields["output"].items;
      forall item ensures ItemOk(o, item, seen) <==> ItemFollows(o, item, seen) {
        ItemIs(o, item, seen);
      }
      CallsAre(response, call);
      if ResponseFollows(o, response, model, seen) {
        forall i | 0 <= i < |items| ensures ItemOk(o, items[i], seen) {
          assert items[i] in items;
        }
      }
    }
  }

  // ---- broker records ----

  predicate Verdict(value: Json, state: string)
  {
    value == JObject(map["state" := JString(state), "authority" := JString("NONE")])
  }

  /** The six bindings of this capsule hash. */
  predicate Binds(fields: map<string, Json>, capsuleHash: string)
  {
    && Holds(fields, "capsule_hash", capsuleHash) && Hex64(JString(capsuleHash))
    && "scaffold_hash" in fields && Hex64(fields["scaffold_hash"])
    && "contract_hash" in fields && Hex64(fields["contract_hash"])
    && "predecessor_hash" in fields && (fields["predecessor_hash"] == JNull || Hex64(fields["predecessor_hash"]))
    && "task_id" in fields && NameText(fields["task_id"])
    && "slot_id" in fields && NameText(fields["slot_id"])
  }

  /** One to eight named Python sources, one of which holds the function. */
  predicate PublicFollows(o: Oracles, fields: map<string, Json>, capsuleHash: string)
  {
    && fields.Keys == {"capsule_hash", "scaffold_hash", "contract_hash", "task_id", "predecessor_hash", "slot_id",
         "state", "authority", "filename", "function", "sources"}
    && Holds(fields, "state", "DRAFT_CAPSULE") && Holds(fields, "authority", "NONE") && Binds(fields, capsuleHash)
    && fields["function"].JString? && Identifier(fields["function"].text)
    && fields["sources"].JObject? && 1 <= |fields["sources"].fields| <= 8
    && fields["filename"].JString? && fields["filename"].text in fields["sources"].fields
    && SourcesFollow(o, fields["sources"].fields)
  }

  /** This broker's receipt for two digests, with the capsule's own bindings. */
  predicate ReceiptFollows(o: Oracles, fields: map<string, Json>, capsuleHash: string, capsule: map<string, Json>)
  {
    && fields.Keys == {"capsule_hash", "scaffold_hash", "contract_hash", "task_id", "predecessor_hash", "slot_id",
         "state", "authority", "broker_hash", "candidate_hash", "index_hash"}
    && Holds(fields, "state", "STRUCTURALLY_ADMITTED_DRAFT") && Holds(fields, "authority", "NONE")
    && Holds(fields, "broker_hash", o.brokerHash) && Hex64(fields["candidate_hash"]) && Hex64(fields["index_hash"])
    && Binds(fields, capsuleHash)
    && "capsule_hash" in capsule && fields["capsule_hash"] == capsule["capsule_hash"]
    && "scaffold_hash" in capsule && fields["scaffold_hash"] == capsule["scaffold_hash"]
    && "contract_hash" in capsule && fields["contract_hash"] == capsule["contract_hash"]
    && "task_id" in capsule && fields["task_id"] == capsule["task_id"]
    && "predecessor_hash" in capsule && fields["predecessor_hash"] == capsule["predecessor_hash"]
    && "slot_id" in capsule && fields["slot_id"] == capsule["slot_id"]
  }

  /** What is released of a broker's answer: a bare verdict, the public capsule, or a receipt for it. */
  predicate Released(o: Oracles, value: Json, capsuleHash: string, capsule: Option<Json>)
  {
    || Verdict(value, "DRAFT_REJECTED") || Verdict(value, "DRAFT_UNAVAILABLE")
    || (value.JObject? && capsule == None && PublicFollows(o, value.fields, capsuleHash))
    || (value.JObject? && capsule.Some? && capsule.value.JObject? && ReceiptFollows(o, value.fields, capsuleHash, capsule.value.fields))
  }

  lemma VerdictIs(value: Json, state: string)
    ensures Verdict(value, state) <==>
      && value.JObject? && value.fields.Keys == {"state", "authority"} && IsState(value, state)
      && Member(value.fields, "authority") == JString("NONE")
  {
    if value.JObject? && value.fields.Keys == {"state", "authority"} && IsState(value, state)
      && Member(value.fields, "authority") == JString("NONE") {
      assert value.fields == map["state" := JString(state), "authority" := JString("NONE")];
    }
  }

  lemma BindsIs(fields: map<string, Json>, capsuleHash: string)
    requires BINDINGS <= fields.Keys
    ensures Bound(fields, capsuleHash) <==> Binds(fields, capsuleHash)
  {
    assert "capsule_hash" in BINDINGS && "scaffold_hash" in BINDINGS && "contract_hash" in BINDINGS
      && "predecessor_hash" in BINDINGS && "task_id" in BINDINGS && "slot_id" in BINDINGS;
  }

  /** Named Python sources in strict base64. */
  predicate SourcesFollow(o: Oracles, sources: map<string, Json>)
  {
    forall name :: name in sources ==>
      && |name| > 3 && name[|name| - 3..] == ".py" && Identifier(name[..|name| - 3])
      && sources[name].JString? && |sources[name].text| <= 349528 && o.base64(sources[name].text).Some?
  }

  lemma SourcesAre(o: Oracles, sources: map<string, Json>)
    ensures SourcesFollow(o, sources) <==> forall name :: name in sources ==> SourceOk(o, name, sources[name])
  {
  }

  lemma PublicKeys(keys: set<string>)
    ensures keys == BINDINGS + {"state", "authority", "filename", "function", "sources"} <==>
      keys == {"capsule_hash", "scaffold_hash", "contract_hash", "task_id", "predecessor_hash", "slot_id",
        "state", "authority", "filename", "function", "sources"}
  {
  }

  lemma PublicIs(o: Oracles, value: Json, capsuleHash: string)
    requires value.JObject?
    ensures PublicFollows(o, value.fields, capsuleHash) <==>
      Member(value.fields, "authority") == JString("NONE") && Bound(value.fields, capsuleHash) && Capsule(o, value.fields)
  {
    var fields := value.fields;
    PublicKeys(fields.Keys);
    if fields.Keys == BINDINGS + {"state", "authority", "filename", "function", "sources"} {
      BindsIs(fields, capsuleHash);
      if fields["sources"].JObject? {
        SourcesAre(o, fields["sources"].fields);
      }
    }
  }

  lemma ReceiptKeys(keys: set<string>)
    ensures keys == BINDINGS + {"state", "authority", "broker_hash", "candidate_hash", "index_hash"} <==>
      keys == {"capsule_hash", "scaffold_hash", "contract_hash", "task_id", "predecessor_hash", "slot_id",
        "state", "authority", "broker_hash", "candidate_hash", "index_hash"}
  {
  }

  lemma BindingsKept(fields: map<string, Json>, capsule: map<string, Json>)
    requires BINDINGS <= fields.Keys
    ensures (forall name :: name in BINDINGS ==> name in capsule && fields[name] == capsule[name]) <==>
      && "capsule_hash" in capsule && fields["capsule_hash"] == capsule["capsule_hash"]
      && "scaffold_hash" in capsule && fields["scaffold_hash"] == capsule["scaffold_hash"]
      && "contract_hash" in capsule && fields["contract_hash"] == capsule["contract_hash"]
      && "task_id" in capsule && fields["task_id"] == capsule["task_id"]
      && "predecessor_hash" in capsule && fields["predecessor_hash"] == capsule["predecessor_hash"]
      && "slot_id" in capsule && fields["slot_id"] == capsule["slot_id"]
  {
    assert "capsule_hash" in BINDINGS && "scaffold_hash" in BINDINGS && "contract_hash" in BINDINGS
      && "predecessor_hash" in BINDINGS && "task_id" in BINDINGS && "slot_id" in BINDINGS;
  }

  lemma ReceiptIs(o: Oracles, value: Json, capsuleHash: string, capsule: map<string, Json>)
    requires value.JObject?
    ensures ReceiptFollows(o, value.fields, capsuleHash, capsule) <==>
      && Member(value.fields, "authority") == JString("NONE") && Bound(value.fields, capsuleHash)
      && AdmittedDraft(o, value.fields, capsule)
  {
    var fields := value.fields;
    ReceiptKeys(fields.Keys);
    if fields.Keys == BINDINGS + {"state", "authority", "broker_hash", "candidate_hash", "index_hash"} {
      BindsIs(fields, capsuleHash);
      BindingsKept(fields, capsule);
    }
  }

  /** A record projects exactly if it is one of those that may be released. */
  lemma ProjectsExactly(o: Oracles, value: Json, capsuleHash: string, capsule: Option<Json>)
    ensures Projects(o, value, capsuleHash, capsule) <==> Released(o, value, capsuleHash, capsule)
  {
    VerdictIs(value, "DRAFT_REJECTED");
    VerdictIs(value, "DRAFT_UNAVAILABLE");
    if value.JObject? {
      PublicIs(o, value, capsuleHash);
      if capsule.Some? && capsule.value.JObject? {
        ReceiptIs(o, value, capsuleHash, capsule.value.fields);
      }
    }
  }

  // ---- dispatches ----

  /** The call names the operation, and its arguments are this object. */
  ghost predicate Asks(o: Oracles, call: Json, operation: string, arguments: map<string, Json>)
  {
    && call.JObject? && Holds(call.fields, "name", operation)
    && exists text :: Holds(call.fields, "arguments", text) && o.decode(text) == Some(JObject(arguments))
  }

  /** The broker answered this request, and the answer is released. */
  predicate Answers(o: Oracles, n: nat, request: Json, value: Json, capsuleHash: string, capsule: Option<Json>)
  {
    o.broker(n, request) == Some(value) && Released(o, value, capsuleHash, capsule)
  }

  /** A body of one to 65536 bytes that ends a line, in strict base64 of at most 87384 characters. */
  predicate BodyFollows(o: Oracles, encoded: string)
  {
    && |encoded| <= 87384 && o.base64(encoded).Some?
    && 1 <= |o.base64(encoded).value| <= 65536 && o.base64(encoded).value[|o.base64(encoded).value| - 1] == 10
  }

  /** A public read that brought the unchanged capsule, or a submission whose answer is released. */
  ghost predicate Dispatches(o: Oracles, n: nat, call: Json, capsuleHash: string, capsule: map<string, Json>, value: Json)
  {
    || (&& Asks(o, call, "public", map[]) && value == JObject(capsule)
        && Answers(o, n, JObject(map["operation" := JString("public")]), value, capsuleHash, None))
    || (&& "scaffold_hash" in capsule && "slot_id" in capsule
        && exists encoded ::
             && Asks(o, call, "submit", map["body_base64" := JString(encoded)]) && BodyFollows(o, encoded)
             && Answers(o, n, JObject(map["operation" := JString("submit"), "body_base64" := JString(encoded),
                  "capsule_hash" := JString(capsuleHash), "scaffold_hash" := capsule["scaffold_hash"],
                  "slot_id" := capsule["slot_id"]]), value, capsuleHash, Some(JObject(capsule))))
  }

  lemma AskIs(o: Oracles, n: nat, request: Json, capsuleHash: string, capsule: Option<Json>, value: Json)
    ensures Ask(o, n, request, capsuleHash, capsule) == Ok(value) <==> Answers(o, n, request, value, capsuleHash, capsule)
  {
    ProjectsExactly(o, value, capsuleHash, capsule);
  }

  lemma PublicRead(o: Oracles, call: Json, capsuleHash: string, capsule: Json)
    ensures DispatchRequest(o, call, capsuleHash, capsule) == Some((JObject(map["operation" := JString("public")]), None)) <==>
      Asks(o, call, "public", map[])
  {
    if Asks(o, call, "public", map[]) {
      var text :| Holds(call.fields, "arguments", text) && o.decode(text) == Some(JObject(map[]));
    }
    if DispatchRequest(o, call, capsuleHash, capsule) == Some((JObject(map["operation" := JString("public")]), None)) {
      assert Holds(call.fields, "arguments", Member(call.fields, "arguments").text);
    }
  }

  lemma BodyIs(o: Oracles, encoded: string)
    ensures BodyOk(o, JString(encoded)) <==> BodyFollows(o, encoded)
  {
  }

  lemma Submission(o: Oracles, call: Json, capsuleHash: string, capsule: map<string, Json>, encoded: string)
    requires "scaffold_hash" in capsule && "slot_id" in capsule
    requires Asks(o, call, "submit", map["body_base64" := JString(encoded)]) && BodyFollows(o, encoded)
    ensures !NamedPublic(call)
    ensures DispatchRequest(o, call, capsuleHash, JObject(capsule)) == Some((
      JObject(map["operation" := JString("submit"), "body_base64" := JString(encoded),
        "capsule_hash" := JString(capsuleHash), "scaffold_hash" := capsule["scaffold_hash"],
        "slot_id" := capsule["slot_id"]]), Some(JObject(capsule))))
  {
    var arguments := map["body_base64" := JString(encoded)];
    var text :| Holds(call.fields, "arguments", text) && o.decode(text) == Some(JObject(arguments));
    BodyIs(o, encoded);
    assert arguments.Keys == {"body_base64"};
  }

  lemma Submitted(o: Oracles, call: Json, capsuleHash: string, capsule: map<string, Json>) returns (encoded: string)
    requires "scaffold_hash" in capsule && "slot_id" in capsule && !NamedPublic(call)
    requires DispatchRequest(o, call, capsuleHash, JObject(capsule)).Some?
    ensures Asks(o, call, "submit", map["body_base64" := JString(encoded)]) && BodyFollows(o, encoded)
  {
    var text := Member(call.fields, "arguments").text;
    var arguments := o.decode(text).value.fields;
    encoded := arguments["body_base64"].text;
    BodyIs(o, encoded);
    assert arguments == map["body_base64" := JString(encoded)];
    assert Holds(call.fields, "arguments", text);
  }

  /** A dispatch succeeds with a value exactly if it is one of those, made and answered like that. */
  lemma DispatchExactly(o: Oracles, n: nat, call: Json, capsuleHash: string, capsule: map<string, Json>, value: Json)
    requires "scaffold_hash" in capsule && "slot_id" in capsule
    ensures Dispatch(o, n, call, capsuleHash, JObject(capsule)) == Ok(value) <==>
      Dispatches(o, n, call, capsuleHash, capsule, value)
  {
    var asked := DispatchRequest(o, call, capsuleHash, JObject(capsule));
    PublicRead(o, call, capsuleHash, JObject(capsule));
    if Dispatch(o, n, call, capsuleHash, JObject(capsule)) == Ok(value) {
      AskIs(o, n, asked.value.0, capsuleHash, asked.value.1, value);
      if !NamedPublic(call) {
        var encoded := Submitted(o, call, capsuleHash, capsule);
        Submission(o, call, capsuleHash, capsule, encoded);
      } else {
        RequestIsFixed(o, call, capsuleHash, JObject(capsule));
      }
    }
    if Dispatches(o, n, call, capsuleHash, capsule, value) {
      DispatchesIs(o, n, call, capsuleHash, capsule, value);
    }
  }

  lemma DispatchesIs(o: Oracles, n: nat, call: Json, capsuleHash: string, capsule: map<string, Json>, value: Json)
    requires Dispatches(o, n, call, capsuleHash, capsule, value)
    ensures Dispatch(o, n, call, capsuleHash, JObject(capsule)) == Ok(value)
  {
    if Asks(o, call, "public", map[]) {
      PublicRead(o, call, capsuleHash, JObject(capsule));
      AskIs(o, n, PublicRequest(), capsuleHash, None, value);
    } else {
      var encoded :|
        && Asks(o, call, "submit", map["body_base64" := JString(encoded)]) && BodyFollows(o, encoded)
        && Answers(o, n, JObject(map["operation" := JString("submit"), "body_base64" := JString(encoded),
             "capsule_hash" := JString(capsuleHash), "scaffold_hash" := capsule["scaffold_hash"],
             "slot_id" := capsule["slot_id"]]), value, capsuleHash, Some(JObject(capsule)));
      Submission(o, call, capsuleHash, capsule, encoded);
      AskIs(o, n, DispatchRequest(o, call, capsuleHash, JObject(capsule)).value.0, capsuleHash, Some(JObject(capsule)), value);
    }
  }

  // ---- the runtime report ----

  /** `name:[digits]`, with one to twenty digits. */
  ghost predicate NamesNamespace(v: Json, name: string)
  {
    exists digits: string ::
      && v == JString(name + ":[" + digits + "]") && 1 <= |digits| <= 20 && forall c :: c in digits ==> '0' <= c <= '9'
  }

  /** The one report of an unprivileged, sandboxed process, up to its filter count and namespace numbers. */
  ghost predicate Confined(v: Json)
  {
    exists filters: int, namespaces: map<string, Json> ::
      && 2 <= filters <= 4096 && namespaces.Keys == {"user", "mnt", "pid", "ipc", "net", "cgroup"}
      && (forall name :: name in namespaces ==> NamesNamespace(namespaces[name], name))
      && v == ReportOf(filters, namespaces)
  }

  function ReportOf(filters: int, namespaces: map<string, Json>): Json
  {
    JObject(map[
      "uid" := JInt(65532), "gid" := JInt(65532), "pid" := JInt(1), "no_new_privs" := JInt(1), "seccomp_mode" := JInt(2),
      "uid_map" := JArray([JInt(65532), JInt(65532), JInt(1)]), "gid_map" := JArray([JInt(65532), JInt(65532), JInt(1)]),
      "setgroups" := JString("deny"),
      "capabilities" := JObject(map[
        "CapInh" := JString("0000000000000000"), "CapPrm" := JString("0000000000000000"),
        "CapEff" := JString("0000000000000000"), "CapBnd" := JString("0000000000000000"),
        "CapAmb" := JString("0000000000000000")]),
      "seccomp_filters" := JInt(filters), "namespaces" := JObject(namespaces)])
  }

  lemma NamespaceReads(name: string, v: Json)
    requires NamespaceText(name, v)
    ensures NamesNamespace(v, name)
  {
    var digits := v.text[|name| + 2..|v.text| - 1];
    assert v.text == v.text[..|name| + 2] + digits + [v.text[|v.text| - 1]];
    assert v.text == name + ":[" + digits + "]";
    forall c | c in digits ensures '0' <= c <= '9' {
      var i :| 0 <= i < |digits| && digits[i] == c;
      assert v.text[|name| + 2 + i] == c;
    }
  }

  lemma NamespaceWrites(name: string, v: Json, digits: string)
    requires v == JString(name + ":[" + digits + "]") && 1 <= |digits| <= 20 && forall c :: c in digits ==> '0' <= c <= '9'
    ensures NamespaceText(name, v)
  {
    var head := name + ":[";
    assert v.text == head + digits + "]" && |head| == |name| + 2;
    assert v.text[..|name| + 2] == head;
    forall i | |name| + 2 <= i < |v.text| - 1 ensures '0' <= v.text[i] <= '9' {
      assert v.text[i] == digits[i - |head|] && digits[i - |head|] in digits;
    }
  }

  lemma NamespaceIs(name: string, v: Json)
    ensures NamespaceText(name, v) <==> NamesNamespace(v, name)
  {
    if NamespaceText(name, v) {
      NamespaceReads(name, v);
    }
    if NamesNamespace(v, name) {
      var digits: string :| v == JString(name + ":[" + digits + "]") && 1 <= |digits| <= 20 && forall c :: c in digits ==> '0' <= c <= '9';
      NamespaceWrites(name, v, digits);
    }
  }

  lemma CapabilitiesAre()
    ensures (map name | name in CAPABILITY_SETS :: JString("0000000000000000")) == map[
      "CapInh" := JString("0000000000000000"), "CapPrm" := JString("0000000000000000"),
      "CapEff" := JString("0000000000000000"), "CapBnd" := JString("0000000000000000"),
      "CapAmb" := JString("0000000000000000")]
  {
  }

  lemma RuntimeIsReport(v: Json)
    requires RuntimeOk(v)
    ensures v == ReportOf(v.fields["seccomp_filters"].number, v.fields["namespaces"].fields)
  {
    CapabilitiesAre();
    assert v.fields == ReportOf(v.fields["seccomp_filters"].number, v.fields["namespaces"].fields).fields;
  }

  /** The operator goes on exactly with a report of a confined process. */
  lemma RuntimeExactly(v: Json)
    ensures RuntimeOk(v) <==> Confined(v)
  {
    if RuntimeOk(v) {
      RuntimeIsReport(v);
      forall name | name in NAMESPACES ensures NamesNamespace(v.fields["namespaces"].fields[name], name) {
        NamespaceIs(name, v.fields["namespaces"].fields[name]);
      }
      assert NAMESPACES == {"user", "mnt", "pid", "ipc", "net", "cgroup"};
    }
    if Confined(v) {
      ConfinedIsOk(v);
    }
  }

  predicate Reports(frame: Json, report: Json)
  {
    frame == JObject(map["operation" := JString("ready"), "runtime" := report])
  }

  lemma ReportsIs(frame: Json, report: Json)
    ensures Reports(frame, report) <==>
      && frame.JObject? && frame.fields.Keys == {"operation", "runtime"}
      && frame.fields["operation"] == JString("ready") && frame.fields["runtime"] == report
  {
    if frame.JObject? && frame.fields.Keys == {"operation", "runtime"} && frame.fields["operation"] == JString("ready")
      && frame.fields["runtime"] == report
    {
      assert frame.fields == map["operation" := JString("ready"), "runtime" := report];
    }
  }

  /** And its greeting is answered exactly if it is a ready frame with such a report. */
  lemma ReadyExactly(frame: Json)
    ensures ReadyOk(frame) <==> exists report :: Reports(frame, report) && Confined(report)
  {
    forall report: Json ensures RuntimeOk(report) <==> Confined(report) { RuntimeExactly(report); }
    if frame.JObject? && frame.fields.Keys == {"operation", "runtime"} { ReportsIs(frame, frame.fields["runtime"]); }
    forall report | Reports(frame, report)
      ensures frame.JObject? && frame.fields.Keys == {"operation", "runtime"}
      ensures frame.fields["operation"] == JString("ready") && frame.fields["runtime"] == report
    {
      ReportsIs(frame, report);
    }
  }

  lemma ReportFields(filters: int, namespaces: map<string, Json>)
    ensures var fields := ReportOf(filters, namespaces).fields;
      && fields.Keys == {
           "uid", "gid", "pid", "uid_map", "gid_map", "setgroups", "capabilities",
           "no_new_privs", "seccomp_mode", "seccomp_filters", "namespaces"}
      && fields["uid"] == JInt(65532) && fields["gid"] == JInt(65532) && fields["pid"] == JInt(1)
      && fields["no_new_privs"] == JInt(1) && fields["seccomp_mode"] == JInt(2)
      && fields["uid_map"] == JArray([JInt(65532), JInt(65532), JInt(1)])
      && fields["gid_map"] == JArray([JInt(65532), JInt(65532), JInt(1)])
      && fields["setgroups"] == JString("deny")
      && fields["capabilities"] == JObject(map name | name in CAPABILITY_SETS :: JString("0000000000000000"))
      && fields["seccomp_filters"] == JInt(filters) && fields["namespaces"] == JObject(namespaces)
  {
    CapabilitiesAre();
  }

  lemma ConfinedIsOk(v: Json)
    requires Confined(v)
    ensures RuntimeOk(v)
  {
    var filters: int, namespaces: map<string, Json> :|
      && 2 <= filters <= 4096 && namespaces.Keys == {"user", "mnt", "pid", "ipc", "net", "cgroup"}
      && (forall name :: name in namespaces ==> NamesNamespace(namespaces[name], name))
      && v == ReportOf(filters, namespaces);
    ReportFields(filters, namespaces);
    forall name | name in namespaces ensures NamespaceText(name, namespaces[name]) {
      NamespaceIs(name, namespaces[name]);
    }
  }
}
