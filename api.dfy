/** src/lib/api.ts: the client side of `/api/data`. `fetch` is its outcome:
    a network failure, or a response with a status and a body that did or did
    not parse as JSON. */
module Api {
  import opened Wrappers
  import opened JsonValues
  import opened DataRoute

  datatype FetchOutcome = NetworkError | Response(status: int, body: Option<Json>)

  /** `response.ok` */
  predicate Ok(status: int) {
    200 <= status <= 299
  }

  /** `v ?? d` */
  function OrElse(v: Option<Json>, d: Json): (r: Json)
    ensures IsNullish(v) ==> r == d
    ensures !IsNullish(v) ==> Some(r) == v
  {
    if IsNullish(v) then d else v.value
  }

  /** Whether `loadData` reaches its `return` with this body: the response is
      ok, its body parses, and it is not `null` (whose properties throw). */
  predicate LoadsBody(r: FetchOutcome) {
    r.Response? && Ok(r.status) && r.body.Some? && !r.body.value.JNull?
  }

  /** `loadData()`: the six fields with `??` defaults, or the default document
      on any failure; it never rejects. */
  function LoadData(r: FetchOutcome): (d: Json)
    ensures d.JObj? && d.fields.Keys == DocumentKeys
    ensures !LoadsBody(r) ==> d == ToJson(DefaultStored)
    ensures LoadsBody(r) ==> forall k :: k in CollectionKeys ==>
      d.fields[k] == OrElse(Prop(r.body.value, k), JArr([]))
    ensures LoadsBody(r) ==> d.fields["currentProjectId"] == OrElse(Prop(r.body.value, "currentProjectId"), JNull)
  {
    if !LoadsBody(r) then ToJson(DefaultStored)
    else
      var data := r.body.value;
      JObj(map[
        "projects" := OrElse(Prop(data, "projects"), JArr([])),
        "columns" := OrElse(Prop(data, "columns"), JArr([])),
        "cards" := OrElse(Prop(data, "cards"), JArr([])),
        "tasks" := OrElse(Prop(data, "tasks"), JArr([])),
        "notes" := OrElse(Prop(data, "notes"), JArr([])),
        "currentProjectId" := OrElse(Prop(data, "currentProjectId"), JNull)])
  }

  /** No field of the loaded document is left `undefined` or `null`, except
      the current project. */
  lemma LoadDataDefaults(r: FetchOutcome, k: string)
    requires k in CollectionKeys
    ensures !LoadData(r).fields[k].JNull?
  {
  }

  /** A present collection that is not an array passes through: `??` is not a type check. */
  lemma LoadDataKeepsNonArray()
    ensures LoadData(Response(200, Some(JObj(map["projects" := JNum(5)])))).fields["projects"] == JNum(5)
  {
    var data := JObj(map["projects" := JNum(5)]);
    assert LoadsBody(Response(200, Some(data)));
    assert "projects" in CollectionKeys;
    assert Prop(data, "projects") == Some(JNum(5));
  }

  /** Loading a document the route stored gives that document back. */
  lemma LoadStored(s: Stored, status: int)
    requires Ok(status)
    ensures LoadData(Response(status, Some(ToJson(s)))) == ToJson(s)
  {
    var d := LoadData(Response(status, Some(ToJson(s))));
    var j := ToJson(s);
    assert forall k :: k in DocumentKeys ==> Prop(j, k) == Some(j.fields[k]);
    assert forall k :: k in DocumentKeys ==> d.fields[k] == j.fields[k];
  }

  /** After a successful `PUT`, the next load returns what validation wrote. */
  lemma LoadAfterPut(body: Option<Json>, f: DataFile, createOk: bool, writeOk: bool, createOk2: bool)
    requires HandlePut(body, f, createOk, writeOk).status == 200
    ensures LoadData(Response(200, Some(HandleGet(HandlePut(body, f, createOk, writeOk).file, createOk2).body)))
         == ToJson(Validate(body.value))
  {
    PutThenGet(body, f, createOk, writeOk, createOk2);
    LoadStored(Validate(body.value), 200);
  }

  /** `saveData(data)`: true exactly for an ok response. */
  function SaveData(r: FetchOutcome): (ok: bool)
    ensures ok <==> r.Response? && Ok(r.status)
  {
    r.Response? && Ok(r.status)
  }

  /** `saveData` reports success exactly when the route wrote the validated document. */
  lemma SaveAcknowledged(body: Option<Json>, f: DataFile, createOk: bool, writeOk: bool)
    ensures var p := HandlePut(body, f, createOk, writeOk);
      SaveData(Response(p.status, Some(p.body))) <==> p.status == 200
    ensures var p := HandlePut(body, f, createOk, writeOk);
      SaveData(Response(p.status, Some(p.body))) ==> p.file == Holds(ToJson(Validate(body.value)))
  {
  }
}
