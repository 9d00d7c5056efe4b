/** src/app/api/data/route.ts: the document file behind `GET` and `PUT
    /api/data`. The file system is a `DataFile` value and each step that can
    fail is a boolean parameter; `JSON.stringify` followed by `JSON.parse`
    is taken to give the value back. */
module DataRoute {
  import opened Wrappers
  import opened JsonValues

  /** The shape `PUT` writes: five arrays of unchecked records and the current project. */
  datatype Stored = Stored(
    projects: seq<Json>,
    columns: seq<Json>,
    cards: seq<Json>,
    tasks: seq<Json>,
    notes: seq<Json>,
    currentProjectId: Option<string>)

  /** `DEFAULT_DATA` */
  const DefaultStored := Stored([], [], [], [], [], None)

  /** The six keys of the document. */
  const DocumentKeys: set<string> := {"projects", "columns", "cards", "tasks", "notes", "currentProjectId"}

  /** The five collection keys. */
  const CollectionKeys: set<string> := {"projects", "columns", "cards", "tasks", "notes"}

  /** The document as the JSON object written to the file. */
  function ToJson(s: Stored): (r: Json)
    ensures r.JObj? && r.fields.Keys == DocumentKeys
    ensures r.fields["projects"] == JArr(s.projects) && r.fields["columns"] == JArr(s.columns)
    ensures r.fields["cards"] == JArr(s.cards) && r.fields["tasks"] == JArr(s.tasks)
    ensures r.fields["notes"] == JArr(s.notes)
    ensures r.fields["currentProjectId"] == if s.currentProjectId.Some? then JStr(s.currentProjectId.value) else JNull
  {
    JObj(map[
      "projects" := JArr(s.projects),
      "columns" := JArr(s.columns),
      "cards" := JArr(s.cards),
      "tasks" := JArr(s.tasks),
      "notes" := JArr(s.notes),
      "currentProjectId" := if s.currentProjectId.Some? then JStr(s.currentProjectId.value) else JNull])
  }

  /** `Array.isArray(v) ? v : []` */
  function ArrayOrEmpty(v: Option<Json>): seq<Json> {
    if IsArray(v) then v.value.items else []
  }

  /** `typeof v === 'string' ? v : null` */
  function StringOrNull(v: Option<Json>): Option<string> {
    if IsString(v) then Some(v.value.s) else None
  }

  /** Whether the stored collection is the property when that is an array, and empty otherwise. */
  predicate KeptIfArray(data: Json, key: string, stored: seq<Json>) {
    if IsArray(Prop(data, key)) then Prop(data, key) == Some(JArr(stored)) else stored == []
  }

  /** `validData`, built from a parsed body that is not `null`. */
  function Validate(data: Json): (r: Stored)
    requires !data.JNull?
    ensures KeptIfArray(data, "projects", r.projects) && KeptIfArray(data, "columns", r.columns)
    ensures KeptIfArray(data, "cards", r.cards) && KeptIfArray(data, "tasks", r.tasks)
    ensures KeptIfArray(data, "notes", r.notes)
    ensures IsString(Prop(data, "currentProjectId")) <==> r.currentProjectId.Some?
    ensures r.currentProjectId.Some? ==> Prop(data, "currentProjectId") == Some(JStr(r.currentProjectId.value))
  {
    Stored(
      ArrayOrEmpty(Prop(data, "projects")),
      ArrayOrEmpty(Prop(data, "columns")),
      ArrayOrEmpty(Prop(data, "cards")),
      ArrayOrEmpty(Prop(data, "tasks")),
      ArrayOrEmpty(Prop(data, "notes")),
      StringOrNull(Prop(data, "currentProjectId")))
  }

  /** A well-shaped document passes validation unchanged. */
  lemma ValidateWellShaped(s: Stored)
    ensures Validate(ToJson(s)) == s
  {
    var j := ToJson(s);
    assert Prop(j, "projects") == Some(JArr(s.projects));
    assert Prop(j, "columns") == Some(JArr(s.columns));
    assert Prop(j, "cards") == Some(JArr(s.cards));
    assert Prop(j, "tasks") == Some(JArr(s.tasks));
    assert Prop(j, "notes") == Some(JArr(s.notes));
    assert Prop(j, "currentProjectId") == Some(j.fields["currentProjectId"]);
  }

  /** Validating what validation wrote changes nothing more. */
  lemma ValidateIdempotent(data: Json)
    requires !data.JNull?
    ensures Validate(ToJson(Validate(data))) == Validate(data)
  {
    ValidateWellShaped(Validate(data));
  }

  /** Keys outside the six never reach the file. */
  lemma ValidateDropsOtherKeys(data: Json, key: string)
    requires !data.JNull? && key !in DocumentKeys
    ensures key !in ToJson(Validate(data)).fields
  {
  }

  /** The data file: absent, present but unreadable or not JSON, or holding a value. */
  datatype DataFile = Missing | Corrupt | Holds(content: Json)

  /** `ensureDataFile()`: a missing file is created holding the default
      document when `createOk`; `None` is the rejection when creating fails. */
  function EnsureDataFile(f: DataFile, createOk: bool): (r: Option<DataFile>)
    ensures f.Missing? && !createOk <==> r.None?
    ensures r.Some? && f.Missing? ==> r.value == Holds(ToJson(DefaultStored))
    ensures r.Some? && !f.Missing? ==> r.value == f
  {
    if f.Missing? then (if createOk then Some(Holds(ToJson(DefaultStored))) else None) else Some(f)
  }

  datatype Reply = Reply(status: int, body: Json, file: DataFile)

  /** `GET`: the file's value, or the default document when anything fails. */
  function HandleGet(f: DataFile, createOk: bool): (r: Reply)
    ensures r.status == 200
    ensures f.Holds? ==> r.body == f.content && r.file == f
    ensures f.Corrupt? ==> r.body == ToJson(DefaultStored) && r.file == f
    ensures f.Missing? ==> r.body == ToJson(DefaultStored)
    ensures f.Missing? ==> r.file == if createOk then Holds(ToJson(DefaultStored)) else Missing
  {
    var e := EnsureDataFile(f, createOk);
    if e.None? then Reply(200, ToJson(DefaultStored), f)
    else if e.value.Holds? then Reply(200, e.value.content, e.value)
    else Reply(200, ToJson(DefaultStored), e.value)
  }

  const SaveFailed := "Failed to save data"

  /** `PUT` with a body that parsed to `body` (`None`: `request.json()` rejected).
      `null` throws at the first property access. */
  function HandlePut(body: Option<Json>, f: DataFile, createOk: bool, writeOk: bool): (r: Reply)
    ensures r.status == 200 || r.status == 500
    ensures r.status == 200 <==> body.Some? && !body.value.JNull? && (createOk || !f.Missing?) && writeOk
    ensures r.status == 200 ==>
              r.body == JObj(map["success" := JBool(true)]) && r.file == Holds(ToJson(Validate(body.value)))
    ensures r.status == 500 ==>
              r.body == JObj(map["error" := JStr(SaveFailed)])
              && (r.file == f || (f.Missing? && r.file == Holds(ToJson(DefaultStored))))
  {
    if body.None? || body.value.JNull? then Reply(500, JObj(map["error" := JStr(SaveFailed)]), f)
    else
      var valid := Validate(body.value);
      var e := EnsureDataFile(f, createOk);
      if e.None? then Reply(500, JObj(map["error" := JStr(SaveFailed)]), f)
      else if writeOk then Reply(200, JObj(map["success" := JBool(true)]), Holds(ToJson(valid)))
      else Reply(500, JObj(map["error" := JStr(SaveFailed)]), e.value)
  }

  /** What a successful `PUT` wrote, a later `GET` returns. */
  lemma PutThenGet(body: Option<Json>, f: DataFile, createOk: bool, writeOk: bool, createOk2: bool)
    requires HandlePut(body, f, createOk, writeOk).status == 200
    ensures HandleGet(HandlePut(body, f, createOk, writeOk).file, createOk2).body == ToJson(Validate(body.value))
  {
  }

  /** A first `GET` on a fresh installation creates the file with the default document. */
  lemma FirstGet()
    ensures HandleGet(Missing, true) == Reply(200, ToJson(DefaultStored), Holds(ToJson(DefaultStored)))
  {
  }
}
