/** The collection routes under src/app/api: `GET` lists the rows, `POST`
    validates the JSON body against a schema, stores the row and answers 201;
    a body the schema rejects gets 400 and any other failure 500. The
    persistence call is opaque: it is given as the outcome it would have. */
module Api {
  import opened Seqs

  /** A top-level value of a parsed JSON object, as far as the schemas look
      at it: a string, a boolean, or anything else (numbers, `null`, arrays,
      objects). */
  datatype Field = FString(s: string) | FBool(b: bool) | FOther

  /** The request body: not JSON at all, JSON that is not an object, or an
      object. */
  datatype Body = Malformed | NonObject | Object(fields: map<string, Field>)

  /** What the persistence layer does with a query: the row(s), or a thrown
      error. */
  datatype Stored<R> = Stored(row: R) | StoreFailed

  /** `NextResponse.json({ success, data | error }, { status })`. */
  datatype Response<T> = Response(status: int, success: bool, data: Option<T>, error: Option<string>)

  /** The creator recorded for every new row until sessions are wired in. */
  const TempUserId := "temp-user-id"

  /** `z.string()`: present and a string. */
  function RequiredString(f: map<string, Field>, key: string): (r: Option<string>)
    ensures r.Some? <==> key in f && f[key].FString?
    ensures r.Some? ==> r.value == f[key].s
  {
    if key in f && f[key].FString? then Some(f[key].s) else None
  }

  /** `z.string().optional()`: valid when absent (giving no value) or a
      string; `None` means the field is invalid. */
  function OptionalString(f: map<string, Field>, key: string): (r: Option<Option<string>>)
    ensures r.None? <==> key in f && !f[key].FString?
    ensures r == Some(None) <==> key !in f
    ensures key in f && f[key].FString? ==> r == Some(Some(f[key].s))
  {
    if key !in f then Some(None)
    else if f[key].FString? then Some(Some(f[key].s))
    else None
  }

  /** `z.boolean().default(d)`. */
  function BooleanOr(f: map<string, Field>, key: string, d: bool): (r: Option<bool>)
    ensures r.None? <==> key in f && !f[key].FBool?
    ensures key !in f ==> r == Some(d)
    ensures key in f && f[key].FBool? ==> r == Some(f[key].b)
  {
    if key !in f then Some(d)
    else if f[key].FBool? then Some(f[key].b)
    else None
  }

  /** `z.string().default(d)`. */
  function StringOr(f: map<string, Field>, key: string, d: string): (r: Option<string>)
    ensures r.None? <==> key in f && !f[key].FString?
    ensures key !in f ==> r == Some(d)
    ensures key in f && f[key].FString? ==> r == Some(f[key].s)
  {
    if key !in f then Some(d)
    else if f[key].FString? then Some(f[key].s)
    else None
  }

  /** `.min(lo).max(hi)` on a string's length. */
  predicate LengthWithin(s: string, lo: nat, hi: nat)
  {
    lo <= |s| <= hi
  }

  /** An optional string within `.max(hi)` when present. */
  predicate OptionalWithin(s: Option<string>, hi: nat)
  {
    s.Some? ==> |s.value| <= hi
  }

  /** The `POST` handler's answer. The body is read, then validated by
      `parse` (`None` is a schema error); a valid input is stored through
      `store`. Failing to read the body is not a schema error. */
  function Post<D, R>(body: Body, parse: map<string, Field> -> Option<D>, store: D -> Stored<R>,
                      invalidMessage: string, failedMessage: string): (r: Response<R>)
    ensures r.success <==> r.status == 201
    ensures r.status == 201 <==> body.Object? && parse(body.fields).Some? && store(parse(body.fields).value).Stored?
    ensures r.status == 201 ==> r.data == Some(store(parse(body.fields).value).row) && r.error.None?
    ensures r.status == 400 <==> body.NonObject? || (body.Object? && parse(body.fields).None?)
    ensures r.status == 400 ==> r.data.None? && r.error == Some(invalidMessage)
    ensures r.status != 201 && r.status != 400 ==> r.status == 500 && r.data.None? && r.error == Some(failedMessage)
  {
    match body
    case Malformed => Response(500, false, None, Some(failedMessage))
    case NonObject => Response(400, false, None, Some(invalidMessage))
    case Object(f) =>
      match parse(f)
      case None => Response(400, false, None, Some(invalidMessage))
      case Some(d) =>
        match store(d)
        case Stored(row) => Response(201, true, Some(row), None)
        case StoreFailed => Response(500, false, None, Some(failedMessage))
  }

  /** The `GET` handler's answer: 200 with the rows, or 500 with the message. */
  function Get<R>(rows: Stored<seq<R>>, failedMessage: string): (r: Response<seq<R>>)
    ensures r.success <==> rows.Stored?
    ensures rows.Stored? ==> r.status == 200 && r.data == Some(rows.row) && r.error.None?
    ensures rows.StoreFailed? ==> r.status == 500 && r.data.None? && r.error == Some(failedMessage)
  {
    match rows
    case Stored(v) => Response(200, true, Some(v), None)
    case StoreFailed => Response(500, false, None, Some(failedMessage))
  }

  /** Every answer is one of four statuses, and `success` is the 2xx ones. */
  lemma StatusesAreKnown<D, R>(body: Body, parse: map<string, Field> -> Option<D>, store: D -> Stored<R>,
                               invalidMessage: string, failedMessage: string)
    ensures var r := Post(body, parse, store, invalidMessage, failedMessage);
      r.status in {201, 400, 500} && (r.success <==> r.data.Some?)
  {
  }

  /** The persistence call as the routes make it. They import the default
      export of src/lib/db.ts as `prisma` and read `prisma.designSystem` or
      `prisma.project` on it, but that object has neither member: reading
      `findMany` or `create` on `undefined` throws a `TypeError` inside the
      `try`, so every call fails. */
  function MissingDelegate<D, R>(d: D): Stored<R>
  {
    StoreFailed
  }
}

module DesignSystemsRoute {
  import opened Seqs
  import opened Api

  /** The input of `designSystemSchema`, defaults applied. */
  datatype DesignSystemInput = DesignSystemInput(
    name: string, description: Option<string>, teamId: Option<string>,
    isPublic: bool, version: string, projectId: string)

  /** The row data passed to the persistence layer. */
  datatype CreateData = CreateData(input: DesignSystemInput, createdById: string)

  const DefaultVersion := "1.0.0"
  const InvalidData := "Invalid design system data"
  const CreateFailed := "Failed to create design system"
  const FetchFailed := "Failed to fetch design systems"

  /** The schema's constraints on a parsed input. */
  predicate Acceptable(i: DesignSystemInput)
  {
    LengthWithin(i.name, 1, 100) && OptionalWithin(i.description, 500)
  }

  /** `designSystemSchema.parse(body)`: `None` is a `ZodError`. Keys the
      schema does not name are ignored. */
  function Parse(f: map<string, Field>): (r: Option<DesignSystemInput>)
    ensures r.Some? ==> Acceptable(r.value)
    ensures r.None? <==>
      || RequiredString(f, "name").None? || RequiredString(f, "projectId").None?
      || OptionalString(f, "description").None? || OptionalString(f, "teamId").None?
      || BooleanOr(f, "isPublic", false).None? || StringOr(f, "version", DefaultVersion).None?
      || !LengthWithin(f["name"].s, 1, 100) || !OptionalWithin(OptionalString(f, "description").value, 500)
    ensures r.Some? ==> (RequiredString(f, "name") == Some(r.value.name)
                         && RequiredString(f, "projectId") == Some(r.value.projectId))
    ensures r.Some? ==> (OptionalString(f, "description") == Some(r.value.description)
                         && OptionalString(f, "teamId") == Some(r.value.teamId))
    ensures r.Some? ==> (BooleanOr(f, "isPublic", false) == Some(r.value.isPublic)
                         && StringOr(f, "version", DefaultVersion) == Some(r.value.version))
  {
    var name := RequiredString(f, "name");
    var description := OptionalString(f, "description");
    var teamId := OptionalString(f, "teamId");
    var isPublic := BooleanOr(f, "isPublic", false);
    var version := StringOr(f, "version", DefaultVersion);
    var projectId := RequiredString(f, "projectId");
    if name.Some? && description.Some? && teamId.Some? && isPublic.Some? && version.Some? && projectId.Some?
       && LengthWithin(name.value, 1, 100) && OptionalWithin(description.value, 500)
    then Some(DesignSystemInput(name.value, description.value, teamId.value, isPublic.value, version.value, projectId.value))
    else None
  }

  /** The JSON object a client sends for an input: optional fields that are
      absent are left out. */
  function Encode(i: DesignSystemInput): map<string, Field>
  {
    var base := map["name" := FString(i.name), "isPublic" := FBool(i.isPublic),
                    "version" := FString(i.version), "projectId" := FString(i.projectId)];
    var withDescription := if i.description.Some? then base["description" := FString(i.description.value)] else base;
    if i.teamId.Some? then withDescription["teamId" := FString(i.teamId.value)] else withDescription
  }

  /** The schema accepts exactly the inputs meeting its constraints, and
      gives back what was sent. */
  lemma ParseEncode(i: DesignSystemInput)
    ensures Parse(Encode(i)) == (if Acceptable(i) then Some(i) else None)
  {
  }

  /** Only `name` and `projectId` are required; `isPublic` defaults to false
      and `version` to "1.0.0". */
  lemma ParseDefaults(name: string, projectId: string)
    requires LengthWithin(name, 1, 100)
    ensures Parse(map["name" := FString(name), "projectId" := FString(projectId)])
         == Some(DesignSystemInput(name, None, None, false, DefaultVersion, projectId))
  {
  }

  /** A key the schema does not name does not change the outcome. */
  lemma ParseIgnoresUnknownKeys(f: map<string, Field>, key: string, v: Field)
    requires key !in {"name", "description", "teamId", "isPublic", "version", "projectId"}
    ensures Parse(f[key := v]) == Parse(f)
  {
    assert forall k :: k in {"name", "description", "teamId", "isPublic", "version", "projectId"} ==>
      (k in f[key := v] <==> k in f) && (k in f ==> f[key := v][k] == f[k]);
  }

  /** `POST /api/design-systems`: a valid input is stored with the fixed
      creator id; 201 with the row, 400 "Invalid design system data" for a
      schema error, 500 "Failed to create design system" otherwise. */
  function Create<R>(body: Body, store: CreateData -> Stored<R>): (r: Response<R>)
    ensures r.success <==> r.status == 201
    ensures r.status == 201 <==>
      body.Object? && Parse(body.fields).Some? && store(CreateData(Parse(body.fields).value, TempUserId)).Stored?
    ensures r.status == 201 ==> r.data == Some(store(CreateData(Parse(body.fields).value, TempUserId)).row)
    ensures r.status == 400 <==> body.NonObject? || (body.Object? && Parse(body.fields).None?)
    ensures r.status == 400 ==> r.error == Some("Invalid design system data")
    ensures r.status != 201 && r.status != 400 ==> r.status == 500 && r.error == Some("Failed to create design system")
  {
    Post(body, Parse, (i: DesignSystemInput) => store(CreateData(i, TempUserId)), InvalidData, CreateFailed)
  }

  /** A body that is not JSON is answered 500, not 400: only schema errors
      count as invalid data. */
  lemma MalformedBodyIsServerError<R>(store: CreateData -> Stored<R>)
    ensures Create(Malformed, store) == Response(500, false, None, Some(CreateFailed))
  {
  }

  /** `GET /api/design-systems`. */
  function List<R>(rows: Stored<seq<R>>): (r: Response<seq<R>>)
    ensures rows.Stored? <==> r.status == 200
    ensures rows.Stored? ==> r.data == Some(rows.row)
    ensures rows.StoreFailed? ==> r.status == 500 && r.error == Some("Failed to fetch design systems")
  {
    Get(rows, FetchFailed)
  }

  /** `POST /api/design-systems` as written: the store call always throws,
      so nothing is ever created; a schema error still gets 400 and every
      other body, valid ones included, 500. */
  function CreateAsWritten<R>(body: Body): (r: Response<R>)
    ensures !r.success && r.status != 201 && r.data.None?
    ensures r.status == 400 <==> body.NonObject? || (body.Object? && Parse(body.fields).None?)
    ensures r.status != 400 ==> r.status == 500 && r.error == Some("Failed to create design system")
  {
    Create(body, MissingDelegate)
  }

  /** `GET /api/design-systems` as written: always 500. */
  function ListAsWritten<R>(): (r: Response<seq<R>>)
    ensures r.status == 500 && !r.success && r.error == Some("Failed to fetch design systems")
  {
    List(MissingDelegate(()))
  }

  /** A valid body that the intended handler stores and answers 201 is
      answered 500 as written. */
  lemma AsWrittenRejectsValidBody<R>(row: R)
    ensures var body := Object(map["name" := FString("Kit"), "projectId" := FString("p1")]);
      && Create(body, (d: CreateData) => Stored(row)).status == 201
      && CreateAsWritten<R>(body).status == 500
  {
    ParseDefaults("Kit", "p1");
  }
}

module ProjectsRoute {
  import opened Seqs
  import opened Api

  /** The input of `projectSchema`. */
  datatype ProjectInput = ProjectInput(name: string, description: Option<string>, teamId: Option<string>)

  datatype CreateData = CreateData(input: ProjectInput, createdById: string)

  const InvalidData := "Invalid project data"
  const CreateFailed := "Failed to create project"
  const FetchFailed := "Failed to fetch projects"

  predicate Acceptable(i: ProjectInput)
  {
    LengthWithin(i.name, 1, 100) && OptionalWithin(i.description, 500)
  }

  /** `projectSchema.parse(body)`. */
  function Parse(f: map<string, Field>): (r: Option<ProjectInput>)
    ensures r.Some? ==> Acceptable(r.value)
    ensures r.None? <==>
      || RequiredString(f, "name").None? || OptionalString(f, "description").None? || OptionalString(f, "teamId").None?
      || !LengthWithin(f["name"].s, 1, 100) || !OptionalWithin(OptionalString(f, "description").value, 500)
    ensures r.Some? ==> RequiredString(f, "name") == Some(r.value.name)
    ensures r.Some? ==> (OptionalString(f, "description") == Some(r.value.description)
                         && OptionalString(f, "teamId") == Some(r.value.teamId))
  {
    var name := RequiredString(f, "name");
    var description := OptionalString(f, "description");
    var teamId := OptionalString(f, "teamId");
    if name.Some? && description.Some? && teamId.Some?
       && LengthWithin(name.value, 1, 100) && OptionalWithin(description.value, 500)
    then Some(ProjectInput(name.value, description.value, teamId.value))
    else None
  }

  function Encode(i: ProjectInput): map<string, Field>
  {
    var base := map["name" := FString(i.name)];
    var withDescription := if i.description.Some? then base["description" := FString(i.description.value)] else base;
    if i.teamId.Some? then withDescription["teamId" := FString(i.teamId.value)] else withDescription
  }

  lemma ParseEncode(i: ProjectInput)
    ensures Parse(Encode(i)) == (if Acceptable(i) then Some(i) else None)
  {
  }

  /** A name outside 1..100 characters is rejected whatever else is sent. */
  lemma NameOutOfRangeRejected(f: map<string, Field>)
    requires "name" in f && f["name"].FString? && !LengthWithin(f["name"].s, 1, 100)
    ensures Parse(f).None?
  {
  }

  /** `POST /api/projects`. */
  function Create<R>(body: Body, store: CreateData -> Stored<R>): (r: Response<R>)
    ensures r.success <==> r.status == 201
    ensures r.status == 201 <==>
      body.Object? && Parse(body.fields).Some? && store(CreateData(Parse(body.fields).value, TempUserId)).Stored?
    ensures r.status == 201 ==> r.data == Some(store(CreateData(Parse(body.fields).value, TempUserId)).row)
    ensures r.status == 400 <==> body.NonObject? || (body.Object? && Parse(body.fields).None?)
    ensures r.status == 400 ==> r.error == Some("Invalid project data")
    ensures r.status != 201 && r.status != 400 ==> r.status == 500 && r.error == Some("Failed to create project")
  {
    Post(body, Parse, (i: ProjectInput) => store(CreateData(i, TempUserId)), InvalidData, CreateFailed)
  }

  /** `GET /api/projects`. */
  function List<R>(rows: Stored<seq<R>>): (r: Response<seq<R>>)
    ensures rows.Stored? <==> r.status == 200
    ensures rows.Stored? ==> r.data == Some(rows.row)
    ensures rows.StoreFailed? ==> r.status == 500 && r.error == Some("Failed to fetch projects")
  {
    Get(rows, FetchFailed)
  }

  /** `POST /api/projects` as written: the store call always throws. */
  function CreateAsWritten<R>(body: Body): (r: Response<R>)
    ensures !r.success && r.status != 201 && r.data.None?
    ensures r.status == 400 <==> body.NonObject? || (body.Object? && Parse(body.fields).None?)
    ensures r.status != 400 ==> r.status == 500 && r.error == Some("Failed to create project")
  {
    Create(body, MissingDelegate)
  }

  /** `GET /api/projects` as written: always 500. */
  function ListAsWritten<R>(): (r: Response<seq<R>>)
    ensures r.status == 500 && !r.success && r.error == Some("Failed to fetch projects")
  {
    List(MissingDelegate(()))
  }

  /** A valid body that the intended handler stores and answers 201 is
      answered 500 as written. */
  lemma AsWrittenRejectsValidBody<R>(row: R)
    ensures var body := Object(map["name" := FString("Default Project")]);
      && Create(body, (d: CreateData) => Stored(row)).status == 201
      && CreateAsWritten<R>(body).status == 500
  {
    assert Parse(map["name" := FString("Default Project")]).Some?;
  }
}
