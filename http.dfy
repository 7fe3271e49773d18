/** The HTTP surface of the backend: who the caller is (`req.user`), the
    request object the middlewares change in place, the JSON bodies the
    handlers send, and the generic error handler of be/src/index.js that
    turns a thrown error into a response. */
module Http {
  import opened Common
  import opened Entities

  /** `req.user` as the auth middleware sets it from a verified token. */
  datatype Principal = Principal(id: int, role: string, email: string)

  /** The JWT payload `/auth/login` signs: `{ sub, role, email }`. */
  datatype Claims = Claims(sub: int, role: string, email: string)

  /** A JSON value, as `req.body`, `req.params` and `req.query` hold them. */
  datatype Json =
    | JNull
    | JBool(b: bool)
    | JNum(n: int)
    | JStr(s: string)
    | JArr(items: seq<Json>)
    | JObj(fields: seq<(string, Json)>)

  /** The rows the read queries return, one datatype per SELECT list. */
  datatype MeRow = MeRow(id: int, displayName: string, email: string, role: string)

  datatype IdeaDetail = IdeaDetail(id: int, idea: Idea, author: string,
                                   totalLikes: nat, totalComments: nat, liked: bool)

  datatype IdeaListRow = IdeaListRow(id: int, title: string, slug: string, createdAt: int,
                                     author: string, category: Option<string>,
                                     totalLikes: nat, totalComments: nat, likes7d: nat)

  datatype UserIdeaRow = UserIdeaRow(id: int, title: string, slug: string, createdAt: int,
                                     totalLikes: nat, totalComments: nat)

  datatype CommentView = CommentView(id: int, content: string, createdAt: int,
                                     userId: int, displayName: string)

  datatype ReportView = ReportView(id: int, report: Report, reporterName: string)

  datatype LogView = LogView(id: int, log: LogRow, actorName: string)

  /** The JSON bodies the handlers send. */
  datatype Payload =
    | ErrorBody(error: string)                 // { error }
    | ValidationErrorBody(details: Json)       // { error: "Validation failed", details }
    | ZodErrorBody                             // { error: <a ZodError's message> }
    | DriverErrorBody                          // { error: <the database driver's message> }
    | OkBody                                   // { ok: true }
    | LikeBody(liked: bool, likes: nat)
    | RegisteredBody(id: int, displayName: string, email: string)
    | LoginBody(accessToken: string, id: int, displayName: string, role: string)
    | MeBody(row: Option<MeRow>)               // `res.json(rows[0])`, possibly undefined
    | IdeaBody(ideaId: int, idea: Idea)        // `SELECT * FROM ideas WHERE id = ?`
    | IdeaDetailBody(detail: IdeaDetail)
    | IdeaListBody(ideas: seq<IdeaListRow>)
    | UserIdeasBody(userIdeas: seq<UserIdeaRow>)
    | CommentBody(commentId: int, comment: Comment)
    | CommentListBody(comments: seq<CommentView>)
    | CategoryBody(name: string, slug: string)
    | CategoryListBody(categories: seq<(int, Category)>)
    | ReportPageBody(reports: seq<ReportView>, page: int, limit: int, total: nat)
    | LogPageBody(logs: seq<LogView>, page: int, limit: int, total: nat)

  datatype Response = Response(status: int, body: Payload)

  /** What a handler leaves behind: the tables after it and its response. */
  datatype Outcome = Outcome(db: Db, resp: Response)

  /** An error thrown inside a handler and passed to `next(e)`: one built with
      `Object.assign(new Error(message), { status })`, a ZodError from a
      direct `schema.parse`, or a database driver error (no status). */
  datatype Thrown =
    | WithStatus(status: int, message: string)
    | ZodThrown
    | DriverThrown

  /** The final error handler: `err.status || 500` and
      `err.message || "Internal Server Error"`. */
  function HandleError(e: Thrown): (r: Response)
    ensures r.status != 0
    ensures e.WithStatus? && e.status != 0 ==> r.status == e.status
    ensures !e.WithStatus? || e.status == 0 ==> r.status == 500
    ensures e.WithStatus? && e.message != "" ==> r.body == ErrorBody(e.message)
    ensures e.WithStatus? && e.message == "" ==> r.body == ErrorBody("Internal Server Error")
  {
    match e
    case WithStatus(s, m) =>
      Response(if s != 0 then s else 500, ErrorBody(if m != "" then m else "Internal Server Error"))
    case ZodThrown => Response(500, ZodErrorBody)
    case DriverThrown => Response(500, DriverErrorBody)
  }

  /** The express request as the middlewares see it. `authorization` is the
      Authorization header and `cookieToken` the `access_token` cookie. */
  class Request {
    var authorization: Option<string>
    var cookieToken: Option<string>
    var user: Option<Principal>
    var body: Json
    var params: Json
    var query: Json

    constructor (authorization: Option<string>, cookieToken: Option<string>,
                 body: Json, params: Json, query: Json)
      ensures this.authorization == authorization && this.cookieToken == cookieToken
      ensures this.user == None
      ensures this.body == body && this.params == params && this.query == query
    {
      this.authorization := authorization;
      this.cookieToken := cookieToken;
      this.user := None;
      this.body := body;
      this.params := params;
      this.query := query;
    }
  }

  /** What a middleware does with the request: call `next()`, call
      `next(e)`, or answer itself. */
  datatype Flow = Next | NextWithError(e: Thrown) | Halt(resp: Response)
}
