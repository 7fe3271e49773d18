/** be/src/utils/validator.js: the `validate({ body, params, query })`
    middleware. A zod schema is modelled by its `parse`, a parameter that
    either returns the parsed value, throws a ZodError with its issues, or
    throws something else. */
module Validator {
  import opened Common
  import opened Http

  datatype ParseResult = Parsed(value: Json) | ZodFailure(issues: Json) | OtherFailure(e: Thrown)

  datatype Schema = Schema(parse: Json -> ParseResult)

  /** The argument handed to `validate`: an object whose `body`, `params`
      and `query` keys may hold schemas, or a bare `z.object(...)`, which has
      none of those keys. */
  datatype ValidateArg =
    | Keyed(body: Option<Schema>, params: Option<Schema>, query: Option<Schema>)
    | BareZodObject(schema: Schema)

  /** The schemas the destructuring `{ body, params, query }` finds. */
  function Keys(arg: ValidateArg): (r: (Option<Schema>, Option<Schema>, Option<Schema>))
    ensures arg.BareZodObject? ==> r == (None, None, None)
    ensures arg.Keyed? ==> r == (arg.body, arg.params, arg.query)
  {
    match arg
    case Keyed(b, p, q) => (b, p, q)
    case BareZodObject(_) => (None, None, None)
  }

  /** The request fields `validate` reads and rewrites. */
  datatype Fields = Fields(body: Json, params: Json, query: Json)

  /** What one `parse` step does to the flow after an earlier step succeeded. */
  function Step(s: Option<Schema>, v: Json): (r: (Option<Flow>, Json))
    ensures s.None? ==> r == (None, v)
    ensures s.Some? && s.value.parse(v).Parsed? ==> r == (None, s.value.parse(v).value)
    ensures s.Some? && s.value.parse(v).ZodFailure? ==>
              r.0 == Some(Halt(Response(400, ValidationErrorBody(s.value.parse(v).issues)))) && r.1 == v
    ensures s.Some? && s.value.parse(v).OtherFailure? ==>
              r.0 == Some(NextWithError(s.value.parse(v).e)) && r.1 == v
  {
    if s.None? then (None, v)
    else
      match s.value.parse(v)
      case Parsed(w) => (None, w)
      case ZodFailure(issues) => (Some(Halt(Response(400, ValidationErrorBody(issues)))), v)
      case OtherFailure(e) => (Some(NextWithError(e)), v)
  }

  /** A field passes its key when the key is absent or its schema parses it. */
  predicate Passes(s: Option<Schema>, v: Json) {
    s.None? || s.value.parse(v).Parsed?
  }

  /** The value a passing field holds afterwards. */
  function ParsedValue(s: Option<Schema>, v: Json): Json
    requires Passes(s, v)
  {
    if s.None? then v else s.value.parse(v).value
  }

  /** How a failed `parse` ends the middleware: 400 with the issues for a
      ZodError, `next(e)` for anything else. */
  function Failure(pr: ParseResult): (flow: Flow)
    requires !pr.Parsed?
    ensures pr.ZodFailure? ==> flow == Halt(Response(400, ValidationErrorBody(pr.issues)))
    ensures pr.OtherFailure? ==> flow == NextWithError(pr.e)
  {
    if pr.ZodFailure? then Halt(Response(400, ValidationErrorBody(pr.issues))) else NextWithError(pr.e)
  }

  /** The middleware's effect: body, then params, then query are parsed in
      turn; the first failure stops the chain, and fields parsed before it
      keep their new values. */
  function ValidateSpec(arg: ValidateArg, f: Fields): (r: (Flow, Fields))
    ensures Keys(arg).0.None? ==> r.1.body == f.body
    ensures Keys(arg).1.None? ==> r.1.params == f.params
    ensures Keys(arg).2.None? ==> r.1.query == f.query
    ensures r.0.Halt? ==> r.0.resp.status == 400 && r.0.resp.body.ValidationErrorBody?
    ensures r.0 == Next <==>
              (Keys(arg).0.None? || Keys(arg).0.value.parse(f.body).Parsed?)
              && (Keys(arg).1.None? || Keys(arg).1.value.parse(f.params).Parsed?)
              && (Keys(arg).2.None? || Keys(arg).2.value.parse(f.query).Parsed?)
    ensures var (b, p, q) := Keys(arg);
            !Passes(b, f.body) ==> r == (Failure(b.value.parse(f.body)), f)
    ensures var (b, p, q) := Keys(arg);
            Passes(b, f.body) && !Passes(p, f.params) ==>
              r == (Failure(p.value.parse(f.params)), f.(body := ParsedValue(b, f.body)))
    ensures var (b, p, q) := Keys(arg);
            Passes(b, f.body) && Passes(p, f.params) && !Passes(q, f.query) ==>
              r == (Failure(q.value.parse(f.query)),
                    f.(body := ParsedValue(b, f.body), params := ParsedValue(p, f.params)))
    ensures var (b, p, q) := Keys(arg);
            Passes(b, f.body) && Passes(p, f.params) && Passes(q, f.query) ==>
              r == (Next, Fields(ParsedValue(b, f.body), ParsedValue(p, f.params), ParsedValue(q, f.query)))
  {
    var (b, p, q) := Keys(arg);
    var (stop1, body) := Step(b, f.body);
    if stop1.Some? then (stop1.value, f.(body := body))
    else
      var (stop2, params) := Step(p, f.params);
      if stop2.Some? then (stop2.value, f.(body := body, params := params))
      else
        var (stop3, query) := Step(q, f.query);
        if stop3.Some? then (stop3.value, Fields(body, params, query))
        else (Next, Fields(body, params, query))
  }

  /** A bare `z.object` validates nothing: the request goes on unchanged. */
  lemma BareObjectValidatesNothing(s: Schema, f: Fields)
    ensures ValidateSpec(BareZodObject(s), f) == (Next, f)
  {
  }

  /** `validate(arg)` applied to a request. */
  method Validate(req: Request, arg: ValidateArg) returns (flow: Flow)
    modifies req`body, req`params, req`query
    ensures (flow, Fields(req.body, req.params, req.query))
            == ValidateSpec(arg, Fields(old(req.body), old(req.params), old(req.query)))
  {
    var (body, params, query) := Keys(arg);
    if body.Some? {
      var r := body.value.parse(req.body);
      if r.ZodFailure? {
        return Halt(Response(400, ValidationErrorBody(r.issues)));
      } else if r.OtherFailure? {
        return NextWithError(r.e);
      }
      req.body := r.value;
    }
    if params.Some? {
      var r := params.value.parse(req.params);
      if r.ZodFailure? {
        return Halt(Response(400, ValidationErrorBody(r.issues)));
      } else if r.OtherFailure? {
        return NextWithError(r.e);
      }
      req.params := r.value;
    }
    if query.Some? {
      var r := query.value.parse(req.query);
      if r.ZodFailure? {
        return Halt(Response(400, ValidationErrorBody(r.issues)));
      } else if r.OtherFailure? {
        return NextWithError(r.e);
      }
      req.query := r.value;
    }
    flow := Next;
  }
}
