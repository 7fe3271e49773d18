/** be/src/middlewares/auth.js: extracting the token from the request,
    `requireAuth` (answer 401 unless a token verifies) and `maybeAuth` (set
    `req.user` when a token verifies, always continue). `jwt.verify` is a
    parameter returning `None` where it throws. The role gate of the
    `rbac.js` middleware, which is imported but not part of this model, is
    here as an assumption: it lets a user through when their role is one of
    the allowed ones and answers 403 otherwise. */
module AuthMiddleware {
  import opened Common
  import opened Http

  const BearerPrefix: string := "Bearer "

  const Unauthorized: Response := Response(401, ErrorBody("Unauthorized"))

  const Forbidden: Response := Response(403, ErrorBody("Forbidden"))

  /** `getToken(req)`. A header starting with "Bearer " wins over the
      cookie; an empty or missing header counts as absent. */
  function GetToken(authorization: Option<string>, cookieToken: Option<string>): (r: Option<string>)
    ensures BearerPrefix <= authorization.GetOr("") ==>
              r == Some(authorization.value[|BearerPrefix|..])
    ensures !(BearerPrefix <= authorization.GetOr("")) && TruthyStr(cookieToken) ==> r == cookieToken
    ensures !(BearerPrefix <= authorization.GetOr("")) && !TruthyStr(cookieToken) ==> r == None
  {
    var h := OrElse(authorization, Some("")).value;
    if BearerPrefix <= h then Some(h[|BearerPrefix|..])
    else if TruthyStr(cookieToken) then cookieToken
    else None
  }

  /** The token written by a client as `Bearer <t>` is what the server reads
      back, whatever the cookie holds. */
  lemma BearerRoundTrip(t: string, cookieToken: Option<string>)
    ensures GetToken(Some(BearerPrefix + t), cookieToken) == Some(t)
  {
    var h := BearerPrefix + t;
    assert h[..|BearerPrefix|] == BearerPrefix;
    assert h[|BearerPrefix|..] == t;
  }

  /** The principal a verified token yields: `{ id: sub, role, email }`;
      `None` for a missing or empty token or one `verify` rejects. */
  function Authenticate(token: Option<string>, verify: string -> Option<Claims>): (r: Option<Principal>)
    ensures r.Some? <==> TruthyStr(token) && verify(token.value).Some?
    ensures r.Some? ==>
              var c := verify(token.value).value;
              r.value.id == c.sub && r.value.role == c.role && r.value.email == c.email
  {
    if TruthyStr(token) then
      match verify(token.value)
      case Some(c) => Some(Principal(c.sub, c.role, c.email))
      case None => None
    else None
  }

  /** The principal the request's own credentials yield. */
  function RequestPrincipal(req: Request, verify: string -> Option<Claims>): Option<Principal>
    reads req`authorization, req`cookieToken
  {
    Authenticate(GetToken(req.authorization, req.cookieToken), verify)
  }

  /** `requireAuth`: continue with `req.user` set, or answer 401 and leave
      `req.user` as it was. */
  method RequireAuth(req: Request, verify: string -> Option<Claims>) returns (flow: Flow)
    modifies req`user
    ensures RequestPrincipal(req, verify).None? ==> flow == Halt(Unauthorized) && req.user == old(req.user)
    ensures RequestPrincipal(req, verify).Some? ==> flow == Next && req.user == RequestPrincipal(req, verify)
  {
    var token := GetToken(req.authorization, req.cookieToken);
    if !TruthyStr(token) {
      return Halt(Unauthorized);
    }
    var payload := verify(token.value);
    if payload.None? {
      return Halt(Unauthorized);
    }
    req.user := Some(Principal(payload.value.sub, payload.value.role, payload.value.email));
    flow := Next;
  }

  /** `maybeAuth`: always continue; set `req.user` only for a token that
      verifies. */
  method MaybeAuth(req: Request, verify: string -> Option<Claims>) returns (flow: Flow)
    modifies req`user
    ensures flow == Next
    ensures RequestPrincipal(req, verify).Some? ==> req.user == RequestPrincipal(req, verify)
    ensures RequestPrincipal(req, verify).None? ==> req.user == old(req.user)
  {
    var token := GetToken(req.authorization, req.cookieToken);
    if TruthyStr(token) {
      var payload := verify(token.value);
      if payload.Some? {
        req.user := Some(Principal(payload.value.sub, payload.value.role, payload.value.email));
      }
    }
    flow := Next;
  }

  /** `requireRole(...allowed)` (assumed): `None` lets the request through. */
  function RoleGate(user: Principal, allowed: seq<string>): (r: Option<Response>)
    ensures r.None? <==> user.role in allowed
    ensures r.Some? ==> r.value.status == 403
  {
    if user.role in allowed then None else Some(Forbidden)
  }

  const Staff: seq<string> := ["admin", "moderator"]

  /** `["admin", "moderator"].includes(req.user.role)`. */
  predicate IsStaff(user: Principal) {
    user.role in Staff
  }
}
