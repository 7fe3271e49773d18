/** be/src/routes/auth.js, mounted at /auth: registration with a duplicate
    check, login over active users, and `/me`. `bcrypt.hash` is represented
    by its output (it is salted), `bcrypt.compare` and `jwt.sign` are
    parameters. */
module AuthRoutes {
  import opened Common
  import opened Entities
  import opened Http
  import opened AuthMiddleware
  import opened Validator
  import opened Store

  /** The role every new account receives. */
  const DefaultRoleId: int := 1

  /** `SELECT id FROM users WHERE email = ? OR username = ?` with the
      username bound to `username ?? ""`; a NULL username matches nothing. */
  predicate Clashes(u: User, email: string, username: Option<string>) {
    u.email == email || u.username == Some(username.GetOr(""))
  }

  predicate Duplicate(db: Db, email: string, username: Option<string>) {
    exists id :: id in db.users.rows && Clashes(db.users.rows[id], email, username)
  }

  /** `POST /auth/register`. */
  function RegisterSpec(db: Db, displayName: string, email: string, passwordHash: string,
                        username: Option<string>): (o: Outcome)
    ensures Duplicate(db, email, username) ==>
              o == Outcome(db, Response(409, ErrorBody("Email/username already used")))
    ensures !Duplicate(db, email, username) ==>
              var id := db.users.next;
              && o.db == db.(users := o.db.users)
              && o.db.users.rows == db.users.rows[id := User(displayName, email, passwordHash, username, DefaultRoleId, true)]
              && o.db.users.next == id + 1
              && o.resp == Response(201, RegisteredBody(id, displayName, email))
    ensures Valid(db) ==> Valid(o.db)
  {
    if Duplicate(db, email, username) then
      Outcome(db, Response(409, ErrorBody("Email/username already used")))
    else
      var id := db.users.next;
      var users := db.users.Insert(User(displayName, email, passwordHash, username, DefaultRoleId, true));
      Outcome(db.(users := users), Response(201, RegisteredBody(id, displayName, email)))
  }

  /** Registering the same email a second time is refused and stores nothing. */
  lemma RegisterTwiceConflicts(db: Db, displayName: string, email: string, h1: string, h2: string,
                               u1: Option<string>, u2: Option<string>)
    requires !Duplicate(db, email, u1)
    ensures var db1 := RegisterSpec(db, displayName, email, h1, u1).db;
            RegisterSpec(db1, displayName, email, h2, u2) == Outcome(db1, Response(409, ErrorBody("Email/username already used")))
  {
    var db1 := RegisterSpec(db, displayName, email, h1, u1).db;
    assert Clashes(db1.users.rows[db.users.next], email, u2);
  }

  /** `... JOIN roles r ON r.id = u.role_id WHERE u.email = ? AND u.is_active = 1`. */
  predicate LoginCandidate(db: Db, email: string, u: User) {
    u.email == email && u.active && u.roleId in db.roles
  }

  /** `rows[0]`: the first matching user in id order, if any. */
  function LoginRow(db: Db, email: string): (r: Option<int>)
    ensures r.Some? ==> r.value in db.users.rows && LoginCandidate(db, email, db.users.rows[r.value])
    ensures Valid(db) && r.None? ==> forall id :: id in db.users.rows ==> !LoginCandidate(db, email, db.users.rows[id])
  {
    var ids := Select(db.users, (id: int, u: User) => LoginCandidate(db, email, u));
    if ids == [] then None
    else
      assert ids[0] in db.users.rows && LoginCandidate(db, email, db.users.rows[ids[0]]);
      Some(ids[0])
  }

  const InvalidCredentials: Response := Response(401, ErrorBody("Invalid credentials"))

  /** `POST /auth/login`: 401 "Invalid credentials" both for an unknown or
      inactive email and for a wrong password; otherwise a token signed over
      `{ sub: id, role, email }`. Login reads and changes nothing. */
  function LoginSpec(db: Db, email: string, password: string,
                     compare: (string, string) -> bool, sign: Claims -> string): (r: Response)
    ensures LoginRow(db, email).None? ==> r == InvalidCredentials
    ensures LoginRow(db, email).Some? ==>
              var id := LoginRow(db, email).value;
              var u := db.users.rows[id];
              && (!compare(password, u.passwordHash) ==> r == InvalidCredentials)
              && (compare(password, u.passwordHash) ==>
                    r == Response(200, LoginBody(sign(Claims(id, db.roles[u.roleId], u.email)),
                                                 id, u.displayName, db.roles[u.roleId])))
    ensures r.status == 200 ==> exists id :: id in db.users.rows && db.users.rows[id].active && db.users.rows[id].email == email
  {
    var row := LoginRow(db, email);
    if row.None? then InvalidCredentials
    else
      var u := db.users.rows[row.value];
      if !compare(password, u.passwordHash) then InvalidCredentials
      else
        var role := db.roles[u.roleId];
        Response(200, LoginBody(sign(Claims(row.value, role, u.email)), row.value, u.displayName, role))
  }

  /** `GET /auth/me`: the caller's own row with its role name, or nothing
      when the row is gone (`res.json(undefined)`). */
  function MeSpec(db: Db, user: Option<Principal>): (r: Response)
    ensures user.None? ==> r == Unauthorized
    ensures user.Some? ==>
              && r.status == 200 && r.body.MeBody?
              && (r.body.row.Some? <==> RoleOf(db, user.value.id).Some?)
              && (r.body.row.Some? ==>
                    r.body.row.value.id == user.value.id
                    && r.body.row.value.displayName == db.users.rows[user.value.id].displayName
                    && r.body.row.value.email == db.users.rows[user.value.id].email
                    && r.body.row.value.role == RoleOf(db, user.value.id).value)
  {
    if user.None? then Unauthorized
    else
      var id := user.value.id;
      match RoleOf(db, id)
      case None => Response(200, MeBody(None))
      case Some(role) =>
        var u := db.users.rows[id];
        Response(200, MeBody(Some(MeRow(id, u.displayName, u.email, role))))
  }

  method RegisterRoute(f: Forum, req: Request, schema: Schema, displayName: string, email: string,
                       passwordHash: string, username: Option<string>)
    returns (resp: Response)
    modifies f, req`body, req`params, req`query
    ensures Outcome(f.Tables(), resp) == RegisterSpec(old(f.Tables()), displayName, email, passwordHash, username)
    ensures req.body == old(req.body) && req.params == old(req.params) && req.query == old(req.query)
  {
    var flow := Validate(req, BareZodObject(schema));
    BareObjectValidatesNothing(schema, Fields(old(req.body), old(req.params), old(req.query)));
    if Duplicate(f.Tables(), email, username) {
      return Response(409, ErrorBody("Email/username already used"));
    }
    var id := f.users.next;
    f.users := f.users.Insert(User(displayName, email, passwordHash, username, DefaultRoleId, true));
    resp := Response(201, RegisteredBody(id, displayName, email));
  }

  method LoginRoute(f: Forum, req: Request, schema: Schema, email: string, password: string,
                    compare: (string, string) -> bool, sign: Claims -> string)
    returns (resp: Response)
    modifies req`body, req`params, req`query
    ensures resp == LoginSpec(f.Tables(), email, password, compare, sign)
    ensures req.body == old(req.body) && req.params == old(req.params) && req.query == old(req.query)
  {
    var flow := Validate(req, BareZodObject(schema));
    BareObjectValidatesNothing(schema, Fields(old(req.body), old(req.params), old(req.query)));
    var row := LoginRow(f.Tables(), email);
    if row.None? {
      return InvalidCredentials;
    }
    var u := f.users.rows[row.value];
    if !compare(password, u.passwordHash) {
      return InvalidCredentials;
    }
    var role := f.roles[u.roleId];
    var token := sign(Claims(row.value, role, u.email));
    resp := Response(200, LoginBody(token, row.value, u.displayName, role));
  }

  method MeRoute(f: Forum, req: Request, verify: string -> Option<Claims>) returns (resp: Response)
    modifies req`user
    ensures resp == MeSpec(f.Tables(), RequestPrincipal(req, verify))
  {
    var flow := RequireAuth(req, verify);
    if flow.Halt? {
      return flow.resp;
    }
    resp := MeSpec(f.Tables(), req.user);
  }
}
