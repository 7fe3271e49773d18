/** Properties that run across the route modules: what a moderation action
    does to what logging in, the idea list, the idea page and the comment
    list answer afterwards, and how the token `/auth/login` signs is the
    one the auth middleware accepts. */
module Scenarios {
  import opened Common
  import opened Entities
  import opened Http
  import opened AuthMiddleware
  import AuthRoutes
  import Ideas
  import Comments
  import Admin

  /** Once the only account with an email is banned, logging in with that
      email answers 401 "Invalid credentials" whatever the password. */
  lemma BannedUserCannotLogIn(db: Db, staff: Principal, target: int, reason: Option<string>, now: int,
                              password: string, compare: (string, string) -> bool, sign: Claims -> string)
    requires Valid(db) && IsStaff(staff) && target in db.users.rows
    requires reason.None? || |reason.value| <= Admin.MaxReasonLength
    requires forall id :: id in db.users.rows && db.users.rows[id].email == db.users.rows[target].email ==> id == target
    ensures var db1 := Admin.ModerateSpec(db, Some(staff), Admin.UserKind, target, Some("ban_user"), reason, now).db;
            AuthRoutes.LoginSpec(db1, db.users.rows[target].email, password, compare, sign) == AuthRoutes.InvalidCredentials
  {
    var db1 := Admin.ModerateSpec(db, Some(staff), Admin.UserKind, target, Some("ban_user"), reason, now).db;
    var email := db.users.rows[target].email;
    assert db1.users.rows == db.users.rows[target := db.users.rows[target].(active := false)];
    forall id | id in db1.users.rows ensures !AuthRoutes.LoginCandidate(db1, email, db1.users.rows[id]) {
      if id != target {
        assert db1.users.rows[id] == db.users.rows[id];
      }
    }
  }

  /** Unbanning gives the account back: the ban and unban pair leaves the
      users table as it was when the account was active. */
  lemma UnbanRestoresAccount(db: Db, staff: Principal, target: int, now: int)
    requires IsStaff(staff) && target in db.users.rows && db.users.rows[target].active
    ensures var db1 := Admin.ModerateSpec(db, Some(staff), Admin.UserKind, target, Some("ban_user"), None, now).db;
            var db2 := Admin.ModerateSpec(db1, Some(staff), Admin.UserKind, target, Some("unban_user"), None, now).db;
            db2.users == db.users && |db2.logs| == |db.logs| + 2
  {
    var db1 := Admin.ModerateSpec(db, Some(staff), Admin.UserKind, target, Some("ban_user"), None, now).db;
    assert db1.users.rows[target].(active := true) == db.users.rows[target];
    assert db1.users.rows[target := db.users.rows[target]] == db.users.rows;
  }

  /** A hidden comment leaves the idea's comment list at once. */
  lemma HiddenCommentLeavesList(db: Db, staff: Principal, commentId: int, ideaId: int, reason: Option<string>, now: int)
    requires IsStaff(staff) && commentId in db.comments.rows
    requires reason.None? || |reason.value| <= Admin.MaxReasonLength
    ensures var db1 := Admin.ModerateSpec(db, Some(staff), Admin.CommentKind, commentId, Some("hide_comment"), reason, now).db;
            forall v :: v in Comments.ListCommentsSpec(db1, ideaId).body.comments ==> v.id != commentId
  {
    var db1 := Admin.ModerateSpec(db, Some(staff), Admin.CommentKind, commentId, Some("hide_comment"), reason, now).db;
    Comments.HiddenCommentNotListed(db1, ideaId, commentId);
  }

  /** No row of the idea list is an idea that is not published. */
  lemma UnpublishedNotListed(db: Db, id: int, lq: Ideas.ListQuery, hits: set<int>, recent: map<int, nat>)
    requires id in db.ideas.rows && db.ideas.rows[id].status != Published
    ensures var r := Ideas.ListIdeasSpec(db, lq, hits, recent);
            r.status == 200 ==> forall v :: v in r.body.ideas ==> v.id != id
  {
    var r := Ideas.ListIdeasSpec(db, lq, hits, recent);
    if r.status == 200 {
      var w := Ideas.ListWindow(lq);
      var ids := Ideas.ListSlice(db, lq, hits, recent, w.0, w.1);
      forall v | v in r.body.ideas ensures v.id != id {
        var k :| 0 <= k < |r.body.ideas| && r.body.ideas[k] == v;
        assert Ideas.ListedIdea(db, lq, hits, ids[k]);
      }
    }
  }

  /** A hidden idea is gone from `GET /ideas` but `GET /ideas/:id` still
      shows it: the detail query does not filter on status. */
  lemma HiddenIdeaOffListOnDetail(db: Db, staff: Principal, id: int, now: int,
                                  lq: Ideas.ListQuery, hits: set<int>, recent: map<int, nat>, viewer: Option<Principal>)
    requires IsStaff(staff) && id >= 0 && Ideas.HasAuthor(db, id)
    ensures var db1 := Admin.ModerateSpec(db, Some(staff), Admin.IdeaKind, id, Some("hide_idea"), None, now).db;
            var r := Ideas.ListIdeasSpec(db1, lq, hits, recent);
            && (r.status == 200 ==> forall v :: v in r.body.ideas ==> v.id != id)
            && Ideas.DetailSpec(db1, viewer, NatToString(id)).status == 200
  {
    var db1 := Admin.ModerateSpec(db, Some(staff), Admin.IdeaKind, id, Some("hide_idea"), None, now).db;
    assert db1.ideas.rows[id].status == Hidden;
    UnpublishedNotListed(db1, id, lq, hits, recent);
    ParseNatToString(id);
    assert Ideas.HasAuthor(db1, id);
  }

  /** A failed moderation writes nothing, the log included: the
      transaction's rollback. */
  lemma FailedModerationWritesNothing(db: Db, staff: Principal, kind: Admin.Kind, id: int,
                                      action: string, reason: Option<string>, now: int)
    requires IsStaff(staff) && Admin.BodyParses(kind, Some(action), reason) && Admin.Apply(db, action, id).None?
    ensures Admin.ModerateSpec(db, Some(staff), kind, id, Some(action), reason, now)
            == Outcome(db, Response(404, ErrorBody(Admin.NotFoundMessage(kind))))
  {
  }

  /** When `verify` accepts what `sign` signs, the access token a login
      returns, sent back as `Bearer <token>`, authenticates as the user who
      logged in, with their role. */
  lemma LoginTokenAuthenticates(db: Db, email: string, password: string, compare: (string, string) -> bool,
                                sign: Claims -> string, verify: string -> Option<Claims>, cookie: Option<string>)
    requires forall c :: verify(sign(c)) == Some(c)
    requires forall c :: sign(c) != ""
    requires AuthRoutes.LoginSpec(db, email, password, compare, sign).status == 200
    ensures var b := AuthRoutes.LoginSpec(db, email, password, compare, sign).body;
            Authenticate(GetToken(Some(BearerPrefix + b.accessToken), cookie), verify)
            == Some(Principal(b.id, b.role, email))
  {
    var b := AuthRoutes.LoginSpec(db, email, password, compare, sign).body;
    BearerRoundTrip(b.accessToken, cookie);
    var id := AuthRoutes.LoginRow(db, email).value;
    var u := db.users.rows[id];
    assert b.accessToken == sign(Claims(id, db.roles[u.roleId], u.email));
  }
}
