/** be/src/routes/likes.js, mounted at /likes: liking and unliking ideas and
    comments. A like is a (target id, user id) row; `INSERT IGNORE` makes a
    like insert-if-absent and the delete removes only the caller's row. */
module Likes {
  import opened Common
  import opened Entities
  import opened Http
  import opened AuthMiddleware
  import opened Store

  // ---------------------------------------------------------------------
  // Ideas

  /** `POST /likes/ideas/:id`. */
  function LikeIdeaSpec(db: Db, user: Option<Principal>, ideaId: int): (o: Outcome)
    ensures user.None? ==> o == Outcome(db, Unauthorized)
    ensures user.Some? && ideaId !in db.ideas.rows ==>
              o == Outcome(db, Response(404, ErrorBody("Idea not found")))
    ensures user.Some? && ideaId in db.ideas.rows ==>
              var pair := (ideaId, user.value.id);
              && o.db == db.(ideaLikes := o.db.ideaLikes)
              && pair in o.db.ideaLikes
              && o.db.ideaLikes - {pair} == db.ideaLikes - {pair}
              && o.resp == Response(201, LikeBody(true, LikeCount(o.db.ideaLikes, ideaId)))
              && o.resp.body.likes == LikeCount(db.ideaLikes, ideaId) + (if pair in db.ideaLikes then 0 else 1)
    ensures Valid(db) ==> Valid(o.db)
  {
    if user.None? then Outcome(db, Unauthorized)
    else if ideaId !in db.ideas.rows then Outcome(db, Response(404, ErrorBody("Idea not found")))
    else
      var likes := db.ideaLikes + {(ideaId, user.value.id)};
      LikeCountInsert(db.ideaLikes, ideaId, user.value.id, ideaId);
      Outcome(db.(ideaLikes := likes), Response(201, LikeBody(true, LikeCount(likes, ideaId))))
  }

  /** `DELETE /likes/ideas/:id`: no existence check. */
  function UnlikeIdeaSpec(db: Db, user: Option<Principal>, ideaId: int): (o: Outcome)
    ensures user.None? ==> o == Outcome(db, Unauthorized)
    ensures user.Some? ==>
              var pair := (ideaId, user.value.id);
              && o.db == db.(ideaLikes := db.ideaLikes - {pair})
              && o.resp == Response(200, LikeBody(false, LikeCount(o.db.ideaLikes, ideaId)))
              && o.resp.body.likes == LikeCount(db.ideaLikes, ideaId) - (if pair in db.ideaLikes then 1 else 0)
    ensures Valid(db) ==> Valid(o.db)
  {
    if user.None? then Outcome(db, Unauthorized)
    else
      var likes := db.ideaLikes - {(ideaId, user.value.id)};
      LikeCountRemove(db.ideaLikes, ideaId, user.value.id, ideaId);
      Outcome(db.(ideaLikes := likes), Response(200, LikeBody(false, LikeCount(likes, ideaId))))
  }

  // ---------------------------------------------------------------------
  // Comments

  /** `POST /likes/comments/:id`. */
  function LikeCommentSpec(db: Db, user: Option<Principal>, commentId: int): (o: Outcome)
    ensures user.None? ==> o == Outcome(db, Unauthorized)
    ensures user.Some? && commentId !in db.comments.rows ==>
              o == Outcome(db, Response(404, ErrorBody("Comment not found")))
    ensures user.Some? && commentId in db.comments.rows ==>
              var pair := (commentId, user.value.id);
              && o.db == db.(commentLikes := o.db.commentLikes)
              && pair in o.db.commentLikes
              && o.db.commentLikes - {pair} == db.commentLikes - {pair}
              && o.resp == Response(201, LikeBody(true, LikeCount(o.db.commentLikes, commentId)))
              && o.resp.body.likes == LikeCount(db.commentLikes, commentId) + (if pair in db.commentLikes then 0 else 1)
    ensures o.db.ideaLikes == db.ideaLikes
    ensures Valid(db) ==> Valid(o.db)
  {
    if user.None? then Outcome(db, Unauthorized)
    else if commentId !in db.comments.rows then Outcome(db, Response(404, ErrorBody("Comment not found")))
    else
      var likes := db.commentLikes + {(commentId, user.value.id)};
      LikeCountInsert(db.commentLikes, commentId, user.value.id, commentId);
      Outcome(db.(commentLikes := likes), Response(201, LikeBody(true, LikeCount(likes, commentId))))
  }

  /** `DELETE /likes/comments/:id`: no existence check. */
  function UnlikeCommentSpec(db: Db, user: Option<Principal>, commentId: int): (o: Outcome)
    ensures user.None? ==> o == Outcome(db, Unauthorized)
    ensures user.Some? ==>
              var pair := (commentId, user.value.id);
              && o.db == db.(commentLikes := db.commentLikes - {pair})
              && o.resp == Response(200, LikeBody(false, LikeCount(o.db.commentLikes, commentId)))
              && o.resp.body.likes == LikeCount(db.commentLikes, commentId) - (if pair in db.commentLikes then 1 else 0)
    ensures o.db.ideaLikes == db.ideaLikes
    ensures Valid(db) ==> Valid(o.db)
  {
    if user.None? then Outcome(db, Unauthorized)
    else
      var likes := db.commentLikes - {(commentId, user.value.id)};
      LikeCountRemove(db.commentLikes, commentId, user.value.id, commentId);
      Outcome(db.(commentLikes := likes), Response(200, LikeBody(false, LikeCount(likes, commentId))))
  }

  // ---------------------------------------------------------------------
  // Properties across calls

  /** Liking twice answers and stores what liking once does. */
  lemma LikeIdeaIdempotent(db: Db, user: Option<Principal>, ideaId: int)
    ensures LikeIdeaSpec(LikeIdeaSpec(db, user, ideaId).db, user, ideaId) == LikeIdeaSpec(db, user, ideaId)
  {
    if user.Some? && ideaId in db.ideas.rows {
      var once := LikeIdeaSpec(db, user, ideaId).db;
      assert once.ideaLikes + {(ideaId, user.value.id)} == once.ideaLikes;
    }
  }

  /** A user who had not liked an idea, liking then unliking it, leaves the
      like table and the idea's count as they were. */
  lemma LikeThenUnlikeRestores(db: Db, user: Principal, ideaId: int)
    requires ideaId in db.ideas.rows && (ideaId, user.id) !in db.ideaLikes
    ensures UnlikeIdeaSpec(LikeIdeaSpec(db, Some(user), ideaId).db, Some(user), ideaId).db == db
    ensures UnlikeIdeaSpec(LikeIdeaSpec(db, Some(user), ideaId).db, Some(user), ideaId).resp
            == Response(200, LikeBody(false, LikeCount(db.ideaLikes, ideaId)))
  {
    var pair := (ideaId, user.id);
    assert db.ideaLikes + {pair} - {pair} == db.ideaLikes;
  }

  /** Liking one idea leaves every other idea's count. */
  lemma LikeIdeaLeavesOtherCounts(db: Db, user: Principal, ideaId: int, other: int)
    requires other != ideaId
    ensures LikeCount(LikeIdeaSpec(db, Some(user), ideaId).db.ideaLikes, other) == LikeCount(db.ideaLikes, other)
  {
    LikeCountInsert(db.ideaLikes, ideaId, user.id, other);
  }

  /** Liking a comment never changes any idea's like count. */
  lemma CommentLikeLeavesIdeaCounts(db: Db, user: Option<Principal>, commentId: int, ideaId: int)
    ensures LikeCount(LikeCommentSpec(db, user, commentId).db.ideaLikes, ideaId) == LikeCount(db.ideaLikes, ideaId)
    ensures LikeCount(UnlikeCommentSpec(db, user, commentId).db.ideaLikes, ideaId) == LikeCount(db.ideaLikes, ideaId)
  {
  }

  // ---------------------------------------------------------------------
  // The handlers on the store

  method PostIdeaLike(f: Forum, req: Request, verify: string -> Option<Claims>, ideaId: int)
    returns (resp: Response)
    modifies f, req`user
    ensures Outcome(f.Tables(), resp) == LikeIdeaSpec(old(f.Tables()), RequestPrincipal(req, verify), ideaId)
  {
    var flow := RequireAuth(req, verify);
    if flow.Halt? {
      return flow.resp;
    }
    var userId := req.user.value.id;
    if ideaId !in f.ideas.rows {
      return Response(404, ErrorBody("Idea not found"));
    }
    f.ideaLikes := f.ideaLikes + {(ideaId, userId)};
    var likes := LikeCount(f.ideaLikes, ideaId);
    resp := Response(201, LikeBody(true, likes));
  }

  method DeleteIdeaLike(f: Forum, req: Request, verify: string -> Option<Claims>, ideaId: int)
    returns (resp: Response)
    modifies f, req`user
    ensures Outcome(f.Tables(), resp) == UnlikeIdeaSpec(old(f.Tables()), RequestPrincipal(req, verify), ideaId)
  {
    var flow := RequireAuth(req, verify);
    if flow.Halt? {
      return flow.resp;
    }
    var userId := req.user.value.id;
    f.ideaLikes := f.ideaLikes - {(ideaId, userId)};
    var likes := LikeCount(f.ideaLikes, ideaId);
    resp := Response(200, LikeBody(false, likes));
  }

  method PostCommentLike(f: Forum, req: Request, verify: string -> Option<Claims>, commentId: int)
    returns (resp: Response)
    modifies f, req`user
    ensures Outcome(f.Tables(), resp) == LikeCommentSpec(old(f.Tables()), RequestPrincipal(req, verify), commentId)
  {
    var flow := RequireAuth(req, verify);
    if flow.Halt? {
      return flow.resp;
    }
    var userId := req.user.value.id;
    if commentId !in f.comments.rows {
      return Response(404, ErrorBody("Comment not found"));
    }
    f.commentLikes := f.commentLikes + {(commentId, userId)};
    var likes := LikeCount(f.commentLikes, commentId);
    resp := Response(201, LikeBody(true, likes));
  }

  method DeleteCommentLike(f: Forum, req: Request, verify: string -> Option<Claims>, commentId: int)
    returns (resp: Response)
    modifies f, req`user
    ensures Outcome(f.Tables(), resp) == UnlikeCommentSpec(old(f.Tables()), RequestPrincipal(req, verify), commentId)
  {
    var flow := RequireAuth(req, verify);
    if flow.Halt? {
      return flow.resp;
    }
    var userId := req.user.value.id;
    f.commentLikes := f.commentLikes - {(commentId, userId)};
    var likes := LikeCount(f.commentLikes, commentId);
    resp := Response(200, LikeBody(false, likes));
  }
}
