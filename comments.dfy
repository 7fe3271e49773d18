/** be/src/routes/comments.js, mounted at /ideas: the public list of an
    idea's visible comments, oldest first, and creating a comment. */
module Comments {
  import opened Common
  import opened Entities
  import opened Http
  import opened AuthMiddleware
  import opened Validator
  import opened Sorting
  import opened Store

  /** The list's `WHERE c.idea_id = ? AND c.status = 'visible'` and its
      `JOIN users`. */
  predicate Listed(db: Db, ideaId: int, id: int) {
    && id in db.comments.rows
    && db.comments.rows[id].idea == ideaId
    && db.comments.rows[id].status == Visible
    && db.comments.rows[id].author in db.users.rows
  }

  predicate KeptComment(db: Db, ideaId: int, c: Comment) {
    c.idea == ideaId && c.status == Visible && c.author in db.users.rows
  }

  /** `ORDER BY c.created_at ASC`. */
  function CreatedAtKey(db: Db): int -> seq<int> {
    (id: int) => if id in db.comments.rows then [db.comments.rows[id].createdAt] else []
  }

  /** The ids the list query returns, in order. */
  function ListedIds(db: Db, ideaId: int): (r: seq<int>)
    ensures SortedBy(r, CreatedAtKey(db))
  {
    SortBy(Select(db.comments, (id: int, c: Comment) => KeptComment(db, ideaId, c)), CreatedAtKey(db))
  }

  /** Every listed id is a visible comment of the idea by an existing user,
      and (for ids the counter handed out) every such comment is listed. */
  lemma ListedIdsExact(db: Db, ideaId: int)
    ensures forall k :: 0 <= k < |ListedIds(db, ideaId)| ==> Listed(db, ideaId, ListedIds(db, ideaId)[k])
    ensures Valid(db) ==> forall id :: Listed(db, ideaId, id) ==> id in ListedIds(db, ideaId)
  {
    var ids := Select(db.comments, (id: int, c: Comment) => KeptComment(db, ideaId, c));
    var r := ListedIds(db, ideaId);
    SortByMembers(ids, CreatedAtKey(db));
    assert forall k :: 0 <= k < |r| ==> r[k] in ids;
  }

  /** One row: `c.id, c.content, c.created_at, u.id AS user_id, u.display_name`. */
  function ViewOf(db: Db, id: int): (v: CommentView)
    requires id in db.comments.rows && db.comments.rows[id].author in db.users.rows
    ensures v.id == id && v.userId == db.comments.rows[id].author
  {
    var c := db.comments.rows[id];
    CommentView(id, c.content, c.createdAt, c.author, db.users.rows[c.author].displayName)
  }

  /** The rows of the listed ids, in their order. */
  function Views(db: Db, ideaId: int, ids: seq<int>): (r: seq<CommentView>)
    requires forall k :: 0 <= k < |ids| ==> Listed(db, ideaId, ids[k])
    ensures |r| == |ids|
    ensures forall k :: 0 <= k < |r| ==> Listed(db, ideaId, ids[k]) && r[k] == ViewOf(db, ids[k])
  {
    if ids == [] then []
    else
      assert Listed(db, ideaId, ids[0]);
      [ViewOf(db, ids[0])] + Views(db, ideaId, ids[1..])
  }

  /** `GET /ideas/:id/comments`: needs no authentication. */
  function ListCommentsSpec(db: Db, ideaId: int): (r: Response)
    ensures r.status == 200 && r.body.CommentListBody?
    ensures |r.body.comments| == |ListedIds(db, ideaId)|
    ensures forall k :: 0 <= k < |r.body.comments| ==>
              Listed(db, ideaId, ListedIds(db, ideaId)[k])
              && r.body.comments[k] == ViewOf(db, ListedIds(db, ideaId)[k])
  {
    var ids := ListedIds(db, ideaId);
    ListedIdsExact(db, ideaId);
    Response(200, CommentListBody(Views(db, ideaId, ids)))
  }

  /** The rows of a list response never include a comment that is not
      visible. */
  lemma HiddenCommentNotListed(db: Db, ideaId: int, commentId: int)
    requires commentId in db.comments.rows && db.comments.rows[commentId].status == HiddenComment
    ensures forall v :: v in ListCommentsSpec(db, ideaId).body.comments ==> v.id != commentId
  {
    var r := ListCommentsSpec(db, ideaId).body.comments;
    forall v | v in r ensures v.id != commentId {
      var k :| 0 <= k < |r| && r[k] == v;
      ListedIdsExact(db, ideaId);
      assert v.id == ListedIds(db, ideaId)[k];
    }
  }

  /** `POST /ideas/:id/comments`: stores `user_id` from the token and
      `parent_id ?? null`, checks neither the idea nor the parent, and
      answers 201 with the stored row. */
  function CreateCommentSpec(db: Db, user: Option<Principal>, ideaId: int, content: string,
                             parentId: Option<int>, now: int): (o: Outcome)
    ensures user.None? ==> o == Outcome(db, Unauthorized)
    ensures user.Some? ==>
              var id := db.comments.next;
              && o.db == db.(comments := o.db.comments)
              && o.db.comments.rows == db.comments.rows[id := Comment(ideaId, user.value.id, parentId, content, Visible, now)]
              && o.db.comments.next == id + 1
              && o.resp == Response(201, CommentBody(id, o.db.comments.rows[id]))
    ensures Valid(db) ==> Valid(o.db) && (user.Some? ==> db.comments.next !in db.comments.rows)
  {
    if user.None? then Outcome(db, Unauthorized)
    else
      var id := db.comments.next;
      var comments := db.comments.Insert(Comment(ideaId, user.value.id, parentId, content, Visible, now));
      Outcome(db.(comments := comments), Response(201, CommentBody(id, comments.rows[id])))
  }

  /** A new comment by an existing user is in its idea's list at once, even
      when the idea does not exist. */
  lemma CreatedCommentIsListed(db: Db, user: Principal, ideaId: int, content: string,
                               parentId: Option<int>, now: int)
    requires Valid(db) && user.id in db.users.rows
    ensures var o := CreateCommentSpec(db, Some(user), ideaId, content, parentId, now);
            o.resp.status == 201 && db.comments.next in ListedIds(o.db, ideaId)
  {
    var o := CreateCommentSpec(db, Some(user), ideaId, content, parentId, now);
    assert Listed(o.db, ideaId, db.comments.next);
    ListedIdsExact(o.db, ideaId);
  }

  method ListCommentsRoute(f: Forum, ideaId: int) returns (resp: Response)
    ensures resp == ListCommentsSpec(f.Tables(), ideaId)
  {
    var db := f.Tables();
    var ids := ListedIds(db, ideaId);
    ListedIdsExact(db, ideaId);
    resp := Response(200, CommentListBody(Views(db, ideaId, ids)));
  }

  method CreateCommentRoute(f: Forum, req: Request, verify: string -> Option<Claims>, createSchema: Schema,
                            ideaId: int, content: string, parentId: Option<int>, now: int)
    returns (resp: Response)
    modifies f, req`user, req`body, req`params, req`query
    ensures Outcome(f.Tables(), resp)
            == CreateCommentSpec(old(f.Tables()), RequestPrincipal(req, verify), ideaId, content, parentId, now)
    ensures req.body == old(req.body) && req.params == old(req.params) && req.query == old(req.query)
  {
    var flow := RequireAuth(req, verify);
    if flow.Halt? {
      return flow.resp;
    }
    flow := Validate(req, BareZodObject(createSchema));
    BareObjectValidatesNothing(createSchema, Fields(old(req.body), old(req.params), old(req.query)));
    var id := f.comments.next;
    f.comments := f.comments.Insert(Comment(ideaId, req.user.value.id, parentId, content, Visible, now));
    resp := Response(201, CommentBody(id, f.comments.rows[id]));
  }
}
