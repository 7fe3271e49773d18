/** be/src/routes/ideas.js, mounted at /ideas: the public list with its
    filters and orders, creating an idea under a unique slug, the detail page
    looked up by id or slug, a user's own ideas, the owner-or-staff PATCH and
    DELETE, and a second pair of like routes. MySQL's full-text `MATCH` is a
    predicate parameter and the 7-day like count an input, as is the clock. */
module Ideas {
  import opened Common
  import opened Entities
  import opened Http
  import opened AuthMiddleware
  import opened Validator
  import opened Sorting
  import opened Slug
  import opened Store
  import Likes

  /** `uniqueIdeaSlug` reads the slug column of the ideas table. */
  function SlugColumn(db: Db): (m: map<int, string>)
    ensures forall id :: id in m <==> id in db.ideas.rows
    ensures forall id :: id in m ==> m[id] == db.ideas.rows[id].slug
  {
    map id | id in db.ideas.rows :: db.ideas.rows[id].slug
  }

  /** The `author` column: the owner's display name through `JOIN users`. */
  predicate HasAuthor(db: Db, id: int) {
    id in db.ideas.rows && db.ideas.rows[id].owner in db.users.rows
  }

  function Author(db: Db, id: int): string
    requires HasAuthor(db, id)
  {
    db.users.rows[db.ideas.rows[id].owner].displayName
  }

  // ---------------------------------------------------------------------
  // GET /ideas

  datatype ListOrder = Newest | Popular7d | PopularAll

  /** The query string of the list: `q`, `categoryId` (already through
      `Number`, `None` when absent or empty), `sort`, `page` and `limit`
      (through `Number`, `None` when absent). */
  datatype ListQuery = ListQuery(q: Option<string>, categoryId: Option<int>, sort: Option<string>,
                                 page: Option<int>, limit: Option<int>)

  /** `sort = "new"` with its two alternatives; any other value orders by date. */
  function OrderOf(sort: Option<string>): (o: ListOrder)
    ensures o == Popular7d <==> sort == Some("popular7d")
    ensures o == PopularAll <==> sort == Some("popularAll")
    ensures sort.None? ==> o == Newest
  {
    var s := sort.GetOr("new");
    if s == "popular7d" then Popular7d else if s == "popularAll" then PopularAll else Newest
  }

  /** The `likes_7d` column: likes of the last seven days, 0 for an idea
      without any. */
  function Recent(recent: map<int, nat>, id: int): nat {
    if id in recent then recent[id] else 0
  }

  /** The `ORDER BY` clause as an ascending key: every column is descending. */
  function Key(db: Db, order: ListOrder, recent: map<int, nat>, id: int): seq<int> {
    if id !in db.ideas.rows then []
    else
      var created: int := db.ideas.rows[id].createdAt;
      match order
      case Newest => [-created]
      case Popular7d => [-(Recent(recent, id) as int), -created]
      case PopularAll => [-(LikeCount(db.ideaLikes, id) as int), -created]
  }

  function OrderKey(db: Db, order: ListOrder, recent: map<int, nat>): int -> seq<int> {
    (id: int) => Key(db, order, recent, id)
  }

  /** The `WHERE` clause: published, in the category when one is given,
      matching the search when it is truthy; `JOIN users` drops ideas whose
      owner is gone. */
  predicate ListedIdea(db: Db, lq: ListQuery, hits: set<int>, id: int) {
    && HasAuthor(db, id)
    && KeptIdea(db, lq, hits, id, db.ideas.rows[id])
  }

  predicate KeptIdea(db: Db, lq: ListQuery, hits: set<int>, id: int, i: Idea) {
    && i.status == Published
    && i.owner in db.users.rows
    && (lq.categoryId.Some? ==> i.category == Some(lq.categoryId.value))
    && (TruthyStr(lq.q) ==> id in hits)
  }

  /** All matching ids in list order, before `LIMIT`/`OFFSET`. */
  function ListedIdeaIds(db: Db, lq: ListQuery, hits: set<int>, recent: map<int, nat>): (r: seq<int>)
    ensures SortedBy(r, OrderKey(db, OrderOf(lq.sort), recent))
  {
    SortBy(Select(db.ideas, (id: int, i: Idea) => KeptIdea(db, lq, hits, id, i)),
           OrderKey(db, OrderOf(lq.sort), recent))
  }

  /** The ordered ids are exactly the matching ideas. */
  lemma ListedIdeaIdsExact(db: Db, lq: ListQuery, hits: set<int>, recent: map<int, nat>)
    ensures forall k :: 0 <= k < |ListedIdeaIds(db, lq, hits, recent)| ==>
              ListedIdea(db, lq, hits, ListedIdeaIds(db, lq, hits, recent)[k])
    ensures Valid(db) ==> forall id :: ListedIdea(db, lq, hits, id) ==> id in ListedIdeaIds(db, lq, hits, recent)
  {
    var ids := Select(db.ideas, (id: int, i: Idea) => KeptIdea(db, lq, hits, id, i));
    var r := ListedIdeaIds(db, lq, hits, recent);
    SortByMembers(ids, OrderKey(db, OrderOf(lq.sort), recent));
    assert forall k :: 0 <= k < |r| ==> r[k] in ids;
  }

  /** The category name through `LEFT JOIN categories`. */
  function CategoryName(db: Db, i: Idea): Option<string> {
    if i.category.Some? && i.category.value in db.categories.rows
    then Some(db.categories.rows[i.category.value].name) else None
  }

  /** One row of the list's SELECT. */
  function ListRow(db: Db, recent: map<int, nat>, id: int): (v: IdeaListRow)
    requires HasAuthor(db, id)
    ensures v.id == id && v.totalLikes == LikeCount(db.ideaLikes, id) && v.likes7d == Recent(recent, id)
  {
    var i := db.ideas.rows[id];
    IdeaListRow(id, i.title, i.slug, i.createdAt, Author(db, id), CategoryName(db, i),
                LikeCount(db.ideaLikes, id), VisibleCommentCount(db.comments.rows, id), Recent(recent, id))
  }

  function ListRows(db: Db, recent: map<int, nat>, ids: seq<int>): (r: seq<IdeaListRow>)
    requires forall k :: 0 <= k < |ids| ==> HasAuthor(db, ids[k])
    ensures |r| == |ids|
    ensures forall k :: 0 <= k < |r| ==> HasAuthor(db, ids[k]) && r[k] == ListRow(db, recent, ids[k])
  {
    if ids == [] then []
    else
      assert HasAuthor(db, ids[0]);
      [ListRow(db, recent, ids[0])] + ListRows(db, recent, ids[1..])
  }

  /** `offset = (Number(page) - 1) * Number(limit)` with `page = 1` and
      `limit = 10` for absent parameters. */
  function ListWindow(lq: ListQuery): (w: (int, int))
    ensures w.0 == lq.limit.GetOr(10) && w.1 == (lq.page.GetOr(1) - 1) * lq.limit.GetOr(10)
    ensures lq.page.None? && lq.limit.None? ==> w == (10, 0)
  {
    var limit := lq.limit.GetOr(10);
    (limit, (lq.page.GetOr(1) - 1) * limit)
  }

  /** The ids of one page of the list, `LIMIT limit OFFSET offset`:
      matching ideas, consecutive in list order from position `offset`. */
  function ListSlice(db: Db, lq: ListQuery, hits: set<int>, recent: map<int, nat>,
                     limit: nat, offset: nat): (r: seq<int>)
    ensures |r| <= limit
    ensures |r| == PageLength(|ListedIdeaIds(db, lq, hits, recent)|, limit, offset)
    ensures forall k :: 0 <= k < |r| ==>
              offset + k < |ListedIdeaIds(db, lq, hits, recent)| && r[k] == ListedIdeaIds(db, lq, hits, recent)[offset + k]
    ensures forall k :: 0 <= k < |r| ==> ListedIdea(db, lq, hits, r[k])
    ensures forall i, j :: 0 <= i < j < |r| ==>
              LexLe(Key(db, OrderOf(lq.sort), recent, r[i]), Key(db, OrderOf(lq.sort), recent, r[j]))
  {
    var ids := ListedIdeaIds(db, lq, hits, recent);
    ListedIdeaIdsExact(db, lq, hits, recent);
    var page := Page(ids, limit, offset);
    assert forall k :: 0 <= k < |page| ==> ListedIdea(db, lq, hits, page[k]);
    forall i, j | 0 <= i < j < |page|
      ensures LexLe(Key(db, OrderOf(lq.sort), recent, page[i]), Key(db, OrderOf(lq.sort), recent, page[j]))
    {
      assert LexLe(OrderKey(db, OrderOf(lq.sort), recent)(ids[offset + i]), OrderKey(db, OrderOf(lq.sort), recent)(ids[offset + j]));
    }
    page
  }

  /** `GET /ideas`: one page of the rows of the matching ideas. A negative
      `LIMIT` or `OFFSET` makes the query fail, which the error handler
      answers with 500. */
  function ListIdeasSpec(db: Db, lq: ListQuery, hits: set<int>, recent: map<int, nat>): (r: Response)
    ensures ListWindow(lq).0 < 0 || ListWindow(lq).1 < 0 <==> r == Response(500, DriverErrorBody)
    ensures !(ListWindow(lq).0 < 0 || ListWindow(lq).1 < 0) ==> r.status == 200
    ensures r.status == 200 ==>
              && r.body.IdeaListBody? && |r.body.ideas| <= ListWindow(lq).0
              && |r.body.ideas| == PageLength(|ListedIdeaIds(db, lq, hits, recent)|, ListWindow(lq).0, ListWindow(lq).1)
              && r.body.ideas == ListRows(db, recent, ListSlice(db, lq, hits, recent, ListWindow(lq).0, ListWindow(lq).1))
  {
    var w := ListWindow(lq);
    if w.0 < 0 || w.1 < 0 then HandleError(DriverThrown)
    else Response(200, IdeaListBody(ListRows(db, recent, ListSlice(db, lq, hits, recent, w.0, w.1))))
  }

  /** What two rows in key order say about their columns. */
  lemma KeyOrder(db: Db, order: ListOrder, recent: map<int, nat>, a: int, b: int)
    requires a in db.ideas.rows && b in db.ideas.rows
    requires LexLe(Key(db, order, recent, a), Key(db, order, recent, b))
    ensures var ca := db.ideas.rows[a].createdAt;
            var cb := db.ideas.rows[b].createdAt;
            && (order == Newest ==> ca >= cb)
            && (order == Popular7d ==> Recent(recent, a) > Recent(recent, b) || (Recent(recent, a) == Recent(recent, b) && ca >= cb))
            && (order == PopularAll ==>
                  LikeCount(db.ideaLikes, a) > LikeCount(db.ideaLikes, b)
                  || (LikeCount(db.ideaLikes, a) == LikeCount(db.ideaLikes, b) && ca >= cb))
  {
    var ka := Key(db, order, recent, a);
    var kb := Key(db, order, recent, b);
    if order != Newest {
      assert ka[1..] == [-db.ideas.rows[a].createdAt] && kb[1..] == [-db.ideas.rows[b].createdAt];
    }
  }

  /** Without `sort`, the list is newest first; with `popular7d` it is by
      the 7-day count, then newest first; with `popularAll` by the total
      count, then newest first. */
  lemma ListOrders(db: Db, lq: ListQuery, hits: set<int>, recent: map<int, nat>, i: int, j: int)
    requires var r := ListIdeasSpec(db, lq, hits, recent);
             r.status == 200 && 0 <= i < j < |r.body.ideas|
    ensures var rows := ListIdeasSpec(db, lq, hits, recent).body.ideas;
            && (OrderOf(lq.sort) == Newest ==> rows[i].createdAt >= rows[j].createdAt)
            && (OrderOf(lq.sort) == Popular7d ==>
                  rows[i].likes7d > rows[j].likes7d
                  || (rows[i].likes7d == rows[j].likes7d && rows[i].createdAt >= rows[j].createdAt))
            && (OrderOf(lq.sort) == PopularAll ==>
                  rows[i].totalLikes > rows[j].totalLikes
                  || (rows[i].totalLikes == rows[j].totalLikes && rows[i].createdAt >= rows[j].createdAt))
  {
    var w := ListWindow(lq);
    var slice := ListSlice(db, lq, hits, recent, w.0, w.1);
    var rows := ListRows(db, recent, slice);
    assert rows[i] == ListRow(db, recent, slice[i]) && rows[j] == ListRow(db, recent, slice[j]);
    assert ListedIdea(db, lq, hits, slice[i]) && ListedIdea(db, lq, hits, slice[j]);
    KeyOrder(db, OrderOf(lq.sort), recent, slice[i], slice[j]);
  }

  // ---------------------------------------------------------------------
  // POST /ideas

  /** The slug a new idea with this title receives. */
  function NewSlug(db: Db, slugify: string -> string, title: string, excludeId: Option<int>): string {
    var base := SlugBase(slugify, title);
    UniqueSlug(base, ExistingSlugs(SlugColumn(db), base, excludeId))
  }

  /** The slug is held by no idea other than the excluded one. */
  lemma NewSlugFresh(db: Db, slugify: string -> string, title: string, excludeId: Option<int>)
    ensures forall id :: id in db.ideas.rows && !Excludes(excludeId, id) ==>
              db.ideas.rows[id].slug != NewSlug(db, slugify, title, excludeId)
  {
    FreshSlug(SlugColumn(db), SlugBase(slugify, title), excludeId);
  }

  /** `POST /ideas`: owner from the token, `category_id ?? null`, a slug no
      stored idea has, status published; 201 with the stored row. */
  function CreateIdeaSpec(db: Db, user: Option<Principal>, slugify: string -> string, title: string,
                          description: string, categoryId: Option<int>, now: int): (o: Outcome)
    ensures user.None? ==> o == Outcome(db, Unauthorized)
    ensures user.Some? ==>
              var id := db.ideas.next;
              var slug := NewSlug(db, slugify, title, None);
              && o.db == db.(ideas := o.db.ideas)
              && o.db.ideas.rows == db.ideas.rows[id := Idea(user.value.id, categoryId, title, slug, description, Published, now)]
              && o.db.ideas.next == id + 1
              && o.resp == Response(201, IdeaBody(id, o.db.ideas.rows[id]))
              && forall other :: other in db.ideas.rows ==> db.ideas.rows[other].slug != slug
    ensures Valid(db) ==> Valid(o.db)
  {
    if user.None? then Outcome(db, Unauthorized)
    else
      var id := db.ideas.next;
      var slug := NewSlug(db, slugify, title, None);
      NewSlugFresh(db, slugify, title, None);
      var ideas := db.ideas.Insert(Idea(user.value.id, categoryId, title, slug, description, Published, now));
      Outcome(db.(ideas := ideas), Response(201, IdeaBody(id, ideas.rows[id])))
  }

  // ---------------------------------------------------------------------
  // GET /ideas/:idOrSlug

  predicate SlugMatch(db: Db, key: string, i: Idea) {
    i.slug == key && i.owner in db.users.rows
  }

  /** `/^\d+$/.test(key)` picks `WHERE i.id = Number(key)`, any other key
      `WHERE i.slug = key`; `rows[0]` is the first in id order. */
  function FindIdea(db: Db, key: string): (r: Option<int>)
    ensures r.Some? ==> HasAuthor(db, r.value)
    ensures IsDigitString(key) ==>
              (r.Some? <==> HasAuthor(db, ParseDigits(key))) && (r.Some? ==> r.value == ParseDigits(key))
    ensures !IsDigitString(key) && r.Some? ==> db.ideas.rows[r.value].slug == key
    ensures !IsDigitString(key) && r.None? && Valid(db) ==>
              forall id :: HasAuthor(db, id) ==> db.ideas.rows[id].slug != key
  {
    if IsDigitString(key) then
      var id := ParseDigits(key);
      if HasAuthor(db, id) then Some(id) else None
    else
      var ids := Select(db.ideas, (id: int, i: Idea) => SlugMatch(db, key, i));
      if ids == [] then None
      else
        assert ids[0] in db.ideas.rows && SlugMatch(db, key, db.ideas.rows[ids[0]]);
        Some(ids[0])
  }

  /** `req.user?.id` is truthy and the pair is in `idea_likes`. */
  predicate LikedBy(db: Db, viewer: Option<Principal>, id: int) {
    viewer.Some? && viewer.value.id != 0 && (id, viewer.value.id) in db.ideaLikes
  }

  function DetailSpec(db: Db, viewer: Option<Principal>, key: string): (r: Response)
    ensures FindIdea(db, key).None? <==> r == Response(404, ErrorBody("Not Found"))
    ensures FindIdea(db, key).Some? ==>
              var id := FindIdea(db, key).value;
              r == Response(200, IdeaDetailBody(IdeaDetail(id, db.ideas.rows[id], Author(db, id),
                      LikeCount(db.ideaLikes, id), VisibleCommentCount(db.comments.rows, id),
                      LikedBy(db, viewer, id))))
    ensures viewer.None? && r.status == 200 ==> !r.body.detail.liked
  {
    match FindIdea(db, key)
    case None => Response(404, ErrorBody("Not Found"))
    case Some(id) =>
      Response(200, IdeaDetailBody(IdeaDetail(id, db.ideas.rows[id], Author(db, id),
        LikeCount(db.ideaLikes, id), VisibleCommentCount(db.comments.rows, id),
        LikedBy(db, viewer, id))))
  }

  /** An all-digit key is never read as a slug: an idea whose slug is "42"
      is not found by `/ideas/42` unless idea 42 exists. */
  lemma DigitKeyIgnoresSlugs(db: Db, viewer: Option<Principal>, key: string)
    requires IsDigitString(key) && !HasAuthor(db, ParseDigits(key))
    ensures DetailSpec(db, viewer, key) == Response(404, ErrorBody("Not Found"))
  {
  }

  // ---------------------------------------------------------------------
  // GET /ideas/user/:userId

  predicate OwnedBy(userId: int, i: Idea) {
    i.owner == userId
  }

  predicate Owns(db: Db, userId: int, id: int) {
    id in db.ideas.rows && db.ideas.rows[id].owner == userId
  }

  function UserIdeaIds(db: Db, userId: int): (r: seq<int>)
    ensures SortedBy(r, OrderKey(db, Newest, map[]))
  {
    SortBy(Select(db.ideas, (id: int, i: Idea) => OwnedBy(userId, i)), OrderKey(db, Newest, map[]))
  }

  lemma UserIdeaIdsExact(db: Db, userId: int)
    ensures forall k :: 0 <= k < |UserIdeaIds(db, userId)| ==> Owns(db, userId, UserIdeaIds(db, userId)[k])
    ensures Valid(db) ==> forall id :: Owns(db, userId, id) ==> id in UserIdeaIds(db, userId)
  {
    var ids := Select(db.ideas, (id: int, i: Idea) => OwnedBy(userId, i));
    var r := UserIdeaIds(db, userId);
    SortByMembers(ids, OrderKey(db, Newest, map[]));
    assert forall k :: 0 <= k < |r| ==> r[k] in ids;
  }

  function OwnRow(db: Db, id: int): (v: UserIdeaRow)
    requires id in db.ideas.rows
  {
    var i := db.ideas.rows[id];
    UserIdeaRow(id, i.title, i.slug, i.createdAt, LikeCount(db.ideaLikes, id), VisibleCommentCount(db.comments.rows, id))
  }

  function UserIdeaRows(db: Db, userId: int, ids: seq<int>): (r: seq<UserIdeaRow>)
    requires forall k :: 0 <= k < |ids| ==> Owns(db, userId, ids[k])
    ensures |r| == |ids|
    ensures forall k :: 0 <= k < |r| ==> Owns(db, userId, ids[k]) && r[k] == OwnRow(db, ids[k])
  {
    if ids == [] then []
    else
      assert Owns(db, userId, ids[0]);
      [OwnRow(db, ids[0])] + UserIdeaRows(db, userId, ids[1..])
  }

  /** `GET /ideas/user/:userId`: public, every status, newest first. */
  function UserIdeasSpec(db: Db, userId: int): (r: Response)
    ensures r.status == 200 && r.body.UserIdeasBody?
    ensures |r.body.userIdeas| == |UserIdeaIds(db, userId)|
    ensures forall k :: 0 <= k < |r.body.userIdeas| ==>
              Owns(db, userId, UserIdeaIds(db, userId)[k]) && r.body.userIdeas[k] == OwnRow(db, UserIdeaIds(db, userId)[k])
  {
    var ids := UserIdeaIds(db, userId);
    UserIdeaIdsExact(db, userId);
    Response(200, UserIdeasBody(UserIdeaRows(db, userId, ids)))
  }

  /** The rows are the user's ideas of every status, newest first. */
  lemma UserIdeasNewestFirst(db: Db, userId: int, i: int, j: int)
    requires 0 <= i < j < |UserIdeasSpec(db, userId).body.userIdeas|
    ensures var rows := UserIdeasSpec(db, userId).body.userIdeas;
            rows[i].createdAt >= rows[j].createdAt
            && db.ideas.rows[rows[i].id].owner == userId
  {
    var ids := UserIdeaIds(db, userId);
    assert Owns(db, userId, ids[i]) && Owns(db, userId, ids[j]);
    assert LexLe(OrderKey(db, Newest, map[])(ids[i]), OrderKey(db, Newest, map[])(ids[j]));
  }

  // ---------------------------------------------------------------------
  // PATCH /ideas/:id and DELETE /ideas/:id

  /** The body of PATCH; `categoryId` is `category_id ?? null`. */
  datatype IdeaEdit = IdeaEdit(title: Option<string>, description: Option<string>,
                               categoryId: Option<int>, status: Option<string>)

  /** The values the `status` ENUM column accepts. */
  function ParseStatus(s: string): (r: Option<IdeaStatus>)
    ensures r == Some(Published) <==> s == "published"
    ensures r == Some(Draft) <==> s == "draft"
    ensures r == Some(Hidden) <==> s == "hidden"
  {
    if s == "published" then Some(Published)
    else if s == "draft" then Some(Draft)
    else if s == "hidden" then Some(Hidden)
    else None
  }

  /** The 404-then-403 gate PATCH and DELETE share; `None` lets the
      caller on. */
  function OwnerGate(db: Db, user: Principal, id: int): (r: Option<Response>)
    ensures id !in db.ideas.rows <==> r == Some(Response(404, ErrorBody("Not Found")))
    ensures id in db.ideas.rows ==>
              (r.None? <==> db.ideas.rows[id].owner == user.id || IsStaff(user))
              && (r.Some? ==> r.value == Forbidden)
  {
    if id !in db.ideas.rows then Some(Response(404, ErrorBody("Not Found")))
    else if db.ideas.rows[id].owner != user.id && !IsStaff(user) then Some(Forbidden)
    else None
  }

  /** The row after `UPDATE ideas SET title = COALESCE(?, title), ...,
      category_id = ?, ...`. */
  function Edited(db: Db, slugify: string -> string, id: int, before: Idea, edit: IdeaEdit, status: IdeaStatus): Idea {
    var slug := if TruthyStr(edit.title) then NewSlug(db, slugify, edit.title.value, Some(id)) else before.slug;
    before.(title := Coalesce(edit.title, Some(before.title)).value,
          slug := slug,
          description := Coalesce(edit.description, Some(before.description)).value,
          category := edit.categoryId,
          status := status)
  }

  /** `PATCH /ideas/:id`. A status outside the ENUM makes the UPDATE fail
      (strict SQL mode), answered with 500. */
  function PatchIdeaSpec(db: Db, user: Option<Principal>, slugify: string -> string, id: int, edit: IdeaEdit): (o: Outcome)
    ensures user.None? ==> o == Outcome(db, Unauthorized)
    ensures user.Some? && OwnerGate(db, user.value, id).Some? ==> o == Outcome(db, OwnerGate(db, user.value, id).value)
    ensures user.Some? && OwnerGate(db, user.value, id).None? && edit.status.Some? && ParseStatus(edit.status.value).None? ==>
              o == Outcome(db, Response(500, DriverErrorBody))
    ensures o.resp.status == 200 ==>
              && user.Some? && id in db.ideas.rows && id in o.db.ideas.rows
              && o.db == db.(ideas := Table(db.ideas.rows[id := o.db.ideas.rows[id]], db.ideas.next))
              && o.resp.body == IdeaBody(id, o.db.ideas.rows[id])
  {
    if user.None? then Outcome(db, Unauthorized)
    else
      var gate := OwnerGate(db, user.value, id);
      if gate.Some? then Outcome(db, gate.value)
      else
        var before := db.ideas.rows[id];
        var status := if edit.status.Some? then ParseStatus(edit.status.value) else Some(before.status);
        if status.None? then Outcome(db, HandleError(DriverThrown))
        else
          var updated := Edited(db, slugify, id, before, edit, status.value);
          Outcome(db.(ideas := Table(db.ideas.rows[id := updated], db.ideas.next)), Response(200, IdeaBody(id, updated)))
  }

  /** What a successful PATCH writes: omitted title, description and status
      keep their values, an omitted category becomes null, the slug is
      recomputed only for a truthy title, as `uniqueSlug` of that title (so it
      starts with the title's base and clashes with no other idea),
      and nothing but that row changes. */
  lemma PatchIdeaEffect(db: Db, user: Principal, slugify: string -> string, id: int, edit: IdeaEdit)
    requires OwnerGate(db, user, id).None?
    requires edit.status.None? || ParseStatus(edit.status.value).Some?
    ensures var o := PatchIdeaSpec(db, Some(user), slugify, id, edit);
            var before := db.ideas.rows[id];
            var after := o.db.ideas.rows[id];
            && o.resp.status == 200
            && (edit.title.None? ==> after.title == before.title)
            && (edit.title.Some? ==> after.title == edit.title.value)
            && (edit.description.None? ==> after.description == before.description)
            && (edit.description.Some? ==> after.description == edit.description.value)
            && (edit.status.None? ==> after.status == before.status)
            && (edit.status.Some? ==> after.status == ParseStatus(edit.status.value).value)
            && after.category == edit.categoryId
            && after.owner == before.owner && after.createdAt == before.createdAt
            && (!TruthyStr(edit.title) ==> after.slug == before.slug)
            && (TruthyStr(edit.title) ==>
                  && after.slug == NewSlug(db, slugify, edit.title.value, Some(id))
                  && SlugBase(slugify, edit.title.value) <= after.slug
                  && forall other :: other in db.ideas.rows && other != id && id != 0 ==> db.ideas.rows[other].slug != after.slug)
  {
    if TruthyStr(edit.title) {
      NewSlugFresh(db, slugify, edit.title.value, Some(id));
      var base := SlugBase(slugify, edit.title.value);
      UniqueSlugHasPrefix(base, ExistingSlugs(SlugColumn(db), base, Some(id)));
    }
  }

  /** The owner may undo a staff member's `hidden` by PATCHing the status. */
  lemma OwnerCanUnhide(db: Db, owner: Principal, slugify: string -> string, id: int)
    requires id in db.ideas.rows && db.ideas.rows[id].owner == owner.id && db.ideas.rows[id].status == Hidden
    ensures PatchIdeaSpec(db, Some(owner), slugify, id, IdeaEdit(None, None, db.ideas.rows[id].category, Some("published")))
              .db.ideas.rows[id].status == Published
  {
    PatchIdeaEffect(db, owner, slugify, id, IdeaEdit(None, None, db.ideas.rows[id].category, Some("published")));
  }

  /** PATCHing an idea with the title its slug came from keeps the slug when
      no other idea holds it. */
  lemma PatchSameTitleKeepsSlug(db: Db, user: Principal, slugify: string -> string, id: int, title: string)
    requires OwnerGate(db, user, id).None? && id != 0 && title != ""
    requires db.ideas.rows[id].slug == SlugBase(slugify, title)
    requires forall other :: other in db.ideas.rows && other != id ==> db.ideas.rows[other].slug != db.ideas.rows[id].slug
    ensures PatchIdeaSpec(db, Some(user), slugify, id, IdeaEdit(Some(title), None, None, None)).db.ideas.rows[id].slug
            == db.ideas.rows[id].slug
  {
    ResaveKeepsSlug(SlugColumn(db), id, SlugBase(slugify, title));
  }

  /** `DELETE /ideas/:id`. */
  function DeleteIdeaSpec(db: Db, user: Option<Principal>, id: int): (o: Outcome)
    ensures user.None? ==> o == Outcome(db, Unauthorized)
    ensures user.Some? && OwnerGate(db, user.value, id).Some? ==> o == Outcome(db, OwnerGate(db, user.value, id).value)
    ensures user.Some? && OwnerGate(db, user.value, id).None? ==>
              o == Outcome(db.(ideas := Table(db.ideas.rows - {id}, db.ideas.next)), Response(200, OkBody))
    ensures id !in o.db.ideas.rows || o.db == db
    ensures Valid(db) ==> Valid(o.db)
  {
    if user.None? then Outcome(db, Unauthorized)
    else
      var gate := OwnerGate(db, user.value, id);
      if gate.Some? then Outcome(db, gate.value)
      else Outcome(db.(ideas := Table(db.ideas.rows - {id}, db.ideas.next)), Response(200, OkBody))
  }

  // ---------------------------------------------------------------------
  // POST /ideas/:id/like and DELETE /ideas/:id/like

  /** `POST /ideas/:id/like`: like `POST /likes/ideas/:id` but without the
      existence check and answered with 200. The DELETE route behaves as
      `Likes.UnlikeIdeaSpec`. */
  function LikeAnywaySpec(db: Db, user: Option<Principal>, id: int): (o: Outcome)
    ensures user.None? ==> o == Outcome(db, Unauthorized)
    ensures user.Some? ==>
              && o.db == db.(ideaLikes := db.ideaLikes + {(id, user.value.id)})
              && o.resp == Response(200, LikeBody(true, LikeCount(o.db.ideaLikes, id)))
  {
    if user.None? then Outcome(db, Unauthorized)
    else
      var likes := db.ideaLikes + {(id, user.value.id)};
      Outcome(db.(ideaLikes := likes), Response(200, LikeBody(true, LikeCount(likes, id))))
  }

  /** On an existing idea both like routes store the same and answer the
      same count; on a missing one only this route inserts. Repeating the
      call changes nothing. */
  lemma LikeRoutesAgree(db: Db, user: Principal, id: int)
    ensures var a := LikeAnywaySpec(db, Some(user), id);
            var b := Likes.LikeIdeaSpec(db, Some(user), id);
            && (id in db.ideas.rows ==> a.db == b.db && a.resp.body == b.resp.body && a.resp.status == 200 && b.resp.status == 201)
            && (id !in db.ideas.rows ==> b.db == db && (id, user.id) in a.db.ideaLikes)
            && LikeAnywaySpec(a.db, Some(user), id) == a
  {
    var a := LikeAnywaySpec(db, Some(user), id);
    assert a.db.ideaLikes + {(id, user.id)} == a.db.ideaLikes;
  }

  /** A viewer who liked an idea through this route sees `liked` on its
      detail page. */
  lemma LikeShowsOnDetail(db: Db, user: Principal, id: int)
    requires user.id != 0 && id >= 0 && HasAuthor(db, id)
    ensures var d := DetailSpec(LikeAnywaySpec(db, Some(user), id).db, Some(user), NatToString(id as nat));
            d.status == 200 && d.body.detail.liked
  {
    var db1 := LikeAnywaySpec(db, Some(user), id).db;
    ParseNatToString(id as nat);
    assert HasAuthor(db1, id);
  }

  // ---------------------------------------------------------------------
  // The handlers on the store

  method ListIdeasRoute(f: Forum, req: Request, verify: string -> Option<Claims>, lq: ListQuery,
                        hits: set<int>, recent: map<int, nat>)
    returns (resp: Response)
    modifies req`user
    ensures resp == ListIdeasSpec(f.Tables(), lq, hits, recent)
  {
    var flow := MaybeAuth(req, verify);
    var db := f.Tables();
    var w := ListWindow(lq);
    if w.0 < 0 || w.1 < 0 {
      return HandleError(DriverThrown);
    }
    var page := ListSlice(db, lq, hits, recent, w.0, w.1);
    resp := Response(200, IdeaListBody(ListRows(db, recent, page)));
  }

  method CreateIdeaRoute(f: Forum, req: Request, verify: string -> Option<Claims>, schema: Schema,
                         slugify: string -> string, title: string, description: string,
                         categoryId: Option<int>, now: int)
    returns (resp: Response)
    modifies f, req`user, req`body, req`params, req`query
    ensures Outcome(f.Tables(), resp)
            == CreateIdeaSpec(old(f.Tables()), RequestPrincipal(req, verify), slugify, title, description, categoryId, now)
  {
    var flow := RequireAuth(req, verify);
    if flow.Halt? {
      return flow.resp;
    }
    flow := Validate(req, BareZodObject(schema));
    BareObjectValidatesNothing(schema, Fields(old(req.body), old(req.params), old(req.query)));
    var slug := UniqueIdeaSlug(slugify, title, None, SlugColumn(f.Tables()));
    var id := f.ideas.next;
    f.ideas := f.ideas.Insert(Idea(req.user.value.id, categoryId, title, slug, description, Published, now));
    resp := Response(201, IdeaBody(id, f.ideas.rows[id]));
  }

  /** The viewer `maybeAuth` leaves in `req.user`. */
  function Viewer(req: Request, verify: string -> Option<Claims>, prior: Option<Principal>): Option<Principal>
    reads req`authorization, req`cookieToken
  {
    if RequestPrincipal(req, verify).Some? then RequestPrincipal(req, verify) else prior
  }

  method DetailRoute(f: Forum, req: Request, verify: string -> Option<Claims>, key: string)
    returns (resp: Response)
    modifies req`user
    ensures resp == DetailSpec(f.Tables(), Viewer(req, verify, old(req.user)), key)
  {
    var flow := MaybeAuth(req, verify);
    var db := f.Tables();
    var row := FindIdea(db, key);
    if row.None? {
      return Response(404, ErrorBody("Not Found"));
    }
    var id := row.value;
    var liked := false;
    if req.user.Some? && req.user.value.id != 0 {
      liked := (id, req.user.value.id) in f.ideaLikes;
    }
    resp := Response(200, IdeaDetailBody(IdeaDetail(id, f.ideas.rows[id], Author(db, id),
              LikeCount(f.ideaLikes, id), VisibleCommentCount(f.comments.rows, id), liked)));
  }

  method UserIdeasRoute(f: Forum, userId: int) returns (resp: Response)
    ensures resp == UserIdeasSpec(f.Tables(), userId)
  {
    resp := UserIdeasSpec(f.Tables(), userId);
  }

  method PatchIdeaRoute(f: Forum, req: Request, verify: string -> Option<Claims>, schema: Schema,
                        slugify: string -> string, id: int, edit: IdeaEdit)
    returns (resp: Response)
    modifies f, req`user, req`body, req`params, req`query
    ensures Outcome(f.Tables(), resp) == PatchIdeaSpec(old(f.Tables()), RequestPrincipal(req, verify), slugify, id, edit)
  {
    var flow := RequireAuth(req, verify);
    if flow.Halt? {
      return flow.resp;
    }
    flow := Validate(req, BareZodObject(schema));
    BareObjectValidatesNothing(schema, Fields(old(req.body), old(req.params), old(req.query)));
    var user := req.user.value;
    var gate := OwnerGate(f.Tables(), user, id);
    if gate.Some? {
      return gate.value;
    }
    var current := f.ideas.rows[id];
    var slug := current.slug;
    if TruthyStr(edit.title) {
      slug := UniqueIdeaSlug(slugify, edit.title.value, Some(id), SlugColumn(f.Tables()));
    }
    var status := current.status;
    if edit.status.Some? {
      var parsed := ParseStatus(edit.status.value);
      if parsed.None? {
        return HandleError(DriverThrown);
      }
      status := parsed.value;
    }
    var updated := current.(title := Coalesce(edit.title, Some(current.title)).value, slug := slug,
                            description := Coalesce(edit.description, Some(current.description)).value,
                            category := edit.categoryId, status := status);
    f.ideas := Table(f.ideas.rows[id := updated], f.ideas.next);
    resp := Response(200, IdeaBody(id, updated));
  }

  method DeleteIdeaRoute(f: Forum, req: Request, verify: string -> Option<Claims>, id: int)
    returns (resp: Response)
    modifies f, req`user
    ensures Outcome(f.Tables(), resp) == DeleteIdeaSpec(old(f.Tables()), RequestPrincipal(req, verify), id)
  {
    var flow := RequireAuth(req, verify);
    if flow.Halt? {
      return flow.resp;
    }
    var gate := OwnerGate(f.Tables(), req.user.value, id);
    if gate.Some? {
      return gate.value;
    }
    f.ideas := Table(f.ideas.rows - {id}, f.ideas.next);
    resp := Response(200, OkBody);
  }

  method PostLikeRoute(f: Forum, req: Request, verify: string -> Option<Claims>, id: int)
    returns (resp: Response)
    modifies f, req`user
    ensures Outcome(f.Tables(), resp) == LikeAnywaySpec(old(f.Tables()), RequestPrincipal(req, verify), id)
  {
    var flow := RequireAuth(req, verify);
    if flow.Halt? {
      return flow.resp;
    }
    f.ideaLikes := f.ideaLikes + {(id, req.user.value.id)};
    resp := Response(200, LikeBody(true, LikeCount(f.ideaLikes, id)));
  }

  method DeleteLikeRoute(f: Forum, req: Request, verify: string -> Option<Claims>, id: int)
    returns (resp: Response)
    modifies f, req`user
    ensures Outcome(f.Tables(), resp) == Likes.UnlikeIdeaSpec(old(f.Tables()), RequestPrincipal(req, verify), id)
  {
    var flow := RequireAuth(req, verify);
    if flow.Halt? {
      return flow.resp;
    }
    f.ideaLikes := f.ideaLikes - {(id, req.user.value.id)};
    resp := Response(200, LikeBody(false, LikeCount(f.ideaLikes, id)));
  }
}
