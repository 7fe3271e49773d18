/** The forum's relational tables as values: one datatype per row kind, the
    whole database as `Db`, and the read-only queries several routes share
    (like counts, visible-comment counts, rows in id order). */
module Entities {
  import opened Common

  datatype User = User(displayName: string, email: string, passwordHash: string,
                       username: Option<string>, roleId: int, active: bool)

  datatype IdeaStatus = Draft | Published | Hidden

  datatype Idea = Idea(owner: int, category: Option<int>, title: string, slug: string,
                       description: string, status: IdeaStatus, createdAt: int)

  datatype CommentStatus = Visible | HiddenComment

  datatype Comment = Comment(idea: int, author: int, parent: Option<int>, content: string,
                             status: CommentStatus, createdAt: int)

  datatype TargetType = IdeaTarget | CommentTarget

  datatype ReportReason = Spam | Plagiarism | Abuse | OtherReason

  datatype ReportStatus = Open | Reviewed | Dismissed | Removed

  datatype Report = Report(reporter: int, targetType: TargetType, targetId: int,
                           reason: ReportReason, note: Option<string>,
                           status: ReportStatus, createdAt: int)

  datatype Category = Category(name: string, slug: string)

  /** A `moderation_logs` row; `targetType` is "idea", "comment" or "user". */
  datatype LogRow = LogRow(actor: int, action: string, targetType: string, targetId: int,
                           reason: Option<string>, createdAt: int)

  /** A table with an AUTO_INCREMENT id: its rows by id and the id the next
      insert receives. */
  datatype Table<V> = Table(rows: map<int, V>, next: int) {
    ghost predicate Valid() {
      next >= 1 && forall id :: id in rows ==> 1 <= id < next
    }

    /** `INSERT`: the new row gets the counter's id and the counter moves on. */
    function Insert(v: V): (t: Table<V>)
      ensures Valid() ==> t.Valid() && next !in rows
      ensures t.rows == rows[next := v] && t.next == next + 1
    {
      Table(rows[next := v], next + 1)
    }
  }

  /** All tables. Like tables are sets of (target id, user id) pairs, which
      is their primary key; `logs` is append-only and row i has id i + 1. */
  datatype Db = Db(users: Table<User>, roles: map<int, string>,
                   ideas: Table<Idea>, comments: Table<Comment>,
                   ideaLikes: set<(int, int)>, commentLikes: set<(int, int)>,
                   reports: Table<Report>, categories: Table<Category>,
                   logs: seq<LogRow>)

  /** Every stored id was handed out by its table's counter. */
  ghost predicate Valid(db: Db) {
    db.users.Valid() && db.ideas.Valid() && db.comments.Valid()
    && db.reports.Valid() && db.categories.Valid()
  }

  // ---------------------------------------------------------------------
  // Likes

  /** The rows of a like table that point at `target`. */
  function LikeRows(likes: set<(int, int)>, target: int): (rows: set<(int, int)>)
    ensures forall p :: p in rows <==> p in likes && p.0 == target
  {
    set p | p in likes && p.0 == target
  }

  /** `SELECT COUNT(*) FROM …_likes WHERE target = ?`: zero exactly when no
      user likes the target. */
  function LikeCount(likes: set<(int, int)>, target: int): (n: nat)
    ensures n == 0 <==> forall u :: (target, u) !in likes
  {
    var rows := LikeRows(likes, target);
    if rows == {} then
      assert forall u :: (target, u) !in rows;
      0
    else
      var p :| p in rows;
      var u: int := p.1;
      assert (target, u) == p;
      assert (target, u) in likes;
      |rows|
  }

  /** `INSERT IGNORE` of a pair raises its target's count by one exactly
      when the pair was absent, and leaves every other target's count. */
  lemma LikeCountInsert(likes: set<(int, int)>, target: int, user: int, other: int)
    ensures LikeCount(likes + {(target, user)}, target)
            == LikeCount(likes, target) + (if (target, user) in likes then 0 else 1)
    ensures other != target ==> LikeCount(likes + {(target, user)}, other) == LikeCount(likes, other)
  {
    var added := likes + {(target, user)};
    var before := LikeRows(likes, target);
    var after := LikeRows(added, target);
    assert after == before + {(target, user)};
    LikeCountIsRows(likes, target);
    LikeCountIsRows(added, target);
    if (target, user) in likes {
      assert after == before;
    } else {
      assert (target, user) !in before;
      assert |after| == |before| + 1;
    }
    if other != target {
      assert LikeRows(added, other) == LikeRows(likes, other);
      LikeCountIsRows(likes, other);
      LikeCountIsRows(added, other);
    }
  }

  /** Deleting a pair lowers its target's count by one exactly when it was
      present, and leaves every other target's count. */
  lemma LikeCountRemove(likes: set<(int, int)>, target: int, user: int, other: int)
    ensures LikeCount(likes - {(target, user)}, target)
            == LikeCount(likes, target) - (if (target, user) in likes then 1 else 0)
    ensures other != target ==> LikeCount(likes - {(target, user)}, other) == LikeCount(likes, other)
  {
    var removed := likes - {(target, user)};
    var before := LikeRows(likes, target);
    var after := LikeRows(removed, target);
    assert after == before - {(target, user)};
    LikeCountIsRows(likes, target);
    LikeCountIsRows(removed, target);
    if (target, user) in likes {
      assert (target, user) in before;
      assert |after| == |before| - 1;
    } else {
      assert after == before;
    }
    if other != target {
      assert LikeRows(removed, other) == LikeRows(likes, other);
      LikeCountIsRows(likes, other);
      LikeCountIsRows(removed, other);
    }
  }

  /** The count is the number of the target's rows. */
  lemma LikeCountIsRows(likes: set<(int, int)>, target: int)
    ensures LikeCount(likes, target) == |LikeRows(likes, target)|
  {
  }

  // ---------------------------------------------------------------------
  // Shared read queries

  /** The ids of the visible comments on an idea. */
  function VisibleComments(comments: map<int, Comment>, ideaId: int): (ids: set<int>)
    ensures forall id :: id in ids <==> id in comments && comments[id].idea == ideaId && comments[id].status == Visible
  {
    set id | id in comments && comments[id].idea == ideaId && comments[id].status == Visible
  }

  /** `(SELECT COUNT(*) FROM comments WHERE idea_id = i.id AND status = 'visible')`:
      zero exactly when no comment on the idea is visible. */
  function VisibleCommentCount(comments: map<int, Comment>, ideaId: int): (n: nat)
    ensures n == 0 <==> forall id :: id in comments && comments[id].idea == ideaId ==> comments[id].status != Visible
  {
    var rows := VisibleComments(comments, ideaId);
    assert (forall id :: id !in rows) ==> rows == {};
    |rows|
  }

  /** The ids of a table below its counter, ascending: the row order a scan
      of the table yields before any `ORDER BY`. */
  function TableIds<V>(m: map<int, V>, next: int): (r: seq<int>)
    ensures forall i :: 0 <= i < |r| ==> r[i] in m && 1 <= r[i] < next
    ensures forall i, j :: 0 <= i < j < |r| ==> r[i] < r[j]
    ensures forall id :: id in m && 1 <= id < next ==> id in r
    decreases next
  {
    if next <= 1 then []
    else TableIds(m, next - 1) + (if next - 1 in m then [next - 1] else [])
  }

  /** The ids of `ids` whose row satisfies `keep`, in their order: a
      `WHERE` clause applied to a scan. */
  function Where<V>(m: map<int, V>, ids: seq<int>, keep: (int, V) -> bool): (r: seq<int>)
    ensures forall i :: 0 <= i < |r| ==> r[i] in m && keep(r[i], m[r[i]])
    ensures forall id :: id in ids && id in m && keep(id, m[id]) ==> id in r
    ensures forall id :: id in r ==> id in ids
  {
    if ids == [] then []
    else
      var rest := Where(m, ids[1..], keep);
      if ids[0] in m && keep(ids[0], m[ids[0]]) then [ids[0]] + rest else rest
  }

  /** The rows of a table satisfying `keep`, in id order. */
  function Select<V>(t: Table<V>, keep: (int, V) -> bool): (r: seq<int>)
    ensures forall i :: 0 <= i < |r| ==> r[i] in t.rows && keep(r[i], t.rows[r[i]])
    ensures t.Valid() ==> forall id :: id in t.rows && keep(id, t.rows[id]) ==> id in r
  {
    Where(t.rows, TableIds(t.rows, t.next), keep)
  }

  /** A user's role name through `JOIN roles r ON r.id = u.role_id`. */
  function RoleOf(db: Db, userId: int): (r: Option<string>)
    ensures r.Some? <==> userId in db.users.rows && db.users.rows[userId].roleId in db.roles
    ensures r.Some? ==> r.value == db.roles[db.users.rows[userId].roleId]
  {
    if userId in db.users.rows && db.users.rows[userId].roleId in db.roles
    then Some(db.roles[db.users.rows[userId].roleId]) else None
  }
}
