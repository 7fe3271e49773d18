/** be/src/routes/admin.js, mounted at /admin: the report queue and its
    status changes, moderation of ideas, comments and users inside a
    transaction that also writes a `moderation_logs` row, and the log list.
    Every route first runs `requireAuth` and the admin-or-moderator role
    gate. `withTransaction` of be/src/db.js is a snapshot of the store and a
    restore when the handler throws. */
module Admin {
  import opened Common
  import opened Entities
  import opened Http
  import opened AuthMiddleware
  import opened Sorting
  import opened Store

  // ---------------------------------------------------------------------
  // The gate of `router.use(requireAuth, requireRole("admin", "moderator"))`

  function StaffGate(user: Option<Principal>): (r: Option<Response>)
    ensures r.None? <==> user.Some? && IsStaff(user.value)
    ensures user.None? ==> r == Some(Unauthorized)
    ensures user.Some? && !IsStaff(user.value) ==> r == Some(Forbidden)
  {
    if user.None? then Some(Unauthorized) else RoleGate(user.value, Staff)
  }

  method StaffOnly(req: Request, verify: string -> Option<Claims>) returns (flow: Flow)
    modifies req`user
    ensures StaffGate(RequestPrincipal(req, verify)).Some? ==> flow == Halt(StaffGate(RequestPrincipal(req, verify)).value)
    ensures StaffGate(RequestPrincipal(req, verify)).None? ==> flow == Next && req.user == RequestPrincipal(req, verify)
  {
    flow := RequireAuth(req, verify);
    if flow.Halt? {
      return;
    }
    var denied := RoleGate(req.user.value, Staff);
    if denied.Some? {
      return Halt(denied.value);
    }
  }

  // ---------------------------------------------------------------------
  // Pagination

  /** `Math.max(1, parseInt(page ?? "1"))`. */
  function ClampPage(page: Option<int>): (r: int)
    ensures r >= 1
    ensures page.Some? && page.value >= 1 ==> r == page.value
    ensures page.None? || page.value < 1 ==> r == 1
  {
    if page.GetOr(1) < 1 then 1 else page.GetOr(1)
  }

  /** `Math.max(1, Math.min(100, parseInt(limit ?? "20")))`. */
  function ClampLimit(limit: Option<int>): (r: int)
    ensures 1 <= r <= 100
    ensures limit.None? ==> r == 20
    ensures limit.Some? && 1 <= limit.value <= 100 ==> r == limit.value
    ensures limit.Some? && limit.value > 100 ==> r == 100
    ensures limit.Some? && limit.value < 1 ==> r == 1
  {
    var l := limit.GetOr(20);
    if l > 100 then 100 else if l < 1 then 1 else l
  }

  /** Page, limit and `offset = (page - 1) * limit` of the two lists. */
  function Window(page: Option<int>, limit: Option<int>): (w: (nat, nat, nat))
    ensures w.0 >= 1 && 1 <= w.1 <= 100 && w.2 == (w.0 - 1) * w.1
    ensures w.0 == ClampPage(page) && w.1 == ClampLimit(limit)
  {
    var p := ClampPage(page);
    var l := ClampLimit(limit);
    (p, l, (p - 1) * l)
  }

  // ---------------------------------------------------------------------
  // GET /admin/reports

  /** The ENUM value a report status is stored as. */
  function StatusName(s: ReportStatus): string {
    match s
    case Open => "open"
    case Reviewed => "reviewed"
    case Dismissed => "dismissed"
    case Removed => "removed"
  }

  /** `z.enum(["open", "reviewed", "dismissed", "removed"])`. */
  function ParseReportStatus(s: Option<string>): (r: Option<ReportStatus>)
    ensures r.Some? <==> s.Some? && s.value in ["open", "reviewed", "dismissed", "removed"]
    ensures r.Some? ==> StatusName(r.value) == s.value
  {
    if s == Some("open") then Some(Open)
    else if s == Some("reviewed") then Some(Reviewed)
    else if s == Some("dismissed") then Some(Dismissed)
    else if s == Some("removed") then Some(Removed)
    else None
  }

  predicate KeptReport(db: Db, status: ReportStatus, r: Report) {
    r.status == status && r.reporter in db.users.rows
  }

  predicate Queued(db: Db, status: ReportStatus, id: int) {
    id in db.reports.rows && KeptReport(db, status, db.reports.rows[id])
  }

  /** `ORDER BY r.created_at DESC`. */
  function ReportAge(db: Db, id: int): seq<int> {
    if id in db.reports.rows then [-db.reports.rows[id].createdAt] else []
  }

  function ReportKey(db: Db): int -> seq<int> {
    (id: int) => ReportAge(db, id)
  }

  function QueueIds(db: Db, status: ReportStatus): (r: seq<int>)
    ensures SortedBy(r, ReportKey(db))
  {
    SortBy(Select(db.reports, (id: int, r: Report) => KeptReport(db, status, r)), ReportKey(db))
  }

  lemma QueueIdsSound(db: Db, status: ReportStatus)
    ensures forall k :: 0 <= k < |QueueIds(db, status)| ==> Queued(db, status, QueueIds(db, status)[k])
  {
    QueueIdsExact(db, status);
  }

  lemma QueueIdsExact(db: Db, status: ReportStatus)
    ensures forall k :: 0 <= k < |QueueIds(db, status)| ==> Queued(db, status, QueueIds(db, status)[k])
    ensures Valid(db) ==> forall id :: Queued(db, status, id) ==> id in QueueIds(db, status)
  {
    var ids := Select(db.reports, (id: int, r: Report) => KeptReport(db, status, r));
    var r := QueueIds(db, status);
    SortByMembers(ids, ReportKey(db));
    assert forall k :: 0 <= k < |r| ==> r[k] in ids;
  }

  function ReportViews(db: Db, status: ReportStatus, ids: seq<int>): (r: seq<ReportView>)
    requires forall k :: 0 <= k < |ids| ==> Queued(db, status, ids[k])
    ensures |r| == |ids|
    ensures forall k :: 0 <= k < |r| ==>
              Queued(db, status, ids[k])
              && r[k] == ReportView(ids[k], db.reports.rows[ids[k]], db.users.rows[db.reports.rows[ids[k]].reporter].displayName)
  {
    if ids == [] then []
    else
      assert Queued(db, status, ids[0]);
      var rep := db.reports.rows[ids[0]];
      [ReportView(ids[0], rep, db.users.rows[rep.reporter].displayName)] + ReportViews(db, status, ids[1..])
  }

  /** `SELECT COUNT(*) FROM reports WHERE status = ?`: no join, so reports
      of deleted users count although the page omits them. */
  function StatusCount(db: Db, status: ReportStatus): nat {
    |set id | id in db.reports.rows && db.reports.rows[id].status == status|
  }

  /** The queue page: the ids of reports in that status in queue order,
      from position `offset` on. */
  function QueueSlice(db: Db, status: ReportStatus, limit: nat, offset: nat): (r: seq<int>)
    ensures |r| <= limit
    ensures |r| == PageLength(|QueueIds(db, status)|, limit, offset)
    ensures forall k :: 0 <= k < |r| ==> Queued(db, status, r[k])
    ensures forall k :: 0 <= k < |r| ==> offset + k < |QueueIds(db, status)| && r[k] == QueueIds(db, status)[offset + k]
    ensures forall i, j :: 0 <= i < j < |r| ==> LexLe(ReportAge(db, r[i]), ReportAge(db, r[j]))
  {
    var ids := QueueIds(db, status);
    QueueIdsSound(db, status);
    var page := Page(ids, limit, offset);
    forall i, j | 0 <= i < j < |page| ensures LexLe(ReportAge(db, page[i]), ReportAge(db, page[j])) {
      assert LexLe(ReportKey(db)(ids[offset + i]), ReportKey(db)(ids[offset + j]));
    }
    page
  }

  /** The page is newest first. */
  lemma QueueNewestFirst(db: Db, status: ReportStatus, limit: nat, offset: nat, i: int, j: int)
    requires 0 <= i < j < |QueueSlice(db, status, limit, offset)|
    ensures var r := QueueSlice(db, status, limit, offset);
            r[i] in db.reports.rows && r[j] in db.reports.rows
            && db.reports.rows[r[i]].createdAt >= db.reports.rows[r[j]].createdAt
  {
    var r := QueueSlice(db, status, limit, offset);
    assert Queued(db, status, r[i]) && Queued(db, status, r[j]);
    assert LexLe(ReportAge(db, r[i]), ReportAge(db, r[j]));
  }

  /** `status || "open"`, read as a report status. */
  function QueueStatus(status: Option<string>): (r: Option<ReportStatus>)
    ensures !TruthyStr(status) ==> r == Some(Open)
    ensures TruthyStr(status) ==> r == ParseReportStatus(status)
  {
    ParseReportStatus(OrElse(status, Some("open")))
  }

  /** `GET /admin/reports`: `status || "open"`, clamped paging. A status
      no report can hold matches no row: an empty page with total 0. */
  function ReportQueueSpec(db: Db, user: Option<Principal>, status: Option<string>,
                           page: Option<int>, limit: Option<int>): (r: Response)
    ensures StaffGate(user).Some? ==> r == StaffGate(user).value
    ensures StaffGate(user).None? ==>
              var (p, l, offset) := Window(page, limit);
              && r.status == 200 && r.body.ReportPageBody?
              && r.body.page == p && r.body.limit == l
    ensures StaffGate(user).None? ==>
              match QueueStatus(status)
              case None => r.body.reports == [] && r.body.total == 0
              case Some(s) =>
                && r.body.total == StatusCount(db, s)
                && |r.body.reports| == PageLength(|QueueIds(db, s)|, Window(page, limit).1, Window(page, limit).2)
                && r.body.reports == ReportViews(db, s, QueueSlice(db, s, Window(page, limit).1, Window(page, limit).2))
  {
    if StaffGate(user).Some? then StaffGate(user).value
    else
      var (p, l, offset) := Window(page, limit);
      match QueueStatus(status)
      case None => Response(200, ReportPageBody([], p, l, 0))
      case Some(s) => Response(200, ReportPageBody(ReportViews(db, s, QueueSlice(db, s, l, offset)), p, l, StatusCount(db, s)))
  }

  /** Without a `status` the queue is the open reports. */
  lemma QueueDefaultsToOpen(db: Db, user: Principal, page: Option<int>, limit: Option<int>)
    requires IsStaff(user)
    ensures ReportQueueSpec(db, Some(user), None, page, limit) == ReportQueueSpec(db, Some(user), Some("open"), page, limit)
    ensures ReportQueueSpec(db, Some(user), None, page, limit).body.total == StatusCount(db, Open)
  {
  }

  // ---------------------------------------------------------------------
  // PATCH /admin/reports/:id

  /** `schema.parse(req.body)` throws for a missing or unknown status, which
      reaches the error handler as a 500; an id no row has gives 404. */
  function SetReportStatusSpec(db: Db, user: Option<Principal>, id: int, status: Option<string>): (o: Outcome)
    ensures StaffGate(user).Some? ==> o == Outcome(db, StaffGate(user).value)
    ensures StaffGate(user).None? && ParseReportStatus(status).None? ==> o == Outcome(db, Response(500, ZodErrorBody))
    ensures StaffGate(user).None? && ParseReportStatus(status).Some? && id !in db.reports.rows ==>
              o == Outcome(db, Response(404, ErrorBody("Report not found")))
    ensures StaffGate(user).None? && ParseReportStatus(status).Some? && id in db.reports.rows ==>
              && o.resp == Response(200, OkBody)
              && o.db == db.(reports := Table(db.reports.rows[id := db.reports.rows[id].(status := ParseReportStatus(status).value)], db.reports.next))
    ensures Valid(db) ==> Valid(o.db)
  {
    if StaffGate(user).Some? then Outcome(db, StaffGate(user).value)
    else
      match ParseReportStatus(status)
      case None => Outcome(db, HandleError(ZodThrown))
      case Some(s) =>
        if id !in db.reports.rows then Outcome(db, Response(404, ErrorBody("Report not found")))
        else
          var rows := db.reports.rows[id := db.reports.rows[id].(status := s)];
          Outcome(db.(reports := Table(rows, db.reports.next)), Response(200, OkBody))
  }

  /** Any status can follow any other: setting one and then another ends in
      the second, with the rest of the report as it was. */
  lemma ReportStatusFree(db: Db, user: Principal, id: int, first: string, second: string)
    requires IsStaff(user) && id in db.reports.rows
    requires ParseReportStatus(Some(first)).Some? && ParseReportStatus(Some(second)).Some?
    ensures var db1 := SetReportStatusSpec(db, Some(user), id, Some(first)).db;
            var o := SetReportStatusSpec(db1, Some(user), id, Some(second));
            o.resp.status == 200
            && o.db.reports.rows[id] == db.reports.rows[id].(status := ParseReportStatus(Some(second)).value)
  {
  }

  // ---------------------------------------------------------------------
  // PATCH /admin/ideas/:id, /admin/comments/:id, /admin/users/:id

  datatype Kind = IdeaKind | CommentKind | UserKind

  /** The actions each route's `z.enum` accepts. */
  function Actions(kind: Kind): seq<string> {
    match kind
    case IdeaKind => ["hide_idea", "unhide_idea", "delete_idea"]
    case CommentKind => ["hide_comment", "delete_comment"]
    case UserKind => ["ban_user", "unban_user"]
  }

  /** The `target_type` of the log row. */
  function TargetName(kind: Kind): string {
    match kind
    case IdeaKind => "idea"
    case CommentKind => "comment"
    case UserKind => "user"
  }

  function NotFoundMessage(kind: Kind): string {
    match kind
    case IdeaKind => "Idea not found"
    case CommentKind => "Comment not found"
    case UserKind => "User not found"
  }

  /** `reason: z.string().max(255).optional()`. */
  const MaxReasonLength: nat := 255

  /** `schema.parse(req.body)` succeeds. */
  predicate BodyParses(kind: Kind, action: Option<string>, reason: Option<string>) {
    action.Some? && action.value in Actions(kind) && (reason.None? || |reason.value| <= MaxReasonLength)
  }

  /** The UPDATE or DELETE of one action; `None` when it matches no row,
      where the route throws. */
  function Apply(db: Db, action: string, id: int): (r: Option<Db>)
    ensures action == "hide_idea" || action == "unhide_idea" || action == "delete_idea" ==>
              (r.None? <==> id !in db.ideas.rows)
    ensures action == "hide_comment" || action == "delete_comment" ==> (r.None? <==> id !in db.comments.rows)
    ensures action == "ban_user" || action == "unban_user" ==> (r.None? <==> id !in db.users.rows)
    ensures r.Some? && action == "hide_idea" ==>
              r.value == db.(ideas := Table(db.ideas.rows[id := db.ideas.rows[id].(status := Hidden)], db.ideas.next))
    ensures r.Some? && action == "unhide_idea" ==>
              r.value == db.(ideas := Table(db.ideas.rows[id := db.ideas.rows[id].(status := Published)], db.ideas.next))
    ensures r.Some? && action == "delete_idea" ==> r.value == db.(ideas := Table(db.ideas.rows - {id}, db.ideas.next))
    ensures r.Some? && action == "hide_comment" ==>
              r.value == db.(comments := Table(db.comments.rows[id := db.comments.rows[id].(status := HiddenComment)], db.comments.next))
    ensures r.Some? && action == "delete_comment" ==> r.value == db.(comments := Table(db.comments.rows - {id}, db.comments.next))
    ensures r.Some? && action == "ban_user" ==>
              r.value == db.(users := Table(db.users.rows[id := db.users.rows[id].(active := false)], db.users.next))
    ensures r.Some? && action == "unban_user" ==>
              r.value == db.(users := Table(db.users.rows[id := db.users.rows[id].(active := true)], db.users.next))
    ensures r.Some? ==> r.value.logs == db.logs && (Valid(db) ==> Valid(r.value))
  {
    if action == "hide_idea" || action == "unhide_idea" then
      if id !in db.ideas.rows then None
      else
        var status := if action == "hide_idea" then Hidden else Published;
        Some(db.(ideas := Table(db.ideas.rows[id := db.ideas.rows[id].(status := status)], db.ideas.next)))
    else if action == "delete_idea" then
      if id !in db.ideas.rows then None else Some(db.(ideas := Table(db.ideas.rows - {id}, db.ideas.next)))
    else if action == "hide_comment" then
      if id !in db.comments.rows then None
      else Some(db.(comments := Table(db.comments.rows[id := db.comments.rows[id].(status := HiddenComment)], db.comments.next)))
    else if action == "delete_comment" then
      if id !in db.comments.rows then None else Some(db.(comments := Table(db.comments.rows - {id}, db.comments.next)))
    else if action == "ban_user" || action == "unban_user" then
      if id !in db.users.rows then None
      else Some(db.(users := Table(db.users.rows[id := db.users.rows[id].(active := action == "unban_user")], db.users.next)))
    else Some(db)
  }

  /** One moderation request: gate, body parse, then the transaction. A
      thrown 404 rolls everything back; success appends exactly one log row
      with the actor, the action, the target and `reason ?? null`. */
  function ModerateSpec(db: Db, user: Option<Principal>, kind: Kind, id: int,
                        action: Option<string>, reason: Option<string>, now: int): (o: Outcome)
    ensures StaffGate(user).Some? ==> o == Outcome(db, StaffGate(user).value)
    ensures StaffGate(user).None? && !BodyParses(kind, action, reason) ==> o == Outcome(db, Response(500, ZodErrorBody))
    ensures StaffGate(user).None? && BodyParses(kind, action, reason) && Apply(db, action.value, id).None? ==>
              o == Outcome(db, Response(404, ErrorBody(NotFoundMessage(kind))))
    ensures StaffGate(user).None? && BodyParses(kind, action, reason) && Apply(db, action.value, id).Some? ==>
              && o.resp == Response(200, OkBody)
              && o.db == Apply(db, action.value, id).value.(logs := db.logs + [LogRow(user.value.id, action.value, TargetName(kind), id, reason, now)])
    ensures o.resp.status != 200 ==> o.db == db
    ensures Valid(db) ==> Valid(o.db)
  {
    if StaffGate(user).Some? then Outcome(db, StaffGate(user).value)
    else if !BodyParses(kind, action, reason) then Outcome(db, HandleError(ZodThrown))
    else
      match Apply(db, action.value, id)
      case None => Outcome(db, HandleError(WithStatus(404, NotFoundMessage(kind))))
      case Some(db1) =>
        var row := LogRow(user.value.id, action.value, TargetName(kind), id, reason, now);
        Outcome(db1.(logs := db1.logs + [row]), Response(200, OkBody))
  }

  /** `unhide_idea` publishes whatever the prior status, draft included. */
  lemma UnhidePublishesDraft(db: Db, user: Principal, id: int, reason: Option<string>, now: int)
    requires IsStaff(user) && id in db.ideas.rows && db.ideas.rows[id].status == Draft
    requires reason.None? || |reason.value| <= MaxReasonLength
    ensures ModerateSpec(db, Some(user), IdeaKind, id, Some("unhide_idea"), reason, now).db.ideas.rows[id].status == Published
  {
  }

  /** Hiding an idea that is already hidden succeeds again and writes a
      second log row. */
  lemma RehideLogsAgain(db: Db, user: Principal, id: int, now: int)
    requires IsStaff(user) && id in db.ideas.rows
    ensures var db1 := ModerateSpec(db, Some(user), IdeaKind, id, Some("hide_idea"), None, now).db;
            var o := ModerateSpec(db1, Some(user), IdeaKind, id, Some("hide_idea"), None, now);
            o.resp == Response(200, OkBody) && |o.db.logs| == |db.logs| + 2 && o.db.ideas == db1.ideas
  {
    var db1 := ModerateSpec(db, Some(user), IdeaKind, id, Some("hide_idea"), None, now).db;
    assert db1.ideas.rows[id].status == Hidden;
    assert db1.ideas.rows[id := db1.ideas.rows[id].(status := Hidden)] == db1.ideas.rows;
  }

  /** The handler never looks at who is banned: a moderator can ban an
      admin, and anyone on staff can ban themselves. */
  lemma SelfBanAllowed(db: Db, user: Principal, reason: Option<string>, now: int)
    requires IsStaff(user) && user.id in db.users.rows
    requires reason.None? || |reason.value| <= MaxReasonLength
    ensures var o := ModerateSpec(db, Some(user), UserKind, user.id, Some("ban_user"), reason, now);
            o.resp == Response(200, OkBody) && !o.db.users.rows[user.id].active
  {
  }

  /** An action of another route's enum is refused before anything is
      written, as is an overlong reason. */
  lemma WrongActionWritesNothing(db: Db, user: Principal, id: int, reason: Option<string>, now: int)
    requires IsStaff(user)
    ensures ModerateSpec(db, Some(user), UserKind, id, Some("hide_idea"), reason, now) == Outcome(db, Response(500, ZodErrorBody))
    ensures ModerateSpec(db, Some(user), CommentKind, id, Some("ban_user"), reason, now) == Outcome(db, Response(500, ZodErrorBody))
  {
    assert "hide_idea" !in Actions(UserKind);
    assert "ban_user" !in Actions(CommentKind);
  }

  // ---------------------------------------------------------------------
  // GET /admin/logs

  /** The log ids whose actor still exists (`JOIN users`), ascending. */
  function ActorLogIds(db: Db, n: nat): (r: seq<int>)
    requires n <= |db.logs|
    ensures forall k :: 0 <= k < |r| ==> r[k] <= n && Logged(db, r[k])
    ensures forall id :: id <= n && Logged(db, id) ==> id in r
  {
    if n == 0 then []
    else ActorLogIds(db, n - 1) + (if db.logs[n - 1].actor in db.users.rows then [n] else [])
  }

  /** `ORDER BY ml.created_at DESC`. */
  function LogAge(db: Db, id: int): seq<int> {
    if 1 <= id <= |db.logs| then [-db.logs[id - 1].createdAt] else []
  }

  function LogKey(db: Db): int -> seq<int> {
    (id: int) => LogAge(db, id)
  }

  predicate Logged(db: Db, id: int) {
    1 <= id <= |db.logs| && db.logs[id - 1].actor in db.users.rows
  }

  function LogIds(db: Db): (r: seq<int>)
    ensures SortedBy(r, LogKey(db))
  {
    SortBy(ActorLogIds(db, |db.logs|), LogKey(db))
  }

  lemma LogIdsSound(db: Db)
    ensures forall k :: 0 <= k < |LogIds(db)| ==> Logged(db, LogIds(db)[k])
  {
    LogIdsExact(db);
  }

  lemma LogIdsExact(db: Db)
    ensures forall k :: 0 <= k < |LogIds(db)| ==> Logged(db, LogIds(db)[k])
    ensures forall id :: Logged(db, id) ==> id in LogIds(db)
  {
    var ids := ActorLogIds(db, |db.logs|);
    var r := LogIds(db);
    SortByMembers(ids, LogKey(db));
    assert forall k :: 0 <= k < |r| ==> r[k] in ids;
  }

  /** The log page: log ids in list order from position `offset` on. */
  function LogSlice(db: Db, limit: nat, offset: nat): (r: seq<int>)
    ensures |r| <= limit
    ensures |r| == PageLength(|LogIds(db)|, limit, offset)
    ensures forall k :: 0 <= k < |r| ==> Logged(db, r[k])
    ensures forall k :: 0 <= k < |r| ==> offset + k < |LogIds(db)| && r[k] == LogIds(db)[offset + k]
    ensures forall i, j :: 0 <= i < j < |r| ==> LexLe(LogAge(db, r[i]), LogAge(db, r[j]))
  {
    var ids := LogIds(db);
    LogIdsSound(db);
    var page := Page(ids, limit, offset);
    forall i, j | 0 <= i < j < |page| ensures LexLe(LogAge(db, page[i]), LogAge(db, page[j])) {
      assert LexLe(LogKey(db)(ids[offset + i]), LogKey(db)(ids[offset + j]));
    }
    page
  }

  /** The page is newest first. */
  lemma LogNewestFirst(db: Db, limit: nat, offset: nat, i: int, j: int)
    requires 0 <= i < j < |LogSlice(db, limit, offset)|
    ensures var r := LogSlice(db, limit, offset);
            1 <= r[i] <= |db.logs| && 1 <= r[j] <= |db.logs|
            && db.logs[r[i] - 1].createdAt >= db.logs[r[j] - 1].createdAt
  {
    var r := LogSlice(db, limit, offset);
    assert Logged(db, r[i]) && Logged(db, r[j]);
    assert LexLe(LogAge(db, r[i]), LogAge(db, r[j]));
  }

  function LogViews(db: Db, ids: seq<int>): (r: seq<LogView>)
    requires forall k :: 0 <= k < |ids| ==> Logged(db, ids[k])
    ensures |r| == |ids|
    ensures forall k :: 0 <= k < |r| ==>
              Logged(db, ids[k])
              && r[k] == LogView(ids[k], db.logs[ids[k] - 1], db.users.rows[db.logs[ids[k] - 1].actor].displayName)
  {
    if ids == [] then []
    else
      assert Logged(db, ids[0]);
      var row := db.logs[ids[0] - 1];
      [LogView(ids[0], row, db.users.rows[row.actor].displayName)] + LogViews(db, ids[1..])
  }

  /** `GET /admin/logs`: the count is of every log row, joined or not. */
  function LogListSpec(db: Db, user: Option<Principal>, page: Option<int>, limit: Option<int>): (r: Response)
    ensures StaffGate(user).Some? ==> r == StaffGate(user).value
    ensures StaffGate(user).None? ==>
              var (p, l, offset) := Window(page, limit);
              && r.status == 200 && r.body.LogPageBody?
              && r.body.page == p && r.body.limit == l && r.body.total == |db.logs|
              && r.body.logs == LogViews(db, LogSlice(db, l, offset))
              && |r.body.logs| == PageLength(|LogIds(db)|, l, offset)
  {
    if StaffGate(user).Some? then StaffGate(user).value
    else
      var (p, l, offset) := Window(page, limit);
      Response(200, LogPageBody(LogViews(db, LogSlice(db, l, offset)), p, l, |db.logs|))
  }

  /** A successful moderation shows up in the log list's total at once. */
  lemma ModerationCounted(db: Db, user: Principal, kind: Kind, id: int, action: string,
                          reason: Option<string>, now: int, page: Option<int>, limit: Option<int>)
    requires IsStaff(user) && BodyParses(kind, Some(action), reason) && Apply(db, action, id).Some?
    ensures var db1 := ModerateSpec(db, Some(user), kind, id, Some(action), reason, now).db;
            LogListSpec(db1, Some(user), page, limit).body.total == LogListSpec(db, Some(user), page, limit).body.total + 1
  {
  }

  // ---------------------------------------------------------------------
  // The handlers on the store

  method ReportQueueRoute(f: Forum, req: Request, verify: string -> Option<Claims>, status: Option<string>,
                          page: Option<int>, limit: Option<int>)
    returns (resp: Response)
    modifies req`user
    ensures resp == ReportQueueSpec(f.Tables(), RequestPrincipal(req, verify), status, page, limit)
  {
    var flow := StaffOnly(req, verify);
    if flow.Halt? {
      return flow.resp;
    }
    var db := f.Tables();
    var (p, l, offset) := Window(page, limit);
    var s := QueueStatus(status);
    if s.None? {
      return Response(200, ReportPageBody([], p, l, 0));
    }
    var data := ReportViews(db, s.value, QueueSlice(db, s.value, l, offset));
    var total := StatusCount(db, s.value);
    resp := Response(200, ReportPageBody(data, p, l, total));
  }

  method SetReportStatusRoute(f: Forum, req: Request, verify: string -> Option<Claims>, id: int, status: Option<string>)
    returns (resp: Response)
    modifies f, req`user
    ensures Outcome(f.Tables(), resp) == SetReportStatusSpec(old(f.Tables()), RequestPrincipal(req, verify), id, status)
  {
    var flow := StaffOnly(req, verify);
    if flow.Halt? {
      return flow.resp;
    }
    var parsed := ParseReportStatus(status);
    if parsed.None? {
      return HandleError(ZodThrown);
    }
    if id !in f.reports.rows {
      return Response(404, ErrorBody("Report not found"));
    }
    f.reports := Table(f.reports.rows[id := f.reports.rows[id].(status := parsed.value)], f.reports.next);
    resp := Response(200, OkBody);
  }

  /** The callback `withTransaction` runs: the action's UPDATE or DELETE,
      a throw when it matched no row, then the log INSERT. On a throw it
      promises nothing about the store; the caller rolls back. */
  method ModerationBody(f: Forum, kind: Kind, action: string, id: int, actor: int, reason: Option<string>, now: int)
    returns (thrown: Option<Thrown>)
    modifies f
    ensures thrown.Some? ==> Apply(old(f.Tables()), action, id).None? && thrown == Some(WithStatus(404, NotFoundMessage(kind)))
    ensures thrown.None? ==>
              Apply(old(f.Tables()), action, id).Some?
              && f.Tables() == Apply(old(f.Tables()), action, id).value.(logs := old(f.logs) + [LogRow(actor, action, TargetName(kind), id, reason, now)])
  {
    var notFound := Some(WithStatus(404, NotFoundMessage(kind)));
    if action == "hide_idea" || action == "unhide_idea" {
      if id !in f.ideas.rows {
        return notFound;
      }
      var status := if action == "hide_idea" then Hidden else Published;
      f.ideas := Table(f.ideas.rows[id := f.ideas.rows[id].(status := status)], f.ideas.next);
    } else if action == "delete_idea" {
      if id !in f.ideas.rows {
        return notFound;
      }
      f.ideas := Table(f.ideas.rows - {id}, f.ideas.next);
    } else if action == "hide_comment" {
      if id !in f.comments.rows {
        return notFound;
      }
      f.comments := Table(f.comments.rows[id := f.comments.rows[id].(status := HiddenComment)], f.comments.next);
    } else if action == "delete_comment" {
      if id !in f.comments.rows {
        return notFound;
      }
      f.comments := Table(f.comments.rows - {id}, f.comments.next);
    } else if action == "ban_user" || action == "unban_user" {
      if id !in f.users.rows {
        return notFound;
      }
      f.users := Table(f.users.rows[id := f.users.rows[id].(active := action == "unban_user")], f.users.next);
    }
    f.logs := f.logs + [LogRow(actor, action, TargetName(kind), id, reason, now)];
    thrown := None;
  }

  /** `PATCH /admin/ideas/:id`, `/admin/comments/:id` and `/admin/users/:id`. */
  method ModerateRoute(f: Forum, req: Request, verify: string -> Option<Claims>, kind: Kind, id: int,
                       action: Option<string>, reason: Option<string>, now: int)
    returns (resp: Response)
    modifies f, req`user
    ensures Outcome(f.Tables(), resp) == ModerateSpec(old(f.Tables()), RequestPrincipal(req, verify), kind, id, action, reason, now)
  {
    var flow := StaffOnly(req, verify);
    if flow.Halt? {
      return flow.resp;
    }
    if !BodyParses(kind, action, reason) {
      return HandleError(ZodThrown);
    }
    var actor := req.user.value.id;
    var snapshot := f.Tables();
    var thrown := ModerationBody(f, kind, action.value, id, actor, reason, now);
    if thrown.Some? {
      f.Restore(snapshot);
      return HandleError(thrown.value);
    }
    resp := Response(200, OkBody);
  }

  method LogListRoute(f: Forum, req: Request, verify: string -> Option<Claims>, page: Option<int>, limit: Option<int>)
    returns (resp: Response)
    modifies req`user
    ensures resp == LogListSpec(f.Tables(), RequestPrincipal(req, verify), page, limit)
  {
    var flow := StaffOnly(req, verify);
    if flow.Halt? {
      return flow.resp;
    }
    var db := f.Tables();
    var (p, l, offset) := Window(page, limit);
    var data := LogViews(db, LogSlice(db, l, offset));
    resp := Response(200, LogPageBody(data, p, l, |f.logs|));
  }
}
