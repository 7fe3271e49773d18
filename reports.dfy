/** be/src/routes/reports.js, mounted at /reports: filing a report about an
    idea or a comment. The target is not looked up. */
module Reports {
  import opened Common
  import opened Entities
  import opened Http
  import opened AuthMiddleware
  import opened Validator
  import opened Store

  /** The values the `target_type` ENUM column accepts. */
  function ParseTargetType(s: string): (r: Option<TargetType>)
    ensures r == Some(IdeaTarget) <==> s == "idea"
    ensures r == Some(CommentTarget) <==> s == "comment"
  {
    if s == "idea" then Some(IdeaTarget)
    else if s == "comment" then Some(CommentTarget)
    else None
  }

  /** The values the `reason` ENUM column accepts. */
  function ParseReason(s: string): (r: Option<ReportReason>)
    ensures r == Some(Spam) <==> s == "spam"
    ensures r == Some(Plagiarism) <==> s == "plagiarism"
    ensures r == Some(Abuse) <==> s == "abuse"
    ensures r == Some(OtherReason) <==> s == "other"
  {
    if s == "spam" then Some(Spam)
    else if s == "plagiarism" then Some(Plagiarism)
    else if s == "abuse" then Some(Abuse)
    else if s == "other" then Some(OtherReason)
    else None
  }

  /** `POST /reports`: one new row with `reporter_id = req.user.id`,
      `note ?? null` and the default status `open`; answers 201 `{ ok: true }`.
      The `z.enum` limits are not checked before the handler, so a
      `target_type` or `reason` outside the ENUM columns reaches the INSERT,
      which fails, and the error handler answers 500. */
  function FileReportSpec(db: Db, user: Option<Principal>, targetType: string, targetId: int,
                          reason: string, note: Option<string>, now: int): (o: Outcome)
    ensures user.None? ==> o == Outcome(db, Unauthorized)
    ensures user.Some? && (ParseTargetType(targetType).None? || ParseReason(reason).None?) ==>
              o == Outcome(db, Response(500, DriverErrorBody))
    ensures user.Some? && ParseTargetType(targetType).Some? && ParseReason(reason).Some? ==>
              var id := db.reports.next;
              && o.resp == Response(201, OkBody)
              && o.db == db.(reports := o.db.reports)
              && id in o.db.reports.rows
              && o.db.reports.rows[id]
                 == Report(user.value.id, ParseTargetType(targetType).value, targetId,
                           ParseReason(reason).value, note, Open, now)
              && (forall r :: r in db.reports.rows && r != id ==> r in o.db.reports.rows && o.db.reports.rows[r] == db.reports.rows[r])
              && (forall r :: r in o.db.reports.rows ==> r == id || r in db.reports.rows)
              && (Valid(db) ==> |o.db.reports.rows| == |db.reports.rows| + 1)
    ensures Valid(db) ==> Valid(o.db)
  {
    if user.None? then Outcome(db, Unauthorized)
    else
      var t := ParseTargetType(targetType);
      var why := ParseReason(reason);
      if t.None? || why.None? then Outcome(db, HandleError(DriverThrown))
      else
        var reports := db.reports.Insert(Report(user.value.id, t.value, targetId, why.value, note, Open, now));
        Outcome(db.(reports := reports), Response(201, OkBody))
  }

  /** A report about an idea that does not exist is stored all the same. */
  lemma ReportOnMissingTargetAccepted(db: Db, user: Principal, targetId: int, now: int)
    requires targetId !in db.ideas.rows
    ensures FileReportSpec(db, Some(user), "idea", targetId, "spam", None, now).resp.status == 201
    ensures FileReportSpec(db, Some(user), "idea", targetId, "spam", None, now).db.reports.rows[db.reports.next].targetId == targetId
  {
  }

  /** A report on a user passes the middleware and fails at the INSERT:
      500, and nothing is stored. */
  lemma UserTargetFailsAtInsert(db: Db, user: Principal, targetId: int, now: int)
    ensures FileReportSpec(db, Some(user), "user", targetId, "spam", None, now)
            == Outcome(db, Response(500, DriverErrorBody))
  {
  }

  method FileReportRoute(f: Forum, req: Request, verify: string -> Option<Claims>, schema: Schema,
                         targetType: string, targetId: int, reason: string,
                         note: Option<string>, now: int)
    returns (resp: Response)
    modifies f, req`user, req`body, req`params, req`query
    ensures Outcome(f.Tables(), resp)
            == FileReportSpec(old(f.Tables()), RequestPrincipal(req, verify), targetType, targetId, reason, note, now)
    ensures req.body == old(req.body) && req.params == old(req.params) && req.query == old(req.query)
  {
    var flow := RequireAuth(req, verify);
    if flow.Halt? {
      return flow.resp;
    }
    flow := Validate(req, BareZodObject(schema));
    BareObjectValidatesNothing(schema, Fields(old(req.body), old(req.params), old(req.query)));
    var t := ParseTargetType(targetType);
    var why := ParseReason(reason);
    if t.None? || why.None? {
      return HandleError(DriverThrown);
    }
    f.reports := f.reports.Insert(Report(req.user.value.id, t.value, targetId, why.value, note, Open, now));
    resp := Response(201, OkBody);
  }
}
