# Ruang Inovator forum: a Dafny model

Ruang Inovator is an idea-sharing forum. Its backend is an Express service over MySQL. Members register and log in with a bearer token. They post ideas, comment, like, and report content. Staff (the `admin` and `moderator` roles) work through a report queue and hide, delete, ban or restore, and every moderation step is logged. The frontend is a React application that talks to that API.

This project models both halves.

- **Backend.** The tables are values of type `Entities.Db`. `Store.Forum` is the database object whose fields the handlers change in place. Each route is a method on a `Forum` and a `Http.Request`. Its postcondition ties the new tables and the response to a specification function on `Db` values. The properties the routes promise are proved about those functions.
  - Middleware: token extraction, `requireAuth`, `maybeAuth` and the schema validator.
  - Routes: auth, ideas, comments, likes, reports, categories and admin.
  - The slug generator.
- **Frontend.** Pure computations are functions. Components that change state step by step are classes or methods with loops. These are the card and detail page of an idea, the home page, the profile page, the idea form, the toast centre, the sidebar and the HTTP client's interceptors.
- **Scenarios.** Lemmas in `Scenarios` chain several routes together.

Things the code calls but that are not visible are parameters of the model:

- `jwt.sign` and `jwt.verify`, `bcrypt`'s hash and compare, `slugify`, zod's `parse`;
- the full-text search hits and the 7-day like counts;
- the clock, and the build-time `VITE_API_BASE`.

The `requireRole` middleware lives in `be/src/middlewares/rbac.js`, which is not part of this model. It is assumed to let a role in the allowed list through and to answer 403 otherwise.

### Modelling choices

- Where the admin routes call `schema.parse` on the body directly, a ZodError has no `status`. The error handler of be/src/index.js therefore answers it with 500, not 400.
- `validate(z.object(...))`, as the auth, ideas, comments, reports and categories routes write it, hands `validate` an object without `body`, `params` or `query` keys. The middleware therefore checks nothing (`Validator.BareObjectValidatesNothing`). Body fields that reach INSERT or UPDATE statements with ENUM columns are therefore free strings; a value outside the ENUM is answered with 500, as for the report route's `target_type` and `reason`. Length limits are not preconditions either. The model does take body fields at the JSON types the handler uses (a string where it calls a string method, an integer id), and bodies with missing or mistyped fields are left out, as listed under Left out.
- `affectedRows` of an UPDATE counts matched rows. Hiding an idea that is already hidden therefore succeeds, and it is logged again.
- Assumed column defaults:
  - `users.is_active` 1;
  - `ideas.status` 'published', `comments.status` 'visible', `reports.status` 'open'.
- An idea status outside the ENUM makes the UPDATE fail under strict SQL mode, which is answered with 500.
- Strings are sequences of characters. Case mapping is ASCII only.

## Model

| member | source | states |
|---|---|---|
| Http.HandleError | be/src/index.js:99-103 | A thrown error is answered with its own non-zero status, else 500. The body is its message, or "Internal Server Error" when the message is empty. A ZodError and a driver error get 500. |
| Store.Forum.Restore | be/src/db.js:71-85 | The rollback of `withTransaction`: the tables become exactly the snapshot taken before the callback ran. |
| AuthMiddleware.GetToken | be/src/middlewares/auth.js:4-9 | The token is the text after "Bearer " when the header starts with it. Otherwise it is a truthy `access_token` cookie, otherwise absent. |
| AuthMiddleware.BearerRoundTrip | be/src/middlewares/auth.js:5-6 | A header `Bearer t` yields exactly `t`, whatever the cookie holds. |
| AuthMiddleware.Authenticate | be/src/middlewares/auth.js:13-16 | A principal exists iff the token is non-empty and verifies. Its id, role and email are the token's `sub`, `role` and `email`. |
| AuthMiddleware.RequestPrincipal | be/src/middlewares/auth.js:11-16 | The principal the request's own header or cookie yields. |
| AuthMiddleware.RequireAuth | be/src/middlewares/auth.js:11-21 | Without a verifying token the request halts with 401 "Unauthorized" and `req.user` is untouched. Otherwise it continues with `req.user` set to the principal. |
| AuthMiddleware.MaybeAuth | be/src/middlewares/auth.js:23-31 | The request always continues. `req.user` is set only for a verifying token and left as it was otherwise. |
| AuthMiddleware.RoleGate | be/src/routes/admin.js:11 | The assumed `requireRole`: it passes iff the role is in the allowed list, else 403. |
| Validator.Keys | be/src/utils/validator.js:4 | The destructuring `{ body, params, query }` finds no schema in a bare zod object and the three keys in a keyed argument. |
| Validator.Step | be/src/utils/validator.js:7-15 | One `parse`: absent schema, a parsed value replacing the field, a ZodError halting with 400 "Validation failed" and its issues, or another error passed to `next(e)`. |
| Validator.Failure | be/src/utils/validator.js:11-16 | A ZodError gives 400 "Validation failed" with its issues. Any other error is passed to `next(e)`. |
| Validator.ValidateSpec | be/src/utils/validator.js:4-17 | Body, then params, then query. A field without a schema is unchanged. The first field whose schema fails stops the chain: a ZodError gives 400 with its issues and any other error gives `next(e)`, fields parsed before it keep their parsed values, and later fields are untouched. If every present schema parses, the request continues with each parsed value in place of its field. |
| Validator.BareObjectValidatesNothing | be/src/utils/validator.js:4 | `validate(z.object(...))` continues with the request unchanged. |
| Validator.Validate | be/src/utils/validator.js:5-17 | The middleware on the request object leaves the flow and the three fields that `ValidateSpec` gives. |
| Slug.ToSlug | be/src/utils/slug.js:4-6 | The slug is a prefix of slugify's output, at most 180 characters. It is the whole output when the output fits and exactly 180 characters otherwise. |
| Slug.SlugBase | be/src/utils/slug.js:9 | The base is never empty: the slug, or "ide" when the slug is empty. |
| Slug.CandidateInjective | be/src/utils/slug.js:19-21 | Distinct suffixes give distinct probes `base-n`. |
| Slug.CandidateHasPrefix | be/src/utils/slug.js:10 | Every probe starts with its base, so the `LIKE 'base%'` query sees every probe that exists. |
| Slug.OtherSlugs | be/src/utils/slug.js:12-15 | The slugs of every idea except the excluded one, and no other string, where an id excludes only when it is non-zero: a slug is in the set iff some non-excluded idea holds it. |
| Slug.WithPrefix | be/src/utils/slug.js:10-13 | `LIKE 'base%'` keeps exactly the slugs that start with the base. |
| Slug.ExistingSlugs | be/src/utils/slug.js:10-17 | The set `exist` holds every other idea's slug that starts with the base, and only such slugs: each member is the slug of some non-excluded idea and starts with the base. |
| Slug.ProbesCard | be/src/utils/slug.js:20 | The probes `base-2` up to `base-(n-1)` are exactly `n - 2` distinct strings. |
| Slug.ProbesBound | be/src/utils/slug.js:20 | While every probe below `n` is taken, `n - 2` is at most the number of existing slugs, so the loop ends. |
| Slug.FreeSuffix | be/src/utils/slug.js:19-20 | The loop stops at the least `n >= 2` whose probe is free. All probes below it are taken. |
| Slug.UniqueSlug | be/src/utils/slug.js:18-21 | The answer is outside `exist`. It is the base when the base is free, else `base-n` with the least free `n`. |
| Slug.UniqueSlugIsLeast | be/src/utils/slug.js:19-21 | No free probe lies below the chosen suffix. |
| Slug.FreeSuffixPrefixFilter | be/src/utils/slug.js:10-21 | Searching for a free suffix among the prefix-filtered slugs ends where it ends among all slugs. |
| Slug.PrefixFilterHarmless | be/src/utils/slug.js:10-13 | Filtering by `LIKE 'base%'` never changes the answer. |
| Slug.ResaveKeepsSlug | be/src/utils/slug.js:11-18 | An idea whose slug is the base, with that idea excluded and no other idea holding the base, keeps the base. |
| Slug.UniqueSlugHasPrefix | be/src/utils/slug.js:18-21 | The answer always starts with the base. |
| Slug.FreshSlug | be/src/utils/slug.js:8-21 | The answer is the slug of no idea other than the excluded one. |
| Slug.UniqueIdeaSlug | be/src/utils/slug.js:8-22 | The method with its `while` loop returns `UniqueSlug` of the base over the slugs the query returns, a slug held by no other idea. |
| Entities.Insert | be/src/routes/auth.js:25-29 | An INSERT gives the new row the counter's id and moves the counter on; the other rows are unchanged. |
| Entities.LikeRows | be/src/routes/likes.js:11-18 | The rows of a like table counted for one target are exactly the pairs naming that target. |
| Entities.LikeCount | be/src/routes/likes.js:11-18 | `COUNT(*)` of a like table for one target is zero iff no pair points at it. |
| Entities.LikeCountInsert | be/src/routes/likes.js:35-36 | `INSERT IGNORE` of a pair raises its target's count by one iff the pair was new. Other targets keep their counts. |
| Entities.LikeCountRemove | be/src/routes/likes.js:48-49 | Deleting a pair lowers its target's count by one iff the pair was there. Other targets keep their counts. |
| Entities.LikeCountIsRows | be/src/routes/likes.js:11-18 | The count is the number of like rows for the target. |
| Entities.VisibleComments | be/src/routes/ideas.js:30 | The ids of the visible comments on one idea. |
| Entities.VisibleCommentCount | be/src/routes/ideas.js:30 | `COUNT(*)` of visible comments on an idea is zero iff none of its comments is visible. |
| Entities.RoleOf | be/src/routes/auth.js:62 | A user's role name through `JOIN roles`: present iff the user and their role row exist, and then it is the name of the user's role. |
| AuthRoutes.RegisterSpec | be/src/routes/auth.js:18-31 | A clashing email or username gives 409 and no change. Otherwise one user row is inserted with role 1 and active, and the answer is 201 with id, name and email. Validity is kept. |
| AuthRoutes.RegisterTwiceConflicts | be/src/routes/auth.js:21-22 | Registering the same email twice is refused the second time, and the second attempt stores nothing. |
| AuthRoutes.LoginRow | be/src/routes/auth.js:38-43 | `rows[0]` is an active user with that email whose role row exists. When there is none, no stored user is such a candidate. |
| AuthRoutes.LoginSpec | be/src/routes/auth.js:35-58 | An unknown or inactive email and a wrong password both give 401 "Invalid credentials". Otherwise the answer is 200 with a token signed over `{ sub, role, email }`, plus id, name and role. A 200 implies an active user with that email exists. |
| AuthRoutes.MeSpec | be/src/routes/auth.js:60-66 | Without a token the answer is 401. Otherwise it is 200. The body holds a row iff the user and role exist, and then it has the caller's id, display name, email and role name. Otherwise the body is empty (`rows[0]` is undefined). |
| AuthRoutes.RegisterRoute | be/src/routes/auth.js:18-31 | The handler on the store ends in `RegisterSpec`'s tables and response. |
| AuthRoutes.LoginRoute | be/src/routes/auth.js:35-58 | The handler answers `LoginSpec` and changes no table. |
| AuthRoutes.MeRoute | be/src/routes/auth.js:60-66 | The handler answers `MeSpec` for the principal of the request's credentials. |
| Likes.LikeIdeaSpec | be/src/routes/likes.js:25-41 | No token gives 401. A missing idea gives 404 "Idea not found" and no change. Otherwise only the idea-like table changes: the caller's pair is in it and no other pair changes. The answer is 201 `{ liked: true, likes }`, where likes is the new count, the old one plus one iff the caller had not liked it. |
| Likes.UnlikeIdeaSpec | be/src/routes/likes.js:43-54 | No token gives 401. Otherwise, with no existence check, exactly the caller's pair is removed. The answer is 200 `{ liked: false, likes }`, where likes is the old count minus one iff the pair was there. |
| Likes.LikeCommentSpec | be/src/routes/likes.js:61-75 | The same contract on comments, with 404 "Comment not found". Idea likes are untouched. |
| Likes.UnlikeCommentSpec | be/src/routes/likes.js:77-88 | The same contract on comment likes. Idea likes are untouched. |
| Likes.LikeIdeaIdempotent | be/src/routes/likes.js:34-35 | Liking twice stores and answers exactly what liking once does. |
| Likes.LikeThenUnlikeRestores | be/src/routes/likes.js:25-54 | For a user who had not liked the idea, like then unlike leaves the database as it was. The answer carries the original count. |
| Likes.LikeIdeaLeavesOtherCounts | be/src/routes/likes.js:35-36 | Liking one idea leaves every other idea's count. |
| Likes.CommentLikeLeavesIdeaCounts | be/src/routes/likes.js:61-88 | Liking or unliking a comment changes no idea's like count. |
| Likes.PostIdeaLike | be/src/routes/likes.js:25-41 | The handler behind `requireAuth` ends in `LikeIdeaSpec`'s tables and response. |
| Likes.DeleteIdeaLike | be/src/routes/likes.js:43-54 | The handler ends in `UnlikeIdeaSpec`'s tables and response. |
| Likes.PostCommentLike | be/src/routes/likes.js:61-75 | The handler ends in `LikeCommentSpec`'s tables and response. |
| Likes.DeleteCommentLike | be/src/routes/likes.js:77-88 | The handler ends in `UnlikeCommentSpec`'s tables and response. |
| Ideas.SlugColumn | be/src/utils/slug.js:11-16 | The slug column `uniqueIdeaSlug` queries holds exactly one entry per stored idea: that idea's slug. |
| Ideas.OrderOf | be/src/routes/ideas.js:22-24 | `popular7d` and `popularAll` pick their orders, each only for that exact value. Every other value, and no `sort`, orders by date. |
| Ideas.ListedIdeaIds | be/src/routes/ideas.js:17-36 | The filtered ids come in `ORDER BY` order: sorted by the key of the chosen order. |
| Ideas.ListedIdeaIdsExact | be/src/routes/ideas.js:17-20 | Every listed id is published, has a live author, is in the requested category and matches a truthy `q`. Every such idea is listed. |
| Ideas.ListRow | be/src/routes/ideas.js:27-31 | A row carries its idea's id, its like count and its 7-day count. |
| Ideas.ListRows | be/src/routes/ideas.js:26-40 | The rows are one per id, in the same order. |
| Ideas.ListWindow | be/src/routes/ideas.js:14-15 | The limit defaults to 10 and the page to 1, and the offset is `(page - 1) * limit`. No parameters give limit 10 and offset 0. |
| Ideas.ListSlice | be/src/routes/ideas.js:36-37 | `LIMIT`/`OFFSET` yields `limit` ids when that many matches remain past `offset`, else the rest, and none past the end. They are taken consecutively from position `offset` of the ordered matches, each matches the filter, and they are in key order. |
| Ideas.ListIdeasSpec | be/src/routes/ideas.js:12-42 | The answer is 500 iff the limit or the offset is negative. Otherwise the status is 200 and the body holds exactly the rows of that page: `limit` rows when that many matches remain past the offset, else the remaining ones. |
| Ideas.KeyOrder | be/src/routes/ideas.js:22-24 | Two ids in key order are in date order, or in 7-day or total like count order with ties broken by date. |
| Ideas.ListOrders | be/src/routes/ideas.js:22-24 | Any two rows of a 200 answer are in the order the `sort` value asks for, newest first on ties. |
| Ideas.NewSlugFresh | be/src/routes/ideas.js:53 | The slug a title receives is held by no idea outside the excluded one. |
| Ideas.CreateIdeaSpec | be/src/routes/ideas.js:50-61 | No token gives 401. Otherwise only the ideas table changes: one row with the caller as owner, `category_id ?? null`, status published and a slug no stored idea has. The answer is 201 with that row. Validity is kept. |
| Ideas.FindIdea | be/src/routes/ideas.js:71-76 | An all-digit key finds exactly idea `Number(key)` when it has a live author. Any other key finds an idea with that slug, or none exists. |
| Ideas.DetailSpec | be/src/routes/ideas.js:64-88 | 404 "Not Found" iff the key finds nothing. Otherwise 200 with the row, the author, the like and visible-comment counts, and `liked`. `liked` is false for an anonymous viewer. |
| Ideas.LikedBy | be/src/routes/ideas.js:77-86 | `liked` is true iff the viewer has a truthy id and their pair is in `idea_likes`. |
| Ideas.DigitKeyIgnoresSlugs | be/src/routes/ideas.js:71-74 | An all-digit key naming no idea gives 404, even when some idea's slug is that key. |
| Ideas.UserIdeaIds | be/src/routes/ideas.js:104-105 | The user's ids are newest first. |
| Ideas.UserIdeaIdsExact | be/src/routes/ideas.js:104 | The ids are exactly the user's ideas, of every status. |
| Ideas.UserIdeaRows | be/src/routes/ideas.js:113-118 | One row per id, in order. |
| Ideas.UserIdeasSpec | be/src/routes/ideas.js:94-126 | The public answer is 200 with one row per idea the user owns, in `UserIdeaIds` order. |
| Ideas.UserIdeasNewestFirst | be/src/routes/ideas.js:105 | Rows are newest first, and every row belongs to the user. |
| Ideas.ParseStatus | be/src/routes/ideas.js:133 | Exactly "published", "draft" and "hidden" name a status; any other value names none. |
| Ideas.OwnerGate | be/src/routes/ideas.js:139-143 | A missing idea gives 404. Otherwise the caller passes iff they own it or are staff, and else gets 403. |
| Ideas.Edited | be/src/routes/ideas.js:148-163 | The row after the UPDATE: title, description and status are `COALESCE`d, the slug is recomputed for a truthy title, and `category_id` is set outright. |
| Ideas.PatchIdeaSpec | be/src/routes/ideas.js:136-168 | No token gives 401, and the gate's answer is returned unchanged. A status outside the ENUM gives 500 and no change. A 200 changes only that idea's row and returns it. |
| Ideas.PatchIdeaEffect | be/src/routes/ideas.js:145-164 | On a successful PATCH, a given title, description or status replaces the old one, and an omitted one keeps its value. The category becomes the given one, and an omitted category becomes null. Owner and date stay. The slug changes only for a truthy title, and then it is `uniqueSlug` of that title excluding this idea: it starts with the title's base and clashes with no other idea. |
| Ideas.OwnerCanUnhide | be/src/routes/ideas.js:141-154 | The owner of a hidden idea can publish it again by PATCHing its status. |
| Ideas.PatchSameTitleKeepsSlug | be/src/routes/ideas.js:146 | Re-sending the title the slug came from keeps the slug when no other idea holds it. |
| Ideas.DeleteIdeaSpec | be/src/routes/ideas.js:170-181 | No token gives 401. The gate's 404 or 403 changes nothing. Otherwise exactly that row is removed and the answer is `{ ok: true }`. |
| Ideas.LikeAnywaySpec | be/src/routes/ideas.js:184-191 | No token gives 401. Otherwise the pair is added without any existence check, and the answer is 200 with the new count. |
| Ideas.LikeRoutesAgree | be/src/routes/ideas.js:184-191 | On an existing idea this route and `POST /likes/ideas/:id` store the same and count the same, with 200 and 201. On a missing idea only this route inserts, because the model has no foreign keys (see Left out). Repeating it changes nothing. |
| Ideas.LikeShowsOnDetail | be/src/routes/ideas.js:78-86 | After liking an idea, the viewer sees `liked` on `/ideas/<id>`. |
| Ideas.ListIdeasRoute | be/src/routes/ideas.js:12-42 | The handler behind `maybeAuth` answers `ListIdeasSpec` and changes no table. |
| Ideas.CreateIdeaRoute | be/src/routes/ideas.js:50-61 | The handler, with its looping `uniqueIdeaSlug`, ends in `CreateIdeaSpec`'s tables and response. |
| Ideas.DetailRoute | be/src/routes/ideas.js:64-88 | The handler answers `DetailSpec` for the viewer `maybeAuth` leaves. |
| Ideas.Viewer | be/src/routes/ideas.js:64 | The `req.user` that `maybeAuth` leaves: the principal from the token when it verifies, else the previous value. |
| Ideas.UserIdeasRoute | be/src/routes/ideas.js:94-126 | The handler answers `UserIdeasSpec`. |
| Ideas.PatchIdeaRoute | be/src/routes/ideas.js:136-168 | The handler ends in `PatchIdeaSpec`'s tables and response. |
| Ideas.DeleteIdeaRoute | be/src/routes/ideas.js:170-181 | The handler ends in `DeleteIdeaSpec`'s tables and response. |
| Ideas.PostLikeRoute | be/src/routes/ideas.js:184-191 | The handler ends in `LikeAnywaySpec`'s tables and response. |
| Ideas.DeleteLikeRoute | be/src/routes/ideas.js:193-200 | The handler ends where `DELETE /likes/ideas/:id` does. |
| Comments.ListedIds | be/src/routes/comments.js:16 | The listed ids are oldest first (`ORDER BY c.created_at ASC`). |
| Comments.ListedIdsExact | be/src/routes/comments.js:14-15 | Every listed id is a visible comment of the idea by an existing user. Every such comment is listed. |
| Comments.ViewOf | be/src/routes/comments.js:12-13 | A row carries the comment's id and its author's id. |
| Comments.Views | be/src/routes/comments.js:11-19 | One row per listed id, in order. |
| Comments.ListCommentsSpec | be/src/routes/comments.js:9-20 | Without authentication the answer is 200 with one row per listed comment, in `ListedIds` order. |
| Comments.HiddenCommentNotListed | be/src/routes/comments.js:15 | A hidden comment never appears in any idea's list. |
| Comments.CreateCommentSpec | be/src/routes/comments.js:24-35 | No token gives 401. Otherwise exactly one visible comment row is stored, with the caller as author and `parent_id ?? null`, whether or not the idea or parent exists. The answer is 201 with the row. Validity is kept. |
| Comments.CreatedCommentIsListed | be/src/routes/comments.js:24-35 | A new comment by an existing user is at once in its idea's list. |
| Comments.ListCommentsRoute | be/src/routes/comments.js:9-20 | The handler answers `ListCommentsSpec`. |
| Comments.CreateCommentRoute | be/src/routes/comments.js:24-35 | The handler ends in `CreateCommentSpec`'s tables and response. |
| Reports.ParseTargetType | be/src/routes/reports.js:9 | Exactly "idea" and "comment" are values of the `target_type` column. |
| Reports.ParseReason | be/src/routes/reports.js:11 | Exactly "spam", "plagiarism", "abuse" and "other" are values of the `reason` column. |
| Reports.FileReportSpec | be/src/routes/reports.js:15-24 | No token gives 401. `validate` checks nothing, so a `target_type` or `reason` outside the ENUM columns reaches the INSERT, which fails with 500 and no change. Otherwise exactly one new report row is added, by the caller, with `note ?? null` and status open. All other rows are kept, the row count grows by one, and the answer is 201 `{ ok: true }`. |
| Reports.ReportOnMissingTargetAccepted | be/src/routes/reports.js:17-20 | A report about an idea that does not exist is stored and answered 201. |
| Reports.UserTargetFailsAtInsert | be/src/routes/reports.js:9-20 | A report with `target_type` "user" passes the middleware, fails at the INSERT, and gets 500 with nothing stored. |
| Reports.FileReportRoute | be/src/routes/reports.js:15-24 | The handler ends in `FileReportSpec`'s tables and response. |
| Categories.ReplaceSpaceRuns | be/src/routes/categories.js:20 | `replace(/\s+/g, "-")` leaves no white space and never lengthens the text. A leading space becomes a leading "-", and any other first character is kept. |
| Categories.ReplaceNoSpace | be/src/routes/categories.js:20 | Text without white space is left unchanged. |
| Categories.TrimStartAppend | be/src/routes/categories.js:20 | Dropping leading white space from `a + c` only touches `a` when `a` ends in a non-space. |
| Categories.TrimStartSpaces | be/src/routes/categories.js:20 | An all-space prefix is consumed whole when what follows does not start with a space. |
| Categories.ReplaceAppend | be/src/routes/categories.js:20 | The replacement distributes over a cut made after a non-space character. |
| Categories.ReplaceOneRun | be/src/routes/categories.js:20 | One maximal run of white space between two pieces becomes exactly one "-". |
| Categories.CategorySlug | be/src/routes/categories.js:20 | The slug has no white space. A name that starts or ends with white space gives a slug that starts or ends with "-". |
| Categories.TrailingSpaceSlug | be/src/routes/categories.js:20 | Trailing white space leaves a trailing "-". |
| Categories.LastNonSpace | be/src/routes/categories.js:20 | The cut before a trailing run of white space: everything after it is white space and the character before it is not. |
| Categories.CodePoints | be/src/routes/categories.js:11 | The sort key of a name is its characters' code points. |
| Categories.CategoryOrder | be/src/routes/categories.js:11 | The ids are in `ORDER BY name` order. |
| Categories.CategoryOrderExact | be/src/routes/categories.js:11 | The order holds only stored categories and, for a valid table, every one of them. |
| Categories.CategoryRows | be/src/routes/categories.js:11-12 | One `(id, name, slug)` row per id, in order. |
| Categories.ListCategoriesSpec | be/src/routes/categories.js:10-13 | The public answer is 200 with one row per category id in name order. |
| Categories.ListCategoriesExact | be/src/routes/categories.js:10-13 | The list holds every category, and its names ascend. |
| Categories.CreateCategorySpec | be/src/routes/categories.js:17-24 | No token gives 401 and a role outside admin and moderator gives 403, both changing nothing. Otherwise one row is inserted with the name and its slug, and the answer is 201 `{ name, slug }`. |
| Categories.ListCategoriesRoute | be/src/routes/categories.js:10-13 | The handler answers `ListCategoriesSpec`. |
| Categories.CreateCategoryRoute | be/src/routes/categories.js:17-24 | The handler, in the order `requireAuth`, `requireRole`, then `validate`, ends in `CreateCategorySpec`'s tables and response. |
| Admin.StaffGate | be/src/routes/admin.js:11 | The gate lets a caller through iff they are signed in with role admin or moderator. No token gives 401 and any other role 403. |
| Admin.StaffOnly | be/src/routes/admin.js:11 | The middleware pair halts with the gate's answer, or continues with `req.user` set to the principal. |
| Admin.ClampPage | be/src/routes/admin.js:46 | The page is at least 1: a given page of 1 or more is kept, and anything else becomes 1. |
| Admin.ClampLimit | be/src/routes/admin.js:47 | The limit lies in 1..100 and defaults to 20. Values inside are kept, and outside ones go to the nearer bound. |
| Admin.Window | be/src/routes/admin.js:46-48 | The clamped page and limit, and `offset = (page - 1) * limit`. |
| Admin.ParseReportStatus | be/src/routes/admin.js:74 | Exactly the four ENUM names parse, each to the status stored under that name. |
| Admin.QueueIds | be/src/routes/admin.js:55 | The queue ids are newest first. |
| Admin.QueueIdsSound | be/src/routes/admin.js:53-54 | Every queued id is a report in the requested status whose reporter exists. |
| Admin.QueueIdsExact | be/src/routes/admin.js:53-54 | For a valid database, every such report is queued. |
| Admin.ReportViews | be/src/routes/admin.js:51 | One row per id, with the report and the reporter's name. |
| Admin.QueueSlice | be/src/routes/admin.js:55-57 | `limit` ids when that many remain past `offset`, else the rest. They are taken consecutively from position `offset` of the queue, each queued, and newest first. |
| Admin.QueueNewestFirst | be/src/routes/admin.js:55 | Within a page, an earlier report is at least as recent as a later one. |
| Admin.QueueStatus | be/src/routes/admin.js:45 | An absent or empty status means open; any other value is read as given. |
| Admin.ReportQueueSpec | be/src/routes/admin.js:43-64 | The gate's answer goes out unchanged. Otherwise the answer is 200 with the clamped page and limit. A status no report can hold gives an empty page with total 0. For a real status, the rows are that page, `limit` of them when that many remain past the offset, and the total counts every report in that status. |
| Admin.StatusCount | be/src/routes/admin.js:59-60 | The total counts every report in the status, with no join. |
| Admin.QueueDefaultsToOpen | be/src/routes/admin.js:45 | Without a status the queue answers what `status=open` answers, with total the number of open reports. |
| Admin.SetReportStatusSpec | be/src/routes/admin.js:70-84 | The gate's answer goes out unchanged. A missing or unknown status gives 500, an unknown id 404 "Report not found", both changing nothing. Otherwise only that report's status changes, and the answer is `{ ok: true }`. |
| Admin.ReportStatusFree | be/src/routes/admin.js:70-84 | Any status may follow any other: two updates end in the second, with the rest of the report kept. |
| Admin.Apply | be/src/routes/admin.js:101-109 | Each action fails iff its target row is missing (the `affectedRows === 0` throw). Otherwise it sets exactly the hidden, published, active or inactive status, or deletes exactly that row. The log is untouched. |
| Admin.ModerateSpec | be/src/routes/admin.js:90-121 | The gate's answer goes out unchanged. A body outside the route's enum, or a reason over 255 characters, gives 500. A missing target gives 404 with the route's message. Any non-200 answer leaves the database as it was, the rollback. Success applies the action and appends exactly one log row with actor, action, target type, id and `reason ?? null`. |
| Admin.UnhidePublishesDraft | be/src/routes/admin.js:104-106 | `unhide_idea` publishes a draft too. |
| Admin.RehideLogsAgain | be/src/routes/admin.js:101-103 | Hiding an already hidden idea succeeds again, leaves the ideas as they were and adds a second log row. |
| Admin.SelfBanAllowed | be/src/routes/admin.js:172-174 | Nothing protects staff: a staff user can ban their own account. |
| Admin.WrongActionWritesNothing | be/src/routes/admin.js:128-134 | An action from another route's enum is refused with 500 before anything is written. |
| Admin.ActorLogIds | be/src/routes/admin.js:203 | The log ids whose actor still exists, and every such id. |
| Admin.LogIds | be/src/routes/admin.js:204 | The log ids are newest first. |
| Admin.LogIdsSound | be/src/routes/admin.js:203 | Every listed log id has an existing actor. |
| Admin.LogIdsExact | be/src/routes/admin.js:203 | Every log row with an existing actor is listed. |
| Admin.LogSlice | be/src/routes/admin.js:204-206 | `limit` ids when that many remain past `offset`, else the rest. They are taken consecutively from position `offset` and are each logged, newest first. |
| Admin.LogNewestFirst | be/src/routes/admin.js:204 | Within a page, an earlier row is at least as recent as a later one. |
| Admin.LogViews | be/src/routes/admin.js:201 | One row per id, with the log row and its actor's name. |
| Admin.LogListSpec | be/src/routes/admin.js:194-213 | The gate's answer goes out unchanged. Otherwise the answer is 200 with the clamped page and limit, that page of rows (`limit` of them when that many remain), and a total of every log row, joined or not. |
| Admin.ModerationCounted | be/src/routes/admin.js:111-114 | A successful moderation raises the log list's total by exactly one. |
| Admin.ReportQueueRoute | be/src/routes/admin.js:43-64 | The handler answers `ReportQueueSpec` and changes no table. |
| Admin.SetReportStatusRoute | be/src/routes/admin.js:70-84 | The handler ends in `SetReportStatusSpec`'s tables and response. |
| Admin.BodyParses | be/src/routes/admin.js:91-94 | `schema.parse` succeeds iff the action is one of the route's and the reason is absent or at most 255 characters. |
| Admin.ModerationBody | be/src/routes/admin.js:100-115 | The transaction callback throws the route's 404 iff the action matches no row. Otherwise the tables become the action's result plus one log row. |
| Admin.ModerateRoute | be/src/routes/admin.js:90-189 | The handler, with its snapshot and rollback, ends in `ModerateSpec`'s tables and response. |
| Admin.LogListRoute | be/src/routes/admin.js:194-213 | The handler answers `LogListSpec`. |
| Scenarios.BannedUserCannotLogIn | be/src/routes/admin.js:172-174 | Once the only account with an email is banned, logging in with that email gives 401 "Invalid credentials" whatever the password (the `is_active = 1` filter of be/src/routes/auth.js:40). |
| Scenarios.UnbanRestoresAccount | be/src/routes/admin.js:172-178 | Banning then unbanning an active account leaves the users table as it was and writes two log rows. |
| Scenarios.HiddenCommentLeavesList | be/src/routes/admin.js:138-140 | A comment hidden by staff is at once absent from its idea's public comment list. |
| Scenarios.UnpublishedNotListed | be/src/routes/ideas.js:17 | No row of the idea list is an idea that is not published. |
| Scenarios.HiddenIdeaOffListOnDetail | be/src/routes/admin.js:101-103 | A hidden idea leaves `GET /ideas` but `GET /ideas/<id>` still answers 200, because the detail query of be/src/routes/ideas.js:66-73 has no status filter. |
| Scenarios.FailedModerationWritesNothing | be/src/db.js:79-81 | A moderation whose target is missing answers 404 and leaves every table, the log included, as it was. |
| Scenarios.LoginTokenAuthenticates | be/src/routes/auth.js:47-56 | When `verify` accepts what `sign` signs, the token a login returns, sent back as `Bearer <token>`, authenticates as the user who logged in, with their id and role. |
| AssetUrl.ApiBase | fe/src/components/IdeaCard.jsx:101 | The base is `VITE_API_BASE` when truthy, else "http://localhost:3001". |
| AssetUrl.StripLeadingSlashes | fe/src/components/IdeaCard.jsx:102 | `replace(/^\/+/, "")` leaves a suffix of the text that does not start with "/". Text that does not start with "/" is unchanged. The helper applies it only to such text, so there it changes nothing. It is kept because `toAbsoluteUrl` writes it. |
| AssetUrl.ToAbsoluteUrl | fe/src/components/IdeaCard.jsx:98-104 | The result is null iff the path is falsy, "null" or "undefined". An http(s) URL is returned unchanged. Any other path follows the base: as it is when it starts with "/" (so "//x" gives the base and "//x"), else after one added "/". Either way a "/" follows the base directly. |
| AssetUrl.ToAbsoluteUrlIdempotent | fe/src/components/IdeaCard.jsx:98-104 | With an http(s) base, applying the helper to its own result changes nothing. |
| AssetUrl.AvatarUrl | fe/src/pages/Me.jsx:66-75 | An avatar path that is nullish shows the base followed by "/uploads/default-gambar.webp". Any other path shows its absolute URL. |
| IdeaCard.LikesCount | fe/src/components/IdeaCard.jsx:9 | `total_likes ?? likes ?? 0`: the first present field wins, 0 included. |
| IdeaCard.CommentsCount | fe/src/components/IdeaCard.jsx:8 | `total_comments ?? comments_count ?? 0`: the first present field wins. |
| IdeaCard.CategoryLabel | fe/src/components/IdeaCard.jsx:29 | The label is the category when truthy, else "Posting". |
| IdeaCard.LikesHighlighted | fe/src/components/IdeaCard.jsx:51 | The likes stat is highlighted iff the count is positive. |
| IdeaCard.Thumbnail | fe/src/components/IdeaCard.jsx:4-5 | The figure is shown iff the thumbnail path is not nullish. |
| IdeaCard.IdText | fe/src/components/IdeaCard.jsx:34 | A non-negative id renders as its decimal digits. |
| IdeaCard.DetailKey | fe/src/components/IdeaCard.jsx:34 | As written, the link key is the slug when truthy, else the id. |
| IdeaCard.DetailPath | fe/src/components/IdeaCard.jsx:34 | Both links go to `/ideas/` followed by that key. |
| IdeaCard.ListCardShowsRowCounts | fe/src/components/IdeaCard.jsx:8-9 | A card built from a `GET /ideas` row shows the row's own counts, 0 included. It is highlighted iff the idea has a like, as at line 51, and has no thumbnail. |
| IdeaCard.DigitSlugLinkMisses | fe/src/components/IdeaCard.jsx:34 | As written, the card of idea 1 whose slug is "42" links to `/ideas/42`. With no idea 42, the detail route answers 404. |
| IdeaCard.ResolvingDetailKey | fe/src/components/IdeaCard.jsx:34 | Corrected key: the slug unless it is empty or all digits, else the id. |
| IdeaCard.ResolvingKeyFindsIdea | fe/src/components/IdeaCard.jsx:34 | With the corrected key, the card of any stored idea whose slug no other idea shares opens that idea with 200. |
| IdeaDetailPage.Optimistic | fe/src/pages/IdeaDetail.jsx:41-49 | Before the answer, the click flips the flag and moves the count by one: up for a like, down but never below 0 for an unlike. |
| IdeaDetailPage.ReplyOf | fe/src/pages/IdeaDetail.jsx:44-52 | axios yields the `{ liked, likes }` body iff the status is 2xx with a like body. Anything else is a rejection. |
| IdeaDetailPage.DetailPage.constructor | fe/src/pages/IdeaDetail.jsx:8-14 | The initial state: no idea, count 0, not liked, empty draft, not submitting. |
| IdeaDetailPage.DetailPage.Load | fe/src/pages/IdeaDetail.jsx:17-23 | Loading stores the idea, the count `total_likes`, or 0 when it is falsy, and the flag `Boolean(liked)`. |
| IdeaDetailPage.DetailPage.Flip | fe/src/pages/IdeaDetail.jsx:41-49 | The state becomes `Optimistic` of the state before, and the count stays non-negative. |
| IdeaDetailPage.DetailPage.HandleLike | fe/src/pages/IdeaDetail.jsx:35-59 | Without an idea nothing is sent or changed. Otherwise an unlike is sent when the idea was liked and a like otherwise. A 2xx answer sets the server's flag and count. A failure rolls back to the snapshot taken before the click. |
| IdeaDetailPage.DetailPage.SubmitComment | fe/src/pages/IdeaDetail.jsx:61-75 | Nothing is sent without an idea or with a draft that is blank once trimmed. Otherwise the trimmed draft is sent, the draft is cleared only on success, and `submitting` ends false. |
| IdeaDetailPage.LikeRoundTrip | fe/src/pages/IdeaDetail.jsx:44-52 | Signed in, the like (`POST /ideas/:id/like`) and unlike routes answer so that the page ends with the flipped flag and the server's count. Signed out, both are rejections and the page rolls back. |
| IdeaDetailPage.Words | fe/src/pages/IdeaDetail.jsx:222-223 | `split(" ").filter(Boolean)` keeps only non-empty pieces, never more than there were. |
| IdeaDetailPage.Initials | fe/src/pages/IdeaDetail.jsx:218-232 | The initials are one or two characters: the upper-cased first letters of the first two words, or "?" when there is no word. |
| IdeaDetailPage.InitialsIgnoreSpace | fe/src/pages/IdeaDetail.jsx:221-226 | A space before or after the name leaves the initials unchanged. |
| IdeaDetailPage.WordsAppend | fe/src/pages/IdeaDetail.jsx:223 | The filter distributes over concatenation. |
| IdeaDetailPage.SplitTrailing | fe/src/pages/IdeaDetail.jsx:222-223 | A trailing separator adds no word. |
| IdeaDetailPage.SplitTrailingShape | fe/src/pages/IdeaDetail.jsx:222 | Splitting `s + " "` gives the pieces of `s` and one more empty piece. |
| Home.ReadQuery | fe/src/pages/Home.jsx:16-18 | `q` and `sort` are the address values when truthy, else "" and "new". The page is the given number, else 1. |
| Home.ListRequest | fe/src/pages/Home.jsx:24 | The page asks `GET /ideas` for its own page, with limit 8 and no category. |
| Home.ServerHonoursRequest | fe/src/pages/Home.jsx:24 | A ListRequest that reaches `GET /ideas` has these properties. Sort "new" orders newest first, and an empty `q` adds no search condition. The window is limit 8 at offset `(page - 1) * 8`. The answer is 200 iff the page is at least 1. It then holds 8 rows when that many matching ideas remain past the offset, else the rest. |
| Home.FieldText | fe/src/pages/Home.jsx:69-71 | A field's search text is its lowercased value when truthy, else "", and keeps the field's length. |
| Home.Matching | fe/src/pages/Home.jsx:68-73 | The filter keeps exactly the items whose text contains the term, never adding one. |
| Home.MatchingAppend | fe/src/pages/Home.jsx:68 | Filtering a concatenation filters each part, so the items keep their relative order. |
| Home.NoneMatching | fe/src/pages/Home.jsx:68-73 | Items none of which matches filter to nothing. |
| Home.FilteredItems | fe/src/pages/Home.jsx:65-74 | A term that is empty once trimmed and lowercased shows the page as it came. Otherwise only the matching items are shown. |
| Home.BlankSearchKeepsAll | fe/src/pages/Home.jsx:66-67 | A search of spaces only hides nothing. |
| Home.ItemHaystack | fe/src/pages/Home.jsx:72 | For a list row, which has no summary, the search looks at the title and the author with an empty middle field. |
| Home.HasPrev | fe/src/pages/Home.jsx:76 | Prev is offered iff the page is above 1. |
| Home.HasNext | fe/src/pages/Home.jsx:77 | Next is offered iff the server sent a full page of 8. |
| Home.PrevLink | fe/src/pages/Home.jsx:199 | Prev keeps `q` and `sort` and goes to `max(1, page - 1)`. |
| Home.NextLink | fe/src/pages/Home.jsx:206 | Next keeps `q` and `sort` and goes to `page + 1`. |
| Home.NextThenPrev | fe/src/pages/Home.jsx:199-206 | Next then Prev returns to the same page, from page 1 on. |
| Home.OnSearch | fe/src/pages/Home.jsx:150 | Typing a search keeps the sort and goes back to page 1. |
| Home.OnSort | fe/src/pages/Home.jsx:162 | Picking a sort keeps the search and goes back to page 1. |
| Home.NextIgnoresSearch | fe/src/pages/Home.jsx:77 | A full page whose every item the search hides shows no card and still offers Next. |
| Home.WelcomeName | fe/src/pages/Home.jsx:58 | The greeting uses the profile name, then the user's display name, then the username, then "Guest". The first truthy one wins, and the result is never empty. |
| Home.Subtitle | fe/src/pages/Home.jsx:59-63 | The bio when truthy. Otherwise a visitor sees the sign-in invitation and a signed-in user the fixed encouragement. |
| Home.SortLabel | fe/src/pages/Home.jsx:97 | "Terbaru" iff the sort is new, "Populer 7D" iff popular7d, and "Populer" for every other value. |
| Home.HomeAvatar | fe/src/pages/Home.jsx:55-57 | A present profile avatar is used, even a nullish one. Only a missing one falls to the user's avatar. |
| Home.NullTextAvatarShowsDefault | fe/src/pages/Home.jsx:56-57 | A profile avatar that is the text "null" shows the default image, whatever the user's avatar. |
| Me.ValidateProfile | fe/src/pages/Me.jsx:26-32 | The error map has only the three keys. A name error is present iff the trimmed name is under 3 characters, and a bio error iff the bio is over 500. An avatar error is present iff a chosen file is not `image/*` or is over 2 MB, and the size message wins over the type message. Each error carries its page message. |
| Me.Submit | fe/src/pages/Me.jsx:26-39 | The form is sent iff every check passes, iff the error map is empty. It holds `display_name` and `bio` in that order, then `avatar` exactly when a file was chosen. |
| Me.Handle | fe/src/pages/Me.jsx:85 | The handle is a truthy username. Otherwise it is the part of the email before its first "@": a prefix with no "@", followed in the email by "@" when shorter. |
| Me.HandleWithoutAt | fe/src/pages/Me.jsx:85 | An email with no "@" is its own handle. |
| Toast.Configure | fe/src/context/ToastContext.jsx:17-23 | The toast carries the new id. Type, title and description are the truthy payload values, else "info", "" and "". The duration is the payload's number, else 4000. |
| Toast.Forced | fe/src/context/ToastContext.jsx:42 | `{ ...payload, type }` replaces only the type. |
| Toast.HelperTypeWins | fe/src/context/ToastContext.jsx:42-48 | Whatever type the payload names, a helper's toast has the helper's type. |
| Toast.StyleOf | fe/src/context/ToastContext.jsx:72 | Each of the three known types gets its own style iff it is named. Every other type is drawn with the info style. |
| Toast.HasTimer | fe/src/context/ToastContext.jsx:30-32 | Only a toast with a finite duration gets a removal timer. |
| Toast.Without | fe/src/context/ToastContext.jsx:11 | The filter keeps exactly the toasts with another id and adds none. |
| Toast.WithoutUnknown | fe/src/context/ToastContext.jsx:11 | Removing an id no toast has changes nothing. |
| Toast.WithoutAppend | fe/src/context/ToastContext.jsx:11 | Filtering works piece by piece, so the order is kept. |
| Toast.WithoutAbove | fe/src/context/ToastContext.jsx:11 | A lower bound on the ids of the list holds for what the filter keeps. |
| Toast.WithoutIncreasing | fe/src/context/ToastContext.jsx:11 | Removal keeps the ids increasing. |
| Toast.ShowThenRemove | fe/src/context/ToastContext.jsx:10-26 | Showing a toast and removing it by the returned id leaves the list as it was. |
| Toast.ToastCenter.constructor | fe/src/context/ToastContext.jsx:5-8 | The counter starts at 0 and the list empty. |
| Toast.ToastCenter.ShowToast | fe/src/context/ToastContext.jsx:14-26 | The counter moves up by one and is returned. The configured toast is appended, above every id before it, and ids stay increasing and no higher than the counter. |
| Toast.ToastCenter.ShowTyped | fe/src/context/ToastContext.jsx:42-48 | A helper appends the toast of the forced payload, which has the helper's type. |
| Toast.ToastCenter.RemoveToast | fe/src/context/ToastContext.jsx:10-12 | The list becomes `Without` of the old list, and the counter and the invariant are kept. |
| Sidebar.Links | fe/src/components/Sidebar.jsx:9-26 | A visitor gets Home, Login and Register. A signed-in user gets Home, Unggah Ide and Profil, plus an /admin link when their role is admin or moderator. The link is captioned "Admin" exactly for an admin and "Moderator" exactly for a moderator. |
| Sidebar.AdminLinkMatchesGate | fe/src/components/Sidebar.jsx:16 | The sidebar offers the admin page to a role exactly when the staff gate of the admin routes lets that role through. |
| Sidebar.ShowsLogout | fe/src/components/Sidebar.jsx:42 | The Logout button is shown iff a user is signed in. |
| IdeaForm.ToNumber | fe/src/pages/IdeaForm.jsx:17 | `Number(categoryId)`: blank text is 0, a trimmed digit string is its value, and any other integer result comes from text that holds a digit. |
| IdeaForm.TrimDigits | fe/src/pages/IdeaForm.jsx:17 | A digit string is unchanged by `trim`. |
| IdeaForm.ToNumberRendered | fe/src/pages/IdeaForm.jsx:17 | `Number` of a rendered natural number gives that number back. |
| IdeaForm.CategoryField | fe/src/pages/IdeaForm.jsx:17 | An empty field sends null. A non-empty field sends its number iff `Number` gives one, and null for `NaN`. |
| IdeaForm.BlankCategorySendsZero | fe/src/pages/IdeaForm.jsx:17 | A field holding one space is truthy and sends category 0, not null. |
| IdeaForm.CategoryHint | fe/src/pages/IdeaForm.jsx:25-29 | Each of the three hints is shown iff its case holds: an empty field, a value that is not a number, or a number. |
| IdeaForm.HintMatchesPayload | fe/src/pages/IdeaForm.jsx:17-29 | The confirm hint is shown exactly when the body carries a category id. |
| IdeaForm.TitleCount | fe/src/pages/IdeaForm.jsx:23 | The counter never exceeds the typed length. |
| IdeaForm.DescriptionCount | fe/src/pages/IdeaForm.jsx:24 | The counter never exceeds the typed length. |
| IdeaForm.StartSubmit | fe/src/pages/IdeaForm.jsx:14-18 | Loading is set. The body carries the title and description as typed and the category field's value. |
| IdeaForm.NavTarget | fe/src/pages/IdeaForm.jsx:19 | The page is `/ideas/` followed by the slug when it is not empty, else the id. |
| IdeaForm.FinishSubmit | fe/src/pages/IdeaForm.jsx:19-20 | Loading is cleared on both paths and the fields are kept. A page opens iff the idea was created, and it is the NavTarget of the reply. |
| IdeaForm.SubmitSettles | fe/src/pages/IdeaForm.jsx:12-21 | After a whole submit, whatever the reply, the form is not loading and keeps its fields. |
| IdeaForm.Reset | fe/src/pages/IdeaForm.jsx:86-90 | All three fields are cleared and loading is untouched. The counters read 0 and the hint is the optional one. |
| IdeaForm.CreatedIdeaNavigation | fe/src/pages/IdeaForm.jsx:16-19 | For a signed-in user, the create route answers 201 and stores the category the form sent. The page the form opens is the one a home card links to for that idea. |
| ApiClient.Storage.constructor | fe/src/api/axios.js:10 | The browser storage holds the given items. |
| ApiClient.Storage.GetItem | fe/src/api/axios.js:10 | `getItem` gives the stored value iff the key is present, and null otherwise. |
| ApiClient.Storage.RemoveItem | fe/src/api/axios.js:28-29 | Exactly the given key is removed. |
| ApiClient.RequestConfig.constructor | fe/src/api/axios.js:9-13 | The config holds the given headers and the FormData flag. |
| ApiClient.Rewritten | fe/src/api/axios.js:10-18 | A truthy stored token sets `Authorization: Bearer <token>`, else that header is left alone. A JSON request without a truthy Content-Type gets application/json. A form request loses a truthy Content-Type. Every other header is unchanged. |
| ApiClient.InterceptRequest | fe/src/api/axios.js:9-21 | The config's headers become Rewritten of the old headers, the stored token and the FormData flag. |
| ApiClient.RewrittenIdempotent | fe/src/api/axios.js:9-21 | Intercepting an already intercepted request changes nothing. |
| ApiClient.ServerSeesStoredToken | fe/src/api/axios.js:11 | The backend's token extraction reads the stored token back from the header the client wrote, whatever the cookie holds. |
| ApiClient.OnResponseError | fe/src/api/axios.js:26-32 | On a 401, token and user are removed from storage, and nothing else. Any other error leaves storage unchanged. The error is always rejected. |
| ApiClient.NoTokenAfterUnauthorized | fe/src/api/axios.js:10-11 | After the 401 clean-up, a request that had no Authorization header still goes out without one. |
| Common.OrElse | be/src/middlewares/auth.js:5 | JavaScript's logical or on optional strings: a truthy left side is kept, anything else gives the right side. |
| Common.Coalesce | be/src/routes/ideas.js:157-161 | `a ?? b`: only a missing left side falls through to the right. |
| Common.LowerChar | fe/src/pages/Home.jsx:66 | An ASCII capital maps to its small letter, and every other character is kept. White space stays white space. |
| Common.UpperChar | fe/src/pages/IdeaDetail.jsx:225 | An ASCII small letter maps to its capital, and every other character is kept. |
| Common.ToLower | fe/src/pages/Home.jsx:66-71 | `toLowerCase` keeps the length and maps each character. |
| Common.ToLowerAppend | fe/src/pages/Home.jsx:72 | Lower-casing distributes over concatenation. |
| Common.TrimStart | fe/src/pages/Home.jsx:66 | Only leading white space is dropped, and the result does not start with white space. |
| Common.TrimEnd | fe/src/pages/Home.jsx:66 | Only trailing white space is dropped, and the result does not end with white space. |
| Common.Trim | fe/src/pages/IdeaDetail.jsx:63-64 | `trim` gives the slice of the input left after dropping white space at both ends: everything before it and after it is white space, and it neither starts nor ends with white space. |
| Common.Split | fe/src/pages/IdeaDetail.jsx:222 | `split` on one character gives at least one piece, and no piece holds the separator. |
| Common.SplitJoin | fe/src/pages/IdeaDetail.jsx:222 | Joining the pieces with the separator gives the string back. |
| Common.BeforeFirst | fe/src/pages/Me.jsx:85 | The text before the first separator: a prefix without the separator, followed in the input by the separator or by nothing. |
| Common.SplitHeadIsBeforeFirst | fe/src/pages/Me.jsx:85 | `s.split(sep)[0]` is the text before the first separator. |
| Common.NatToString | fe/src/components/IdeaCard.jsx:34 | A template literal renders a number as a non-empty digit string. |
| Common.ParseNatToString | fe/src/components/IdeaCard.jsx:34 | Parsing the rendering gives the number back. |
| Common.NatToStringInjective | fe/src/components/IdeaCard.jsx:34 | Distinct numbers render differently. |
| Sorting.LexLeTotal | be/src/routes/ideas.js:36 | The key order is total. |
| Sorting.LexLeTrans | be/src/routes/ideas.js:36 | The key order is transitive. |
| Sorting.Insert | be/src/routes/ideas.js:36 | Inserting into sorted rows keeps them sorted and adds the one row. |
| Sorting.SortBy | be/src/routes/ideas.js:36 | `ORDER BY` gives the rows sorted by the key, as a permutation of the input. |
| Sorting.SortByMembers | be/src/routes/comments.js:16 | Ordering keeps exactly the rows it was given. |
| Sorting.Page | be/src/routes/ideas.js:37 | `LIMIT n OFFSET k` gives n rows when n rows remain past k, else the rest, and none when k is past the end. They are the rows from position k on, in order. |
| Sorting.PageLength | be/src/routes/ideas.js:37 | The number of rows `LIMIT limit OFFSET offset` keeps of n rows. |
| Entities.TableIds | be/src/routes/categories.js:11 | A scan yields every id of the table, in ascending order, and nothing else. |
| Entities.Where | be/src/routes/comments.js:11-16 | A WHERE clause keeps exactly the scanned rows that satisfy it. |
| Entities.Select | be/src/routes/comments.js:11-16 | Every selected row is in the table and satisfies the condition. On a well-formed table every such row is selected. |
| Http.Request.constructor | be/src/middlewares/auth.js:5-7 | A new request has its credentials, body, params and query, and no user yet. |

## Left out

- Connection handling in be/src/db.js is left out: the pool, its re-creation and retry, and the health check and shutdown. Each query is a step on the modelled tables, and `withTransaction` is a snapshot and restore.
- be/src/index.js is framework wiring (CORS list, cookie and JSON parsers, static files, router mounting) and is not modelled. Only its error handler is modelled, as `Http.HandleError`. The 404 fallback, which answers any unmatched path with 404 `{ error: "Not Found" }`, is routing and is left out.
- `jwt.sign`, `jwt.verify`, `bcrypt`, `slugify`, zod's `parse`, the clock and the environment are foreign code. They are parameters of the model.
- be/src/middlewares/rbac.js is not part of this model. Its `requireRole` gate is assumed, as `AuthMiddleware.RoleGate` states.
- MySQL full-text ranking (`MATCH ... AGAINST`) and the 7-day window on likes are not computed. The hits, their order and the recent like counts are inputs.
- The admin overview route and its fallback when the summary view is missing are not modelled. They are aggregate reporting queries over views outside the modelled tables.
- The fallback on `ER_BAD_FIELD_ERROR` and the image and thumbnail columns are not modelled. They depend on the deployed schema, which is not visible.
- `parseInt` of a page or limit that is not a number gives `NaN`, and `Math.max` passes that through. The model takes the query value as an optional integer, so this path is not represented.
- ListIdeasSpec: `page` and `limit` are taken as optional integers. A query value that is not a number makes `Number(page)` or `Number(limit)` `NaN` (be/src/routes/ideas.js:14-15), and that query is not represented.
- RegisterSpec: the fields of the body are taken as strings. A missing or non-string `password` makes `bcrypt.hash` throw (be/src/routes/auth.js:24), which the error handler answers with 500. The model cannot express that body.
- LoginSpec: `email` and `password` are taken as strings. A body with other JSON types, which the bare validator lets through, is not represented.
- CreateIdeaSpec: `title` and `description` are taken as strings and `category_id` as an optional integer. A non-string title makes the slug helper throw (be/src/routes/ideas.js:53) and gets 500. That body is not represented.
- PatchIdeaSpec: `title` and `description` are taken as optional strings and `category_id` as an optional integer. A truthy non-string title makes the slug helper throw (be/src/routes/ideas.js:146) and gets 500. That body is not represented.
- CreateCommentSpec: `content` is taken as a string and `parent_id` as an optional integer. A body with other JSON types is not represented (be/src/routes/comments.js:27-30).
- BodyParses: `z.string().max(255)` counts UTF-16 code units, but the model counts characters (`|reason|`), so a reason with characters outside the Basic Multilingual Plane may pass here and fail in the route; strings are sequences of characters throughout the model.
- CreateCategorySpec: `name` is taken as a string. A non-string name makes `name.toLowerCase()` throw (be/src/routes/categories.js:20) and gets 500. That body is not represented.
- FileReportSpec: `target_id` is taken as an integer and `note` as an optional string. Other JSON types reach the INSERT, where MySQL's coercion or rejection is not modelled. `target_type` and `reason` are free strings and are modelled in full.
- `toLowerCase` and `toUpperCase` map ASCII only. Unicode case mapping and collation-aware comparison in SQL are not modelled.
- Foreign keys, their cascades and the uniqueness constraints of the real schema are not modelled. So a like through the ideas router, a comment or a report on a missing row is stored, where the real schema may reject it. A unique email or idea slug is what the routes check before inserting; categories are not checked, so a duplicate category slug is stored. The race between that check and the insert is concurrency and is left out.
- `ORDER BY` on equal keys is nondeterministic in SQL. `Sorting.SortBy` fixes one stable order.
- The profile page sends `PATCH /auth/me`, but the backend defines only `GET /auth/me`. The model states the frontend's update step and takes the reply as an input.
- React rendering, effects, timers (a toast's own removal after its duration), `URL.createObjectURL` and `alert` are not modelled.
- Toast: the id counter in ToastContext.jsx is module-level and shared by every provider mounted in the page. The model keeps one counter per `ToastCenter`.
- Toast.Configure: a `NaN` duration is a number in JavaScript and would be kept. The model's durations are integers and infinity.
- Toast.StyleOf: a type naming an inherited property of the style table, such as "constructor", is not distinguished from an unknown type.
- IdeaForm.ToNumber: decimal, exponent, hexadecimal and binary forms of `Number` are treated as `NaN`. For example, "1e2" is 100 in JavaScript and "1.5" is 1.5, which makes the hint and the body differ from the model for such input.
- ApiClient.Rewritten: axios header names are case-insensitive. The model compares them exactly.
- The idea page reloads the comment list after a post. The model states the list the page keeps locally, not the refetch.
- Comment authors' avatar initials: a missing display name renders "Anonim". The model takes the name as a string.
- AuthContext.jsx, App.jsx, Navbar.jsx, Protected.jsx, AdminOnly.jsx, Login.jsx, Register.jsx, AdminDashboard.jsx and NotFound.jsx are UI glue and are not modelled.

## Findings

| source | as written | input that shows it | evidently intended | confidence | as-written member | corrected member |
|---|---|---|---|---|---|---|
| fe/src/components/IdeaCard.jsx:34 | The card links to `/ideas/` followed by the slug, or the id when the slug is empty. The detail route reads an all-digit key as an id. | Idea 1 with slug "42" and no idea 42: the card links to `/ideas/42`, and the detail route answers 404. | A card's link opens the idea it shows. | not executed | IdeaCard.DigitSlugLinkMisses | IdeaCard.ResolvingKeyFindsIdea |
