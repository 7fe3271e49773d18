/** be/src/routes/categories.js, mounted at /categories: the category list
    ordered by name, and staff-only creation with a slug made by
    `name.toLowerCase().replace(/\s+/g, "-")`. */
module Categories {
  import opened Common
  import opened Entities
  import opened Http
  import opened AuthMiddleware
  import opened Validator
  import opened Sorting
  import opened Store

  predicate NoSpace(s: string) {
    forall i :: 0 <= i < |s| ==> !IsJsSpace(s[i])
  }

  predicate AllSpace(s: string) {
    forall i :: 0 <= i < |s| ==> IsJsSpace(s[i])
  }

  /** `s.replace(/\s+/g, "-")`: every maximal run of white space becomes
      one "-". */
  function ReplaceSpaceRuns(s: string): (r: string)
    ensures NoSpace(r)
    ensures |r| <= |s|
    ensures s != [] && IsJsSpace(s[0]) ==> r != [] && r[0] == '-'
    ensures s != [] && !IsJsSpace(s[0]) ==> r != [] && r[0] == s[0]
    decreases |s|
  {
    if s == [] then []
    else if IsJsSpace(s[0]) then "-" + ReplaceSpaceRuns(TrimStart(s))
    else [s[0]] + ReplaceSpaceRuns(s[1..])
  }

  /** A string with no white space is left as it is. */
  lemma {:induction false} ReplaceNoSpace(s: string)
    requires NoSpace(s)
    ensures ReplaceSpaceRuns(s) == s
    decreases |s|
  {
    if s != [] {
      ReplaceNoSpace(s[1..]);
    }
  }

  /** Leading white space is dropped up to the first other character. */
  lemma {:induction false} TrimStartAppend(a: string, c: string)
    requires a != [] && !IsJsSpace(a[|a| - 1])
    ensures TrimStart(a + c) == TrimStart(a) + c
    decreases |a|
  {
    if IsJsSpace(a[0]) {
      assert (a + c)[1..] == a[1..] + c;
      TrimStartAppend(a[1..], c);
    }
  }

  /** An all-space prefix is dropped entirely when what follows does not
      start with white space. */
  lemma {:induction false} TrimStartSpaces(w: string, b: string)
    requires AllSpace(w)
    requires b == [] || !IsJsSpace(b[0])
    ensures TrimStart(w + b) == b
    decreases |w|
  {
    if w != [] {
      assert (w + b)[1..] == w[1..] + b;
      TrimStartSpaces(w[1..], b);
    } else {
      assert w + b == b;
    }
  }

  /** Replacing distributes over a cut made right after a character that is
      not white space. */
  lemma {:induction false} ReplaceAppend(a: string, c: string)
    requires a == [] || !IsJsSpace(a[|a| - 1])
    ensures ReplaceSpaceRuns(a + c) == ReplaceSpaceRuns(a) + ReplaceSpaceRuns(c)
    decreases |a|
  {
    if a == [] {
      assert a + c == c;
    } else if IsJsSpace(a[0]) {
      var t := TrimStart(a);
      TrimStartAppend(a, c);
      assert t != [] && t[|t| - 1] == a[|a| - 1];
      ReplaceAppend(t, c);
      Associative("-", ReplaceSpaceRuns(t), ReplaceSpaceRuns(c));
    } else {
      assert (a + c)[1..] == a[1..] + c;
      ReplaceAppend(a[1..], c);
      Associative([a[0]], ReplaceSpaceRuns(a[1..]), ReplaceSpaceRuns(c));
    }
  }

  /** One maximal run of white space between two pieces becomes one "-". */
  lemma ReplaceOneRun(a: string, w: string, b: string)
    requires a == [] || !IsJsSpace(a[|a| - 1])
    requires w != [] && AllSpace(w)
    requires b == [] || !IsJsSpace(b[0])
    ensures ReplaceSpaceRuns(a + w + b) == ReplaceSpaceRuns(a) + "-" + ReplaceSpaceRuns(b)
  {
    var wb := w + b;
    Associative(a, w, b);
    ReplaceAppend(a, wb);
    assert wb[0] == w[0];
    TrimStartSpaces(w, b);
    assert ReplaceSpaceRuns(wb) == "-" + ReplaceSpaceRuns(b);
    Associative(ReplaceSpaceRuns(a), "-", ReplaceSpaceRuns(b));
  }

  lemma Associative(x: string, y: string, z: string)
    ensures x + (y + z) == x + y + z
  {
  }

  /** The slug of a category name. */
  function CategorySlug(name: string): (slug: string)
    ensures NoSpace(slug)
    ensures name != [] && IsJsSpace(name[0]) ==> slug != [] && slug[0] == '-'
    ensures name != [] && IsJsSpace(name[|name| - 1]) ==> slug != [] && slug[|slug| - 1] == '-'
  {
    var lower := ToLower(name);
    if name == [] then ReplaceSpaceRuns(lower)
    else
      assert lower[0] == LowerChar(name[0]);
      assert lower[|lower| - 1] == LowerChar(name[|name| - 1]);
      if IsJsSpace(name[|name| - 1]) then
        TrailingSpaceSlug(lower);
        ReplaceSpaceRuns(lower)
      else ReplaceSpaceRuns(lower)
  }

  /** Trailing white space leaves a trailing "-". */
  lemma TrailingSpaceSlug(s: string)
    requires s != [] && IsJsSpace(s[|s| - 1])
    ensures var r := ReplaceSpaceRuns(s); r != [] && r[|r| - 1] == '-'
  {
    var k := LastNonSpace(s, |s|);
    var a := s[..k];
    var w := s[k..];
    assert s == a + w;
    assert a == [] || a[|a| - 1] == s[k - 1];
    ReplaceAppend(a, w);
    assert w[0] == s[k];
    TrimStartSpaces(w, []);
    assert w + [] == w;
    assert ReplaceSpaceRuns(w) == "-";
  }

  /** The length of the longest prefix of `s[..n]` that ends in a character
      other than white space (0 when there is none). */
  function LastNonSpace(s: string, n: nat): (k: nat)
    requires n <= |s|
    ensures k <= n
    ensures k == 0 || !IsJsSpace(s[k - 1])
    ensures forall i :: k <= i < n ==> IsJsSpace(s[i])
  {
    if n == 0 || !IsJsSpace(s[n - 1]) then n else LastNonSpace(s, n - 1)
  }

  /** `ORDER BY name`, by code points. */
  function NameKey(t: Table<Category>): int -> seq<int> {
    (id: int) => if id in t.rows then CodePoints(t.rows[id].name) else []
  }

  function CodePoints(s: string): (r: seq<int>)
    ensures |r| == |s| && forall i :: 0 <= i < |s| ==> r[i] == s[i] as int
  {
    seq(|s|, i requires 0 <= i < |s| => s[i] as int)
  }

  /** The category ids in list order. */
  function CategoryOrder(t: Table<Category>): (r: seq<int>)
    ensures SortedBy(r, NameKey(t))
  {
    SortBy(TableIds(t.rows, t.next), NameKey(t))
  }

  /** The order holds every category once the counter covers its id. */
  lemma CategoryOrderExact(t: Table<Category>)
    ensures forall k :: 0 <= k < |CategoryOrder(t)| ==> CategoryOrder(t)[k] in t.rows
    ensures t.Valid() ==> forall id :: id in t.rows ==> id in CategoryOrder(t)
  {
    var ids := TableIds(t.rows, t.next);
    var r := CategoryOrder(t);
    SortByMembers(ids, NameKey(t));
    assert forall k :: 0 <= k < |r| ==> r[k] in ids;
  }

  /** The `(id, name, slug)` rows of the given ids. */
  function CategoryRows(t: Table<Category>, ids: seq<int>): (r: seq<(int, Category)>)
    requires forall k :: 0 <= k < |ids| ==> ids[k] in t.rows
    ensures |r| == |ids|
    ensures forall k :: 0 <= k < |r| ==> ids[k] in t.rows && r[k] == (ids[k], t.rows[ids[k]])
  {
    if ids == [] then []
    else
      assert ids[0] in t.rows;
      [(ids[0], t.rows[ids[0]])] + CategoryRows(t, ids[1..])
  }

  /** `GET /categories`: every category, ordered by name. */
  function ListCategoriesSpec(db: Db): (r: Response)
    ensures r.status == 200 && r.body.CategoryListBody?
    ensures |r.body.categories| == |CategoryOrder(db.categories)|
    ensures forall k :: 0 <= k < |r.body.categories| ==>
              var id := CategoryOrder(db.categories)[k];
              id in db.categories.rows && r.body.categories[k] == (id, db.categories.rows[id])
  {
    var ids := CategoryOrder(db.categories);
    CategoryOrderExact(db.categories);
    Response(200, CategoryListBody(CategoryRows(db.categories, ids)))
  }

  /** The list holds every category, and its names ascend. */
  lemma ListCategoriesExact(db: Db)
    requires Valid(db)
    ensures var rows := ListCategoriesSpec(db).body.categories;
            && (forall id :: id in db.categories.rows ==> (id, db.categories.rows[id]) in rows)
            && (forall j, k :: 0 <= j < k < |rows| ==> LexLe(CodePoints(rows[j].1.name), CodePoints(rows[k].1.name)))
  {
    var t := db.categories;
    var ids := CategoryOrder(t);
    var rows := ListCategoriesSpec(db).body.categories;
    CategoryOrderExact(t);
    forall id | id in t.rows ensures (id, t.rows[id]) in rows {
      var k :| 0 <= k < |ids| && ids[k] == id;
      assert rows[k] == (id, t.rows[id]);
    }
    forall j, k | 0 <= j < k < |rows|
      ensures LexLe(CodePoints(rows[j].1.name), CodePoints(rows[k].1.name))
    {
      assert LexLe(NameKey(t)(ids[j]), NameKey(t)(ids[k]));
    }
  }

  /** `POST /categories`: staff only; answers 201 with exactly the name and
      its slug. */
  function CreateCategorySpec(db: Db, user: Option<Principal>, name: string): (o: Outcome)
    ensures user.None? ==> o == Outcome(db, Unauthorized)
    ensures user.Some? && !(user.value.role in Staff) ==> o == Outcome(db, Forbidden)
    ensures user.Some? && user.value.role in Staff ==>
              && o.resp == Response(201, CategoryBody(name, CategorySlug(name)))
              && o.db == db.(categories := db.categories.Insert(Category(name, CategorySlug(name))))
    ensures Valid(db) ==> Valid(o.db)
  {
    if user.None? then Outcome(db, Unauthorized)
    else if RoleGate(user.value, Staff).Some? then Outcome(db, RoleGate(user.value, Staff).value)
    else
      var slug := CategorySlug(name);
      Outcome(db.(categories := db.categories.Insert(Category(name, slug))),
              Response(201, CategoryBody(name, slug)))
  }

  method ListCategoriesRoute(f: Forum) returns (resp: Response)
    ensures resp == ListCategoriesSpec(f.Tables())
  {
    resp := ListCategoriesSpec(f.Tables());
  }

  method CreateCategoryRoute(f: Forum, req: Request, verify: string -> Option<Claims>, schema: Schema,
                             name: string)
    returns (resp: Response)
    modifies f, req`user, req`body, req`params, req`query
    ensures Outcome(f.Tables(), resp) == CreateCategorySpec(old(f.Tables()), RequestPrincipal(req, verify), name)
    ensures req.body == old(req.body) && req.params == old(req.params) && req.query == old(req.query)
  {
    var flow := RequireAuth(req, verify);
    if flow.Halt? {
      return flow.resp;
    }
    var gate := RoleGate(req.user.value, Staff);
    if gate.Some? {
      return gate.value;
    }
    flow := Validate(req, BareZodObject(schema));
    BareObjectValidatesNothing(schema, Fields(old(req.body), old(req.params), old(req.query)));
    var slug := CategorySlug(name);
    f.categories := f.categories.Insert(Category(name, slug));
    resp := Response(201, CategoryBody(name, slug));
  }
}
