/** fe/src/pages/Home.jsx: the home page. It reads `q`, `sort` and `page`
    from the address, asks `GET /ideas` for one page of `PAGE_SIZE` ideas,
    filters that page on the client by the search box, and links to the
    previous and next pages. */
module Home {
  import opened Common
  import opened Entities
  import opened Http
  import AssetUrl
  import Ideas
  import Sorting

  const PageSize: nat := 8

  /** The address parameters the page works with. */
  datatype HomeQuery = HomeQuery(q: string, sort: string, page: int)

  /** `sp.get("q") || ""`, `sp.get("sort") || "new"` and
      `Number(sp.get("page") || 1)`; `page` is the already converted number,
      `None` when the parameter is missing or empty. */
  function ReadQuery(q: Option<string>, sort: Option<string>, page: Option<int>): (h: HomeQuery)
    ensures TruthyStr(q) ==> h.q == q.value
    ensures !TruthyStr(q) ==> h.q == ""
    ensures TruthyStr(sort) ==> h.sort == sort.value
    ensures !TruthyStr(sort) ==> h.sort == "new"
    ensures h.page == page.GetOr(1)
  {
    HomeQuery(OrElse(q, Some("")).value, OrElse(sort, Some("new")).value, page.GetOr(1))
  }

  /** The request the page sends: `{ q, sort, page, limit: PAGE_SIZE }`. */
  function ListRequest(h: HomeQuery): (lq: Ideas.ListQuery)
    ensures lq.limit == Some(PageSize as int) && lq.page == Some(h.page) && lq.categoryId.None?
  {
    Ideas.ListQuery(Some(h.q), None, Some(h.sort), Some(h.page), Some(PageSize as int))
  }

  /** What the server does with that request: an empty `q` adds no search
      condition, the default `new` orders by date, a page of at most
      `PAGE_SIZE` rows comes back for every page from 1 on, and a page
      below 1 makes the query fail. */
  lemma ServerHonoursRequest(db: Db, h: HomeQuery, hits: set<int>, recent: map<int, nat>)
    ensures h.sort == "new" ==> Ideas.OrderOf(ListRequest(h).sort) == Ideas.Newest
    ensures h.q == "" ==> !TruthyStr(ListRequest(h).q)
    ensures Ideas.ListWindow(ListRequest(h)) == (PageSize as int, (h.page - 1) * PageSize)
    ensures var r := Ideas.ListIdeasSpec(db, ListRequest(h), hits, recent);
            && (h.page >= 1 <==> r.status == 200)
            && (r.status == 200 ==> |r.body.ideas| <= PageSize)
            && (r.status == 200 ==>
                  |r.body.ideas| == Sorting.PageLength(|Ideas.ListedIdeaIds(db, ListRequest(h), hits, recent)|, PageSize, (h.page - 1) * PageSize))
  {
    var w := Ideas.ListWindow(ListRequest(h));
    assert w.1 >= 0 <==> h.page >= 1;
  }

  // ---------------------------------------------------------------------
  // The search box

  /** The fields of an item the search reads. */
  datatype HomeItem = HomeItem(title: Option<string>, summary: Option<string>, author: Option<string>)

  /** `idea.title ? idea.title.toLowerCase() : ""`. */
  function FieldText(f: Option<string>): (r: string)
    ensures |r| == |f.GetOr("")|
  {
    if TruthyStr(f) then ToLower(f.value) else ""
  }

  /** `${title} ${summary} ${author}`. */
  function Haystack(it: HomeItem): string {
    FieldText(it.title) + " " + FieldText(it.summary) + " " + FieldText(it.author)
  }

  /** `search.trim().toLowerCase()`. */
  function SearchTerm(search: string): string {
    ToLower(Trim(search))
  }

  predicate Matches(it: HomeItem, term: string) {
    Contains(Haystack(it), term)
  }

  /** `items.filter(...)`: the matching items in their order. */
  function Matching(items: seq<HomeItem>, term: string): (r: seq<HomeItem>)
    ensures |r| <= |items|
    ensures forall k :: 0 <= k < |r| ==> r[k] in items && Matches(r[k], term)
    ensures forall x :: x in items && Matches(x, term) ==> x in r
  {
    if items == [] then []
    else (if Matches(items[0], term) then [items[0]] else []) + Matching(items[1..], term)
  }

  /** Filtering keeps the relative order of the items. */
  lemma {:induction false} MatchingAppend(a: seq<HomeItem>, b: seq<HomeItem>, term: string)
    ensures Matching(a + b, term) == Matching(a, term) + Matching(b, term)
  {
    if a == [] {
      assert a + b == b;
    } else {
      assert (a + b)[0] == a[0] && (a + b)[1..] == a[1..] + b;
      MatchingAppend(a[1..], b, term);
    }
  }

  /** `filteredItems`: the page as it came when the trimmed search is empty,
      else the items whose text contains the lowercased term. */
  function FilteredItems(items: seq<HomeItem>, search: string): (r: seq<HomeItem>)
    ensures SearchTerm(search) == "" ==> r == items
    ensures SearchTerm(search) != "" ==> r == Matching(items, SearchTerm(search))
  {
    var term := SearchTerm(search);
    if term == "" then items else Matching(items, term)
  }

  /** A search of spaces only hides nothing. */
  lemma BlankSearchKeepsAll(items: seq<HomeItem>, search: string)
    requires forall i :: 0 <= i < |search| ==> IsJsSpace(search[i])
    ensures FilteredItems(items, search) == items
  {
  }

  /** The item of one row of `GET /ideas`: the list query sends no
      `summary`, so the search looks at title and author only. */
  function ItemOf(row: IdeaListRow): HomeItem {
    HomeItem(Some(row.title), None, Some(row.author))
  }

  lemma ItemHaystack(row: IdeaListRow)
    ensures Haystack(ItemOf(row)) == FieldText(Some(row.title)) + "  " + FieldText(Some(row.author))
  {
  }

  // ---------------------------------------------------------------------
  // Paging

  /** `page > 1`. */
  predicate HasPrev(h: HomeQuery) {
    h.page > 1
  }

  /** `items.length === PAGE_SIZE`: judged on the server's page, before the
      search filter. */
  predicate HasNext(items: seq<HomeItem>) {
    |items| == PageSize
  }

  /** The Prev link: `page=max(1, page - 1)`, same `q` and `sort`. */
  function PrevLink(h: HomeQuery): (r: HomeQuery)
    ensures r.q == h.q && r.sort == h.sort && r.page >= 1
    ensures HasPrev(h) ==> r.page == h.page - 1
    ensures !HasPrev(h) ==> r.page == 1
  {
    h.(page := if h.page - 1 > 1 then h.page - 1 else 1)
  }

  /** The Next link: `page=page + 1`. */
  function NextLink(h: HomeQuery): (r: HomeQuery)
    ensures r.q == h.q && r.sort == h.sort && r.page == h.page + 1
  {
    h.(page := h.page + 1)
  }

  /** Next then Prev comes back to the same page, from page 1 on. */
  lemma NextThenPrev(h: HomeQuery)
    requires h.page >= 1
    ensures PrevLink(NextLink(h)) == h
  {
  }

  /** Typing in the search box or picking a sort goes back to page 1. */
  function OnSearch(h: HomeQuery, value: string): (r: HomeQuery)
    ensures r.q == value && r.sort == h.sort && r.page == 1 && !HasPrev(r)
  {
    HomeQuery(value, h.sort, 1)
  }

  function OnSort(h: HomeQuery, sort: string): (r: HomeQuery)
    ensures r.q == h.q && r.sort == sort && r.page == 1 && !HasPrev(r)
  {
    HomeQuery(h.q, sort, 1)
  }

  /** Next is judged on the server's page, not on the cards shown: a full
      page whose every item the search hides shows no card and still
      offers Next. */
  lemma NextIgnoresSearch(items: seq<HomeItem>, search: string)
    requires HasNext(items) && SearchTerm(search) != ""
    requires forall k :: 0 <= k < |items| ==> !Matches(items[k], SearchTerm(search))
    ensures FilteredItems(items, search) == [] && HasNext(items)
  {
    NoneMatching(items, SearchTerm(search));
  }

  /** Items none of which matches filter to nothing. */
  lemma {:induction false} NoneMatching(items: seq<HomeItem>, term: string)
    requires forall k :: 0 <= k < |items| ==> !Matches(items[k], term)
    ensures Matching(items, term) == []
  {
    if items != [] {
      assert !Matches(items[0], term);
      NoneMatching(items[1..], term);
    }
  }

  // ---------------------------------------------------------------------
  // The greeting

  /** `profile?.display_name || user?.display_name || user?.username || "Guest"`. */
  function WelcomeName(profileName: Option<string>, userName: Option<string>, username: Option<string>): (r: string)
    ensures TruthyStr(profileName) ==> r == profileName.value
    ensures !TruthyStr(profileName) && TruthyStr(userName) ==> r == userName.value
    ensures !TruthyStr(profileName) && !TruthyStr(userName) && TruthyStr(username) ==> r == username.value
    ensures !TruthyStr(profileName) && !TruthyStr(userName) && !TruthyStr(username) ==> r == "Guest"
    ensures r != ""
  {
    OrElse(OrElse(OrElse(profileName, userName), username), Some("Guest")).value
  }

  /** The line under the greeting: the profile's bio when it has one, else
      an invitation to sign in for a visitor, else a fixed encouragement. */
  function Subtitle(bio: Option<string>, signedIn: bool): (r: string)
    ensures TruthyStr(bio) ==> r == bio.value
    ensures !TruthyStr(bio) && !signedIn ==> r == "Silakan masuk untuk membagikan ide terbaikmu"
    ensures !TruthyStr(bio) && signedIn ==> r == "Your creativity keeps the community growing"
    ensures r != ""
  {
    if TruthyStr(bio) then bio.value
    else if !signedIn then "Silakan masuk untuk membagikan ide terbaikmu"
    else "Your creativity keeps the community growing"
  }

  /** The name of the current order in the header: any sort other than the
      two known ones is shown as "Populer". */
  function SortLabel(sort: string): (r: string)
    ensures sort == "new" <==> r == "Terbaru"
    ensures sort == "popular7d" <==> r == "Populer 7D"
    ensures sort != "new" && sort != "popular7d" <==> r == "Populer"
  {
    if sort == "new" then "Terbaru" else if sort == "popular7d" then "Populer 7D" else "Populer"
  }

  /** `absUrl(profile?.avatar ?? user?.avatar) || defaultAvatar`. */
  function HomeAvatar(profileAvatar: Option<string>, userAvatar: Option<string>, env: Option<string>): (r: string)
    ensures profileAvatar.Some? ==> r == AssetUrl.AvatarUrl(profileAvatar, env)
    ensures profileAvatar.None? ==> r == AssetUrl.AvatarUrl(userAvatar, env)
  {
    AssetUrl.AvatarUrl(Coalesce(profileAvatar, userAvatar), env)
  }

  /** A profile avatar that is the text "null" is not replaced by the
      signed-in user's avatar: `??` only skips a missing value, so the
      default image is shown. */
  lemma NullTextAvatarShowsDefault(userAvatar: Option<string>, env: Option<string>)
    ensures HomeAvatar(Some("null"), userAvatar, env) == AssetUrl.ApiBase(env) + "/uploads/default-gambar.webp"
  {
  }
}
