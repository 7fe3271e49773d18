/** fe/src/components/IdeaCard.jsx: the card of one idea in the home list.
    The card reads an idea object whose fields may be missing (`None`); of
    its computations the model keeps the counts with their `??` fallbacks,
    the category label, the thumbnail and the link to the detail page. */
module IdeaCard {
  import opened Common
  import opened Entities
  import opened Http
  import AssetUrl
  import Ideas

  /** The fields of the idea object the card reads. */
  datatype CardIdea = CardIdea(
    id: int, slug: Option<string>, category: Option<string>, thumbnail: Option<string>,
    totalLikes: Option<int>, likes: Option<int>, totalComments: Option<int>, commentsCount: Option<int>)

  /** `idea.total_likes ?? idea.likes ?? 0`: a 0 is kept, only a missing
      field falls through. */
  function LikesCount(i: CardIdea): (n: int)
    ensures i.totalLikes.Some? ==> n == i.totalLikes.value
    ensures i.totalLikes.None? && i.likes.Some? ==> n == i.likes.value
    ensures i.totalLikes.None? && i.likes.None? ==> n == 0
  {
    Coalesce(Coalesce(i.totalLikes, i.likes), Some(0)).value
  }

  /** `idea.total_comments ?? idea.comments_count ?? 0`. */
  function CommentsCount(i: CardIdea): (n: int)
    ensures i.totalComments.Some? ==> n == i.totalComments.value
    ensures i.totalComments.None? && i.commentsCount.Some? ==> n == i.commentsCount.value
    ensures i.totalComments.None? && i.commentsCount.None? ==> n == 0
  {
    Coalesce(Coalesce(i.totalComments, i.commentsCount), Some(0)).value
  }

  /** The likes stat is highlighted when the count is positive. */
  predicate LikesHighlighted(i: CardIdea) {
    LikesCount(i) > 0
  }

  /** `idea.category ? idea.category : "Posting"`. */
  function CategoryLabel(i: CardIdea): (r: string)
    ensures TruthyStr(i.category) ==> r == i.category.value
    ensures !TruthyStr(i.category) ==> r == "Posting"
  {
    if TruthyStr(i.category) then i.category.value else "Posting"
  }

  /** `toAbsoluteUrl(idea.thumbnail)`; the figure is shown when it is set. */
  function Thumbnail(i: CardIdea, env: Option<string>): (r: Option<string>)
    ensures r.Some? <==> !AssetUrl.IsNullish(i.thumbnail)
  {
    AssetUrl.ToAbsoluteUrl(i.thumbnail, env)
  }

  /** A decimal rendering of an id, as a template literal prints it. */
  function IdText(id: int): (r: string)
    ensures id >= 0 ==> r == NatToString(id)
  {
    if id >= 0 then NatToString(id) else "-" + NatToString(-id)
  }

  /** The `:idOrSlug` of both links, `idea.slug || idea.id`, as written:
      the slug when it is truthy, else the id. */
  function DetailKey(i: CardIdea): (key: string)
    ensures TruthyStr(i.slug) ==> key == i.slug.value
    ensures !TruthyStr(i.slug) ==> key == IdText(i.id)
  {
    if TruthyStr(i.slug) then i.slug.value else IdText(i.id)
  }

  /** The link target `/ideas/<key>`. */
  function DetailPath(i: CardIdea): (path: string)
    ensures path == "/ideas/" + DetailKey(i)
  {
    "/ideas/" + DetailKey(i)
  }

  /** The card of one row of `GET /ideas`. The list query sends
      `total_likes` and `total_comments` and no thumbnail. */
  function CardOf(row: IdeaListRow): CardIdea {
    CardIdea(row.id, Some(row.slug), row.category, None,
             Some(row.totalLikes as int), None, Some(row.totalComments as int), None)
  }

  /** A card from the list shows the row's own counts, 0 included, is
      highlighted exactly when the idea has a like, and has no thumbnail. */
  lemma ListCardShowsRowCounts(row: IdeaListRow, env: Option<string>)
    ensures LikesCount(CardOf(row)) == row.totalLikes as int
    ensures CommentsCount(CardOf(row)) == row.totalComments as int
    ensures LikesHighlighted(CardOf(row)) <==> row.totalLikes > 0
    ensures Thumbnail(CardOf(row), env).None?
  {
  }

  // ---------------------------------------------------------------------
  // The link of an idea with an all-digit slug

  /** As written, a card whose slug is all digits links to that number,
      which `GET /ideas/:idOrSlug` reads as an id: the card of idea 1 with
      slug "42" leads to a 404 when there is no idea 42. */
  lemma DigitSlugLinkMisses(db: Db, viewer: Option<Principal>)
    requires 1 in db.ideas.rows && db.ideas.rows[1].slug == "42" && db.ideas.rows[1].owner in db.users.rows
    requires 42 !in db.ideas.rows
    ensures var card := CardIdea(1, Some(db.ideas.rows[1].slug), None, None, None, None, None, None);
            Ideas.DetailSpec(db, viewer, DetailKey(card)) == Response(404, ErrorBody("Not Found"))
  {
    var card := CardIdea(1, Some(db.ideas.rows[1].slug), None, None, None, None, None, None);
    assert DetailKey(card) == "42";
    assert IsDigitString("42");
    assert ParseDigits("42") == 42 by {
      assert "42"[..1] == "4";
    }
  }

  /** The key the link evidently means: the slug unless it is empty or all
      digits, else the id. */
  function ResolvingDetailKey(i: CardIdea): (key: string)
    ensures TruthyStr(i.slug) && !IsDigitString(i.slug.value) ==> key == i.slug.value
    ensures !(TruthyStr(i.slug) && !IsDigitString(i.slug.value)) ==> key == IdText(i.id)
  {
    if TruthyStr(i.slug) && !IsDigitString(i.slug.value) then i.slug.value else IdText(i.id)
  }

  /** With that key, the link of the card of an idea from the store always
      opens that idea, provided no other listed idea shares its slug. */
  lemma ResolvingKeyFindsIdea(db: Db, id: int, viewer: Option<Principal>)
    requires Valid(db) && id >= 0 && Ideas.HasAuthor(db, id)
    requires forall other :: other != id && Ideas.HasAuthor(db, other) ==> db.ideas.rows[other].slug != db.ideas.rows[id].slug
    ensures var card := CardIdea(id, Some(db.ideas.rows[id].slug), None, None, None, None, None, None);
            Ideas.FindIdea(db, ResolvingDetailKey(card)) == Some(id)
            && Ideas.DetailSpec(db, viewer, ResolvingDetailKey(card)).status == 200
  {
    var card := CardIdea(id, Some(db.ideas.rows[id].slug), None, None, None, None, None, None);
    var key := ResolvingDetailKey(card);
    if key == NatToString(id) {
      ParseNatToString(id);
    }
  }
}
