/** fe/src/pages/IdeaDetail.jsx: the page of one idea. Its state is an
    object with the loaded idea, the like count and flag, and the comment
    draft. The like button updates the state at once (optimistically),
    then takes the server's answer or rolls back to a snapshot when the
    request fails. The server's answer is a parameter. */
module IdeaDetailPage {
  import opened Common
  import opened Entities
  import opened Http
  import Ideas
  import Likes

  /** What the page reads from `GET /ideas/:idOrSlug`. */
  datatype Loaded = Loaded(id: int, totalLikes: Option<nat>, liked: Option<bool>)

  /** The outcome of a like or unlike request: the `{ liked, likes }` body of
      a 2xx answer, or a rejected request. */
  datatype LikeReply = LikeOk(liked: bool, likes: nat) | LikeFailed

  /** The request the button sends. */
  datatype LikeCall = PostLike(ideaId: int) | DeleteLike(ideaId: int)

  /** The state right after a click, before any answer: the flag flipped
      and the count moved by one, never below 0. */
  function Optimistic(liked: bool, likes: int): (r: (bool, int))
    ensures r.0 == !liked
    ensures liked ==> r.1 == if likes > 0 then likes - 1 else 0
    ensures !liked ==> r.1 == likes + 1
    ensures likes >= 0 ==> r.1 >= 0
  {
    if liked then (false, if likes - 1 > 0 then likes - 1 else 0) else (true, likes + 1)
  }

  /** How axios hands a response of the like routes to the page. */
  function ReplyOf(resp: Response): (r: LikeReply)
    ensures r.LikeOk? <==> 200 <= resp.status < 300 && resp.body.LikeBody?
    ensures r.LikeOk? ==> r.liked == resp.body.liked && r.likes == resp.body.likes
  {
    if 200 <= resp.status < 300 && resp.body.LikeBody? then LikeOk(resp.body.liked, resp.body.likes)
    else LikeFailed
  }

  class DetailPage {
    var idea: Option<int>
    var likes: int
    var liked: bool
    var commentText: string
    var submitting: bool

    /** The like count shown is never negative. */
    predicate Valid()
      reads this
    {
      likes >= 0
    }

    constructor ()
      ensures idea.None? && likes == 0 && !liked && commentText == "" && !submitting
      ensures Valid()
    {
      idea := None;
      likes := 0;
      liked := false;
      commentText := "";
      submitting := false;
    }

    /** `load()`: `likes = Number(total_likes || 0)`, `liked = Boolean(liked)`. */
    method Load(data: Loaded)
      modifies this`idea, this`likes, this`liked
      ensures idea == Some(data.id)
      ensures likes == data.totalLikes.GetOr(0) && liked == data.liked.GetOr(false)
      ensures Valid()
    {
      idea := Some(data.id);
      likes := data.totalLikes.GetOr(0);
      liked := data.liked.GetOr(false);
    }

    /** The optimistic half of `handleLike`. */
    method Flip()
      modifies this`likes, this`liked
      ensures (liked, likes) == Optimistic(old(liked), old(likes))
      ensures old(Valid()) ==> Valid()
    {
      if liked {
        liked := false;
        likes := if likes - 1 > 0 then likes - 1 else 0;
      } else {
        liked := true;
        likes := likes + 1;
      }
    }

    /** `handleLike()`: nothing without an idea; otherwise the optimistic
        update, the request matching the flag before the click, then the
        server's `{ liked, likes }` or the snapshot taken before the click. */
    method HandleLike(reply: LikeReply) returns (call: Option<LikeCall>)
      requires Valid()
      modifies this`likes, this`liked
      ensures idea.None? ==> call.None? && likes == old(likes) && liked == old(liked)
      ensures idea.Some? ==> call == Some(if old(liked) then DeleteLike(idea.value) else PostLike(idea.value))
      ensures idea.Some? && reply.LikeOk? ==> liked == reply.liked && likes == reply.likes
      ensures reply.LikeFailed? ==> liked == old(liked) && likes == old(likes)
      ensures Valid()
    {
      if idea.None? {
        return None;
      }
      var prevLiked := liked;
      var prevLikes := likes;
      call := Some(if liked then DeleteLike(idea.value) else PostLike(idea.value));
      Flip();
      match reply
      case LikeOk(l, n) =>
        likes := n;
        liked := l;
      case LikeFailed =>
        liked := prevLiked;
        likes := prevLikes;
    }

    /** `submitComment()`: nothing is sent without an idea or with a draft
        that is blank after trimming; otherwise the trimmed draft is sent
        and the draft is cleared only when the request succeeds. */
    method SubmitComment(succeeds: bool) returns (sent: Option<string>)
      modifies this`commentText, this`submitting
      ensures idea.None? || Trim(old(commentText)) == "" ==>
                sent.None? && commentText == old(commentText) && submitting == old(submitting)
      ensures idea.Some? && Trim(old(commentText)) != "" ==>
                && sent == Some(Trim(old(commentText)))
                && commentText == (if succeeds then "" else old(commentText))
                && !submitting
    {
      if idea.None? || Trim(commentText) == "" {
        return None;
      }
      var text := Trim(commentText);
      submitting := true;
      sent := Some(text);
      if succeeds {
        commentText := "";
      }
      submitting := false;
    }
  }

  /** Whoever is logged in, a like ends with the flag set and the server's
      count, and an unlike with the flag cleared; without a login both
      routes answer 401 and the page returns to its state before the click. */
  lemma LikeRoundTrip(db: Db, user: Option<Principal>, id: int, wasLiked: bool)
    ensures var resp := if wasLiked then Likes.UnlikeIdeaSpec(db, user, id).resp
                        else Ideas.LikeAnywaySpec(db, user, id).resp;
            && (user.Some? ==> ReplyOf(resp) == LikeOk(!wasLiked, resp.body.likes))
            && (user.None? ==> ReplyOf(resp) == LikeFailed)
  {
  }

  // ---------------------------------------------------------------------
  // Comment avatars

  /** `.split(" ").filter(Boolean)`: the non-empty space-separated words. */
  function Words(pieces: seq<string>): (r: seq<string>)
    ensures forall k :: 0 <= k < |r| ==> r[k] != ""
    ensures |r| <= |pieces|
  {
    if pieces == [] then []
    else (if pieces[0] == "" then [] else [pieces[0]]) + Words(pieces[1..])
  }

  /** `.slice(0, 2).map((w) => w[0].toUpperCase()).join("")`, then `|| "?"`. */
  function Initials(name: string): (r: string)
    ensures 1 <= |r| <= 2
    ensures Words(Split(name, ' ')) == [] ==> r == "?"
    ensures var w := Words(Split(name, ' '));
            && (|w| >= 1 ==> r[0] == UpperChar(w[0][0]))
            && (|w| >= 2 ==> |r| == 2 && r[1] == UpperChar(w[1][0]))
            && (|w| == 1 ==> |r| == 1)
  {
    var w := Words(Split(name, ' '));
    if |w| == 0 then "?"
    else if |w| == 1 then [UpperChar(w[0][0])]
    else [UpperChar(w[0][0]), UpperChar(w[1][0])]
  }

  /** A space before or after the name changes nothing. */
  lemma InitialsIgnoreSpace(name: string)
    ensures Initials(" " + name) == Initials(name)
    ensures Initials(name + " ") == Initials(name)
  {
    var s := " " + name;
    assert s[0] == ' ' && s[1..] == name;
    assert Split(s, ' ') == [""] + Split(name, ' ');
    assert Words([""] + Split(name, ' ')) == Words(Split(name, ' ')) by {
      assert ([""] + Split(name, ' '))[1..] == Split(name, ' ');
    }
    SplitTrailing(name);
  }

  lemma {:induction false} WordsAppend(a: seq<string>, b: seq<string>)
    ensures Words(a + b) == Words(a) + Words(b)
  {
    if a != [] {
      assert (a + b)[0] == a[0] && (a + b)[1..] == a[1..] + b;
      WordsAppend(a[1..], b);
    } else {
      assert a + b == b;
    }
  }

  /** A trailing separator adds one empty piece and no word. */
  lemma SplitTrailing(name: string)
    ensures Words(Split(name + " ", ' ')) == Words(Split(name, ' '))
  {
    SplitTrailingShape(name);
    WordsAppend(Split(name, ' '), [""]);
    assert Words([""]) == [];
  }

  /** Splitting `s + " "` gives the pieces of `s` and one more empty one. */
  lemma {:induction false} SplitTrailingShape(s: string)
    ensures Split(s + " ", ' ') == Split(s, ' ') + [""]
    decreases |s|
  {
    var t := s + " ";
    if s == [] {
      assert t[1..] == [];
    } else {
      assert t[0] == s[0] && t[1..] == s[1..] + " ";
      SplitTrailingShape(s[1..]);
    }
  }
}
