/** fe/src/pages/IdeaForm.jsx: the form that posts a new idea. The model
    keeps the conversion of the category field, the hint under it, the
    character counters, the state around a submit and the page the form
    opens after a create. */
module IdeaForm {
  import opened Common
  import opened Entities
  import opened Http
  import IdeaCard
  import Ideas

  /** The value of `Number(s)`: an integer, or `NaN`. */
  datatype JsNumber = Int(n: int) | NaN

  /** `Number(s)` for the texts a category id is typed as: blank text is 0,
      decimal digits with an optional sign are that integer, and any other
      text is `NaN` (see README for the forms left out). */
  function ToNumber(s: string): (r: JsNumber)
    ensures Trim(s) == "" ==> r == Int(0)
    ensures IsDigitString(Trim(s)) ==> r == Int(ParseDigits(Trim(s)))
    ensures r.Int? && Trim(s) != "" ==> exists k :: 0 <= k < |Trim(s)| && IsDigit(Trim(s)[k])
  {
    var t := Trim(s);
    if t == "" then Int(0)
    else if IsDigitString(t) then Int(ParseDigits(t))
    else if t[0] == '-' && IsDigitString(t[1..]) then (assert IsDigit(t[1..][0]); Int(-(ParseDigits(t[1..]) as int)))
    else if t[0] == '+' && IsDigitString(t[1..]) then (assert IsDigit(t[1..][0]); Int(ParseDigits(t[1..])))
    else NaN
  }

  /** A digit string has no white space to trim. */
  lemma TrimDigits(d: string)
    requires IsDigitString(d)
    ensures Trim(d) == d
  {
    assert !IsJsSpace(d[0]) && !IsJsSpace(d[|d| - 1]);
    assert TrimStart(d) == d;
  }

  /** `Number` reads back what a number renders as. */
  lemma ToNumberRendered(n: nat)
    ensures ToNumber(NatToString(n)) == Int(n)
  {
    TrimDigits(NatToString(n));
    ParseNatToString(n);
  }

  /** `category_id: categoryId ? Number(categoryId) : null`, as the JSON
      body carries it: an empty field and a `NaN` both travel as `null`. */
  function CategoryField(categoryId: string): (r: Option<int>)
    ensures categoryId == "" ==> r.None?
    ensures categoryId != "" ==> (r.Some? <==> ToNumber(categoryId).Int?)
    ensures r.Some? ==> r.value == ToNumber(categoryId).n
  {
    if categoryId == "" then None
    else match ToNumber(categoryId)
      case Int(n) => Some(n)
      case NaN => None
  }

  /** A field of spaces only is truthy and `Number` makes it 0, so the
      form asks for category 0 rather than for none. */
  lemma BlankCategorySendsZero()
    ensures CategoryField(" ") == Some(0)
  {
    assert IsJsSpace(' ');
    assert TrimStart(" ") == "";
  }

  const OptionalHint: string := "Opsional, pilih jika sudah memiliki kategori"
  const NotNumberHint: string := "ID kategori harus angka"
  const ConfirmHint: string := "Tekan simpan untuk menggunakan kategori ini"

  /** `categoryHint`. */
  function CategoryHint(categoryId: string): (r: string)
    ensures r == OptionalHint <==> categoryId == ""
    ensures r == NotNumberHint <==> categoryId != "" && ToNumber(categoryId).NaN?
    ensures r == ConfirmHint <==> categoryId != "" && ToNumber(categoryId).Int?
  {
    if categoryId == "" then OptionalHint
    else if ToNumber(categoryId).NaN? then NotNumberHint
    else ConfirmHint
  }

  /** The confirm hint is shown exactly when the form would send a category id. */
  lemma HintMatchesPayload(categoryId: string)
    ensures CategoryHint(categoryId) == ConfirmHint <==> CategoryField(categoryId).Some?
  {
  }

  /** The state of the form. */
  datatype FormState = FormState(title: string, description: string, categoryId: string, loading: bool)

  /** `titleCount` and `descCount`: lengths after trimming. */
  function TitleCount(s: FormState): (n: nat)
    ensures n <= |s.title|
  {
    |Trim(s.title)|
  }

  function DescriptionCount(s: FormState): (n: nat)
    ensures n <= |s.description|
  {
    |Trim(s.description)|
  }

  /** The JSON body `POST /ideas` gets. */
  datatype CreateBody = CreateBody(title: string, description: string, categoryId: Option<int>)

  /** `submit` up to the request: `loading` is set and the body built. */
  function StartSubmit(s: FormState): (r: (FormState, CreateBody))
    ensures r.0 == s.(loading := true)
    ensures r.1.title == s.title && r.1.description == s.description
    ensures r.1.categoryId == CategoryField(s.categoryId)
  {
    (s.(loading := true), CreateBody(s.title, s.description, CategoryField(s.categoryId)))
  }

  /** What the request brought back: the created row's id and slug, or a
      rejection. */
  datatype Reply = Created(id: int, slug: string) | Rejected

  /** `nav(`/ideas/${data.slug || data.id}`)`. */
  function NavTarget(id: int, slug: string): (path: string)
    ensures slug != "" ==> path == "/ideas/" + slug
    ensures slug == "" ==> path == "/ideas/" + IdeaCard.IdText(id)
  {
    IdeaCard.DetailPath(IdeaCard.CardIdea(id, Some(slug), None, None, None, None, None, None))
  }

  /** The end of `submit`: the `finally` clears `loading` on both paths, and
      only a created idea opens a page. The fields are left as typed. */
  function FinishSubmit(s: FormState, reply: Reply): (r: (FormState, Option<string>))
    ensures !r.0.loading
    ensures r.0 == s.(loading := false)
    ensures reply.Rejected? <==> r.1.None?
    ensures reply.Created? ==> r.1 == Some(NavTarget(reply.id, reply.slug))
  {
    (s.(loading := false), if reply.Created? then Some(NavTarget(reply.id, reply.slug)) else None)
  }

  /** A whole submit, whatever the reply, leaves the form not loading and
      with the same fields. */
  lemma SubmitSettles(s: FormState, reply: Reply)
    ensures var after := FinishSubmit(StartSubmit(s).0, reply).0;
            !after.loading && after.title == s.title && after.description == s.description
            && after.categoryId == s.categoryId
  {
  }

  /** The Reset button. */
  function Reset(s: FormState): (r: FormState)
    ensures r.title == "" && r.description == "" && r.categoryId == "" && r.loading == s.loading
    ensures TitleCount(r) == 0 && DescriptionCount(r) == 0 && CategoryHint(r.categoryId) == OptionalHint
  {
    s.(title := "", description := "", categoryId := "")
  }

  /** The page the form opens after a create is `/ideas/` followed by the
      stored slug when it is not empty, else the new id; it is the link the
      home cards use for the same idea. */
  lemma CreatedIdeaNavigation(db: Db, user: Principal, slugify: string -> string, s: FormState, now: int)
    ensures var body := StartSubmit(s).1;
            var o := Ideas.CreateIdeaSpec(db, Some(user), slugify, body.title, body.description, body.categoryId, now);
            && o.resp.status == 201
            && o.resp.body.idea.category == CategoryField(s.categoryId)
            && NavTarget(o.resp.body.ideaId, o.resp.body.idea.slug)
               == IdeaCard.DetailPath(IdeaCard.CardIdea(o.resp.body.ideaId, Some(o.resp.body.idea.slug), None, None, None, None, None, None))
  {
  }
}
