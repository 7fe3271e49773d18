/** fe/src/context/ToastContext.jsx: the toast notifications. A counter
    shared by the whole module numbers the toasts; `showToast` appends a
    toast with its defaults filled in and `removeToast` filters one out.
    The provider's list and the counter are the fields of one object. */
module Toast {
  import opened Common

  /** How long a toast stays: a number of milliseconds, or `Infinity`,
      which keeps it until it is closed. */
  datatype Duration = Finite(ms: int) | Infinite

  /** The argument of `showToast`; a field that is missing, or a duration
      that is not a number, is `None`. */
  datatype ToastPayload = ToastPayload(kind: Option<string>, title: Option<string>,
                                       description: Option<string>, duration: Option<Duration>)

  datatype Toast = Toast(id: int, kind: string, title: string, description: string, duration: Duration)

  const DefaultDuration: int := 4000

  /** The toast `showToast` builds for a payload: type "info", empty title
      and description unless given, and 4000 ms unless the duration is a
      number. */
  function Configure(id: int, p: ToastPayload): (t: Toast)
    ensures t.id == id
    ensures TruthyStr(p.kind) ==> t.kind == p.kind.value
    ensures !TruthyStr(p.kind) ==> t.kind == "info"
    ensures TruthyStr(p.title) ==> t.title == p.title.value
    ensures TruthyStr(p.description) ==> t.description == p.description.value
    ensures !TruthyStr(p.title) ==> t.title == ""
    ensures !TruthyStr(p.description) ==> t.description == ""
    ensures p.duration.Some? ==> t.duration == p.duration.value
    ensures p.duration.None? ==> t.duration == Finite(DefaultDuration)
  {
    Toast(id, OrElse(p.kind, Some("info")).value, OrElse(p.title, Some("")).value,
          OrElse(p.description, Some("")).value, p.duration.GetOr(Finite(DefaultDuration)))
  }

  /** The four helpers `success`, `error`, `info` and `warning`. */
  datatype Helper = Success | Error | Info | Warning

  function HelperType(h: Helper): string {
    match h
    case Success => "success"
    case Error => "error"
    case Info => "info"
    case Warning => "warning"
  }

  /** `{ ...payload, type }`: the helper's type replaces the payload's. */
  function Forced(h: Helper, p: ToastPayload): (r: ToastPayload)
    ensures r.kind == Some(HelperType(h))
    ensures r.title == p.title && r.description == p.description && r.duration == p.duration
  {
    p.(kind := Some(HelperType(h)))
  }

  /** Whatever type the payload names, a helper's toast has the helper's. */
  lemma HelperTypeWins(h: Helper, p: ToastPayload, id: int)
    ensures Configure(id, Forced(h, p)).kind == HelperType(h)
  {
  }

  /** Only a toast with a finite duration gets a removal timer. */
  predicate HasTimer(t: Toast) {
    t.duration != Infinite
  }

  /** The style a toast is drawn with: its type's, or the info style for a
      type the style table does not have. */
  datatype Style = SuccessStyle | ErrorStyle | WarningStyle | InfoStyle

  function StyleOf(kind: string): (s: Style)
    ensures kind == "success" <==> s == SuccessStyle
    ensures kind == "error" <==> s == ErrorStyle
    ensures kind == "warning" <==> s == WarningStyle
    ensures s == InfoStyle <==> kind !in {"success", "error", "warning"}
  {
    if kind == "success" then SuccessStyle
    else if kind == "error" then ErrorStyle
    else if kind == "warning" then WarningStyle
    else InfoStyle
  }

  /** `prev.filter((toast) => toast.id !== id)`. */
  function Without(s: seq<Toast>, id: int): (r: seq<Toast>)
    ensures |r| <= |s|
    ensures forall k :: 0 <= k < |r| ==> r[k] in s && r[k].id != id
    ensures forall t :: t in s && t.id != id ==> t in r
  {
    if s == [] then []
    else (if s[0].id != id then [s[0]] else []) + Without(s[1..], id)
  }

  /** Removing an id no toast has changes nothing. */
  lemma {:induction false} WithoutUnknown(s: seq<Toast>, id: int)
    requires forall k :: 0 <= k < |s| ==> s[k].id != id
    ensures Without(s, id) == s
  {
    if s != [] {
      WithoutUnknown(s[1..], id);
      assert [s[0]] + s[1..] == s;
    }
  }

  /** Filtering keeps the order: it works piece by piece. */
  lemma {:induction false} WithoutAppend(a: seq<Toast>, b: seq<Toast>, id: int)
    ensures Without(a + b, id) == Without(a, id) + Without(b, id)
  {
    if a == [] {
      assert a + b == b;
    } else {
      assert (a + b)[0] == a[0] && (a + b)[1..] == a[1..] + b;
      WithoutAppend(a[1..], b, id);
    }
  }

  /** Ids in strictly increasing order. */
  predicate Increasing(s: seq<Toast>) {
    forall i, j :: 0 <= i < j < |s| ==> s[i].id < s[j].id
  }

  /** A lower bound on the ids of a list holds for what filtering keeps. */
  lemma WithoutAbove(s: seq<Toast>, id: int, lo: int)
    requires forall k :: 0 <= k < |s| ==> lo < s[k].id
    ensures forall k :: 0 <= k < |Without(s, id)| ==> lo < Without(s, id)[k].id
  {
    var r := Without(s, id);
    forall k | 0 <= k < |r|
      ensures lo < r[k].id
    {
      assert r[k] in s;
    }
  }

  lemma {:induction false} WithoutIncreasing(s: seq<Toast>, id: int)
    requires Increasing(s)
    ensures Increasing(Without(s, id))
  {
    if s != [] {
      WithoutIncreasing(s[1..], id);
      WithoutAbove(s[1..], id, s[0].id);
    }
  }

  /** Showing a toast and then removing it by the id `showToast` returned
      leaves the list as it was. */
  lemma ShowThenRemove(s: seq<Toast>, t: Toast)
    requires forall k :: 0 <= k < |s| ==> s[k].id < t.id
    ensures Without(s + [t], t.id) == s
  {
    WithoutAppend(s, [t], t.id);
    WithoutUnknown(s, t.id);
  }

  class ToastCenter {
    /** The module-level `toastId`: the last id handed out. */
    var toastId: int
    var toasts: seq<Toast>

    /** Every toast has an id handed out so far, in the order handed out. */
    ghost predicate Valid()
      reads this
    {
      && toastId >= 0
      && Increasing(toasts)
      && (forall k :: 0 <= k < |toasts| ==> 1 <= toasts[k].id <= toastId)
    }

    constructor ()
      ensures toastId == 0 && toasts == [] && Valid()
    {
      toastId := 0;
      toasts := [];
    }

    /** `showToast(payload)`: the next id, and the configured toast at the
        end of the list. */
    method ShowToast(p: ToastPayload) returns (id: int)
      requires Valid()
      modifies this
      ensures Valid()
      ensures id == old(toastId) + 1 && toastId == id
      ensures toasts == old(toasts) + [Configure(id, p)]
      ensures forall k :: 0 <= k < |old(toasts)| ==> old(toasts)[k].id < id
    {
      toastId := toastId + 1;
      id := toastId;
      var config := Configure(id, p);
      toasts := toasts + [config];
    }

    /** `success(payload)` and the other helpers. */
    method ShowTyped(h: Helper, p: ToastPayload) returns (id: int)
      requires Valid()
      modifies this
      ensures Valid()
      ensures id == old(toastId) + 1 && toastId == id
      ensures toasts == old(toasts) + [Configure(id, Forced(h, p))]
      ensures toasts[|toasts| - 1].kind == HelperType(h)
    {
      id := ShowToast(Forced(h, p));
    }

    /** `removeToast(id)`: every toast with that id goes, the rest stay in
        order, the counter stays. */
    method RemoveToast(id: int)
      requires Valid()
      modifies this
      ensures Valid()
      ensures toastId == old(toastId)
      ensures toasts == Without(old(toasts), id)
    {
      WithoutIncreasing(toasts, id);
      toasts := Without(toasts, id);
    }
  }
}
