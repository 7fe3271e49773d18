/** The helper that turns a stored upload path into a URL the browser can
    load. It is written out four times in the frontend with the same text:
    `toAbsoluteUrl` in fe/src/components/IdeaCard.jsx and
    fe/src/pages/IdeaDetail.jsx, and `absUrl` in fe/src/pages/Home.jsx and
    fe/src/pages/Me.jsx; here it is defined once. The build-time variable
    `VITE_API_BASE` is a parameter. */
module AssetUrl {
  import opened Common

  const DefaultBase: string := "http://localhost:3001"

  /** `import.meta.env.VITE_API_BASE || "http://localhost:3001"`. */
  function ApiBase(env: Option<string>): (r: string)
    ensures TruthyStr(env) ==> r == env.value
    ensures !TruthyStr(env) ==> r == DefaultBase
  {
    OrElse(env, Some(DefaultBase)).value
  }

  /** A path the helper maps to `null`: falsy, or the text a stringified
      null or undefined leaves behind. */
  predicate IsNullish(path: Option<string>) {
    !TruthyStr(path) || path.value == "null" || path.value == "undefined"
  }

  predicate IsAbsolute(p: string) {
    "http://" <= p || "https://" <= p
  }

  /** `s.replace(/^\/+/, "")`. The helper below applies it only to text that
      does not start with "/", where it changes nothing; `toAbsoluteUrl`
      does the same. */
  function StripLeadingSlashes(s: string): (r: string)
    ensures r == [] || r[0] != '/'
    ensures s == [] || s[0] != '/' ==> r == s
    ensures |r| <= |s| && r == s[|s| - |r|..]
  {
    if s != [] && s[0] == '/' then StripLeadingSlashes(s[1..]) else s
  }

  /** The URL for a stored path: `None` for a nullish path, an http(s) URL
      unchanged, anything else the API base followed by the path with
      exactly one "/" between them when the path did not start with "/". */
  function ToAbsoluteUrl(path: Option<string>, env: Option<string>): (r: Option<string>)
    ensures r.None? <==> IsNullish(path)
    ensures r.Some? && IsAbsolute(path.value) ==> r == path
    ensures r.Some? && !IsAbsolute(path.value) ==>
              var base := ApiBase(env);
              && base <= r.value && |base| < |r.value| && r.value[|base|] == '/'
              && (path.value[0] == '/' ==> r.value == base + path.value)
              && (path.value[0] != '/' ==> r.value == base + "/" + path.value)
  {
    if IsNullish(path) then None
    else
      var p := path.value;
      if IsAbsolute(p) then path
      else
        var normalized := if p[0] == '/' then p else "/" + StripLeadingSlashes(p);
        Some(ApiBase(env) + normalized)
  }

  /** With an http(s) base every result is an absolute URL, so applying the
      helper to its own result changes nothing. */
  lemma ToAbsoluteUrlIdempotent(path: Option<string>, env: Option<string>)
    requires IsAbsolute(ApiBase(env))
    ensures ToAbsoluteUrl(ToAbsoluteUrl(path, env), env) == ToAbsoluteUrl(path, env)
  {
    var r := ToAbsoluteUrl(path, env);
    if r.Some? && !IsAbsolute(path.value) {
      var base := ApiBase(env);
      assert base <= r.value;
      if "http://" <= base {
        assert r.value[..7] == base[..7];
        assert "http://" <= r.value;
      } else {
        assert r.value[..8] == base[..8];
        assert "https://" <= r.value;
      }
      assert r.value[0] == 'h';
    }
  }

  /** `absUrl(p) || fallback`, where the fallback is the default avatar
      `absUrl("/uploads/default-gambar.webp") || "/default-gambar.webp"`;
      the inner `||` never falls through, so the default is the API base
      followed by the upload path. */
  function AvatarUrl(path: Option<string>, env: Option<string>): (r: string)
    ensures IsNullish(path) ==> r == ApiBase(env) + "/uploads/default-gambar.webp"
    ensures !IsNullish(path) ==> Some(r) == ToAbsoluteUrl(path, env)
  {
    var upload := "/uploads/default-gambar.webp";
    assert upload[0] == '/' && !IsAbsolute(upload) && !IsNullish(Some(upload));
    var fallback := ToAbsoluteUrl(Some(upload), env);
    var defaultAvatar := if fallback.Some? then fallback.value else "/default-gambar.webp";
    match ToAbsoluteUrl(path, env)
    case Some(u) => u
    case None => defaultAvatar
  }
}
