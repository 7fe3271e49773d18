/** be/src/utils/slug.js: deriving an idea's URL slug from its title and
    making it unique among the stored ideas by probing `base-2`, `base-3`, …
    The transliterating `slugify` library is a parameter of the model. */
module Slug {
  import opened Common

  /** `toSlug` keeps at most this many characters of slugify's output. */
  const MaxSlugLength: nat := 180

  /** The base used when a title slugifies to nothing. */
  const FallbackBase: string := "ide"

  /** `toSlug(title)`: slugify's output cut to its first 180 characters. */
  function ToSlug(slugify: string -> string, title: string): (r: string)
    ensures |r| <= MaxSlugLength
    ensures r <= slugify(title)
    ensures |slugify(title)| <= MaxSlugLength ==> r == slugify(title)
    ensures |slugify(title)| > MaxSlugLength ==> |r| == MaxSlugLength
  {
    var s := slugify(title);
    if |s| <= MaxSlugLength then s else s[..MaxSlugLength]
  }

  /** `toSlug(title) || "ide"`. */
  function SlugBase(slugify: string -> string, title: string): (r: string)
    ensures r != "" && |r| <= MaxSlugLength
    ensures ToSlug(slugify, title) == "" ==> r == FallbackBase
    ensures ToSlug(slugify, title) != "" ==> r == ToSlug(slugify, title)
  {
    var s := ToSlug(slugify, title);
    if s == "" then FallbackBase else s
  }

  /** The probe `${base}-${n}`. */
  function Candidate(base: string, n: nat): string {
    base + "-" + NatToString(n)
  }

  lemma CandidateInjective(base: string, m: nat, n: nat)
    requires Candidate(base, m) == Candidate(base, n)
    ensures m == n
  {
    var c := Candidate(base, m);
    assert NatToString(m) == c[|base| + 1..];
    assert NatToString(n) == c[|base| + 1..];
    NatToStringInjective(m, n);
  }

  /** Every probe starts with its base, so `slug LIKE 'base%'` keeps it. */
  lemma CandidateHasPrefix(base: string, n: nat)
    ensures base <= Candidate(base, n)
  {
    assert Candidate(base, n)[..|base|] == base;
  }

  /** `excludeId ? … : …`: an id only excludes when it is truthy (non-zero). */
  predicate Excludes(excludeId: Option<int>, id: int) {
    excludeId.Some? && excludeId.value != 0 && id == excludeId.value
  }

  /** Slugs of all other ideas: the table before the `LIKE` filter. */
  function OtherSlugs(slugs: map<int, string>, excludeId: Option<int>): (r: set<string>)
    ensures forall id :: id in slugs && !Excludes(excludeId, id) ==> slugs[id] in r
    ensures forall s :: s in r ==> exists id :: id in slugs && !Excludes(excludeId, id) && slugs[id] == s
  {
    set id | id in slugs && !Excludes(excludeId, id) :: slugs[id]
  }

  /** Strings of `all` that start with `base` (SQL `LIKE 'base%'`). */
  function WithPrefix(all: set<string>, base: string): (r: set<string>)
    ensures r <= all
    ensures forall s :: s in all && base <= s ==> s in r
    ensures forall s :: s in r ==> base <= s
  {
    set s | s in all && base <= s
  }

  /** The rows the query of slug.js:11-16 returns, as a set of slugs. */
  function ExistingSlugs(slugs: map<int, string>, base: string, excludeId: Option<int>): (r: set<string>)
    ensures forall s :: s in r ==> base <= s
    ensures forall id :: id in slugs && base <= slugs[id] && !Excludes(excludeId, id) ==> slugs[id] in r
    ensures forall s :: s in r ==> exists id :: id in slugs && !Excludes(excludeId, id) && slugs[id] == s && base <= s
  {
    WithPrefix(OtherSlugs(slugs, excludeId), base)
  }

  // ---------------------------------------------------------------------
  // The least free suffix, and why the probing stops

  ghost function Probes(base: string, n: int): set<string> {
    set k: nat | 2 <= k < n :: Candidate(base, k)
  }

  lemma {:induction false} ProbesCard(base: string, n: int)
    requires n >= 2
    ensures |Probes(base, n)| == n - 2
    decreases n
  {
    if n == 2 {
      assert Probes(base, n) == {};
    } else {
      ProbesCard(base, n - 1);
      var c := Candidate(base, n - 1);
      var smaller := Probes(base, n - 1);
      forall x | x in smaller ensures x != c {
        var k: nat :| 2 <= k < n - 1 && x == Candidate(base, k);
        if x == c { CandidateInjective(base, k, n - 1); }
      }
      assert Probes(base, n) == smaller + {c};
    }
  }

  /** While every probe below `n` is taken, `n` cannot run past |exist| + 2. */
  lemma ProbesBound(base: string, exist: set<string>, n: int)
    requires n >= 2
    requires forall k: nat :: 2 <= k < n ==> Candidate(base, k) in exist
    ensures n - 2 <= |exist|
  {
    ProbesCard(base, n);
    assert Probes(base, n) <= exist;
    SubsetCard(Probes(base, n), exist);
  }

  lemma SubsetCard<T>(a: set<T>, b: set<T>)
    requires a <= b
    ensures |a| <= |b|
  {
    assert b == a + (b - a);
  }

  /** The smallest suffix `m >= n` whose probe is free, given that the
      probes from 2 up to `n` are all taken. */
  function FreeSuffix(base: string, exist: set<string>, n: nat): (m: nat)
    requires n >= 2
    requires forall k: nat :: 2 <= k < n ==> Candidate(base, k) in exist
    ensures m >= n
    ensures Candidate(base, m) !in exist
    ensures forall k: nat :: 2 <= k < m ==> Candidate(base, k) in exist
    decreases |exist| + 2 - n
  {
    if Candidate(base, n) !in exist then n
    else
      ProbesBound(base, exist, n + 1);
      FreeSuffix(base, exist, n + 1)
  }

  /** The answer `uniqueIdeaSlug` gives for a base and the colliding slugs:
      the base itself when free, else `base-n` for the least free n >= 2. */
  function UniqueSlug(base: string, exist: set<string>): (r: string)
    ensures r !in exist
    ensures base !in exist ==> r == base
    ensures base in exist ==> r == Candidate(base, FreeSuffix(base, exist, 2))
  {
    if base !in exist then base else Candidate(base, FreeSuffix(base, exist, 2))
  }

  /** The suffix is the least one: no smaller free probe exists. */
  lemma UniqueSlugIsLeast(base: string, exist: set<string>, n: nat)
    requires base in exist && 2 <= n && Candidate(base, n) !in exist
    ensures UniqueSlug(base, exist) == Candidate(base, FreeSuffix(base, exist, 2))
    ensures FreeSuffix(base, exist, 2) <= n
  {
  }

  lemma {:induction false} FreeSuffixPrefixFilter(base: string, all: set<string>, n: nat)
    requires n >= 2
    requires forall k: nat :: 2 <= k < n ==> Candidate(base, k) in all
    ensures forall k: nat :: 2 <= k < n ==> Candidate(base, k) in WithPrefix(all, base)
    ensures FreeSuffix(base, all, n) == FreeSuffix(base, WithPrefix(all, base), n)
    decreases |all| + 2 - n
  {
    var filtered := WithPrefix(all, base);
    forall k: nat | 2 <= k < n ensures Candidate(base, k) in filtered {
      CandidateHasPrefix(base, k);
    }
    CandidateHasPrefix(base, n);
    if Candidate(base, n) in all {
      ProbesBound(base, all, n + 1);
      FreeSuffixPrefixFilter(base, all, n + 1);
    }
  }

  /** The `LIKE 'base%'` pre-filter never changes the answer: probing the
      prefix-matching slugs gives what probing every slug would give. */
  lemma PrefixFilterHarmless(base: string, all: set<string>)
    ensures UniqueSlug(base, WithPrefix(all, base)) == UniqueSlug(base, all)
  {
    if base in all {
      FreeSuffixPrefixFilter(base, all, 2);
    }
  }

  /** Saving an idea again under the title its slug came from keeps that
      slug, provided no other idea holds it. */
  lemma ResaveKeepsSlug(slugs: map<int, string>, id: int, base: string)
    requires id != 0 && id in slugs && slugs[id] == base
    requires forall other :: other in slugs && other != id ==> slugs[other] != base
    ensures UniqueSlug(base, ExistingSlugs(slugs, base, Some(id))) == base
  {
  }

  /** The answer always starts with its base. */
  lemma UniqueSlugHasPrefix(base: string, exist: set<string>)
    ensures base <= UniqueSlug(base, exist)
  {
    if base in exist {
      CandidateHasPrefix(base, FreeSuffix(base, exist, 2));
    }
  }

  /** The answer is the slug of no idea outside the excluded one, not just
      of no idea the `LIKE` query returned. */
  lemma FreshSlug(slugs: map<int, string>, base: string, excludeId: Option<int>)
    ensures forall id :: id in slugs && !Excludes(excludeId, id) ==>
              slugs[id] != UniqueSlug(base, ExistingSlugs(slugs, base, excludeId))
  {
    var r := UniqueSlug(base, ExistingSlugs(slugs, base, excludeId));
    UniqueSlugHasPrefix(base, ExistingSlugs(slugs, base, excludeId));
  }

  /** `uniqueIdeaSlug(title, excludeId)` over the slug column `slugs`
      (idea id to slug). */
  method UniqueIdeaSlug(slugify: string -> string, title: string, excludeId: Option<int>,
                        slugs: map<int, string>)
    returns (slug: string)
    ensures slug == UniqueSlug(SlugBase(slugify, title),
                               ExistingSlugs(slugs, SlugBase(slugify, title), excludeId))
    ensures slug !in ExistingSlugs(slugs, SlugBase(slugify, title), excludeId)
  {
    var base := ToSlug(slugify, title);
    if base == "" {
      base := FallbackBase;
    }
    var exist := ExistingSlugs(slugs, base, excludeId);
    if base !in exist {
      return base;
    }
    var n: nat := 2;
    while Candidate(base, n) in exist
      invariant n >= 2
      invariant forall k: nat :: 2 <= k < n ==> Candidate(base, k) in exist
      invariant FreeSuffix(base, exist, n) == FreeSuffix(base, exist, 2)
      decreases |exist| + 2 - n
    {
      ProbesBound(base, exist, n + 1);
      n := n + 1;
    }
    slug := Candidate(base, n);
  }
}
