/** Workspace slugs of migration 202607010012: the canonical form of a company name and the loop
    that gives every company a slug of its own. */
module WorkspaceSlug {
  import opened Decimal
  import opened Text

  // ----- canonical form -----

  predicate IsSlugChar(c: char) {
    'a' <= c <= 'z' || '0' <= c <= '9'
  }

  function LowerChar(c: char): char {
    if 'A' <= c <= 'Z' then ((c as int) + 32) as char else c
  }

  /** Latin capitals become small letters, everything else stays. */
  function Lower(s: string): (r: string)
    ensures |r| == |s|
    ensures forall i :: 0 <= i < |s| ==> (r[i] as int) == (s[i] as int) + if 'A' <= s[i] <= 'Z' then 32 else 0
  {
    if s == "" then "" else [LowerChar(s[0])] + Lower(s[1..])
  }

  function StripLeft(s: string, drop: char -> bool): string {
    if s != "" && drop(s[0]) then StripLeft(s[1..], drop) else s
  }

  function StripRight(s: string, drop: char -> bool): string {
    if s != "" && drop(s[|s| - 1]) then StripRight(s[..|s| - 1], drop) else s
  }

  function Strip(s: string, drop: char -> bool): string {
    StripRight(StripLeft(s, drop), drop)
  }

  /** The part of `s` after its leading run of separator characters. */
  function SkipRun(s: string): (r: string)
    ensures |r| <= |s|
    ensures s != "" && !IsSlugChar(s[0]) ==> |r| < |s|
    ensures r != "" ==> IsSlugChar(r[0])
  {
    if s == "" || IsSlugChar(s[0]) then s else SkipRun(s[1..])
  }

  /** SLUG_PATTERN.sub("-", s): every maximal run of other characters becomes one dash. */
  function Collapse(s: string): string
    decreases |s|
  {
    if s == "" then ""
    else if IsSlugChar(s[0]) then [s[0]] + Collapse(s[1..])
    else "-" + Collapse(SkipRun(s))
  }

  function IsDash(c: char): bool { c == '-' }

  function NormalizeSlug(value: string): string {
    var slug := Strip(Collapse(Lower(Strip(value, IsSpace))), IsDash);
    if slug == "" then "company" else slug
  }

  /** Letters, digits and single dashes between them. */
  ghost predicate Clean(s: string) {
    && (forall i :: 0 <= i < |s| ==> IsSlugChar(s[i]) || s[i] == '-')
    && (forall i :: 0 <= i < |s| - 1 ==> s[i] != '-' || s[i + 1] != '-')
  }

  ghost predicate Canonical(s: string) {
    s != "" && Clean(s) && s[0] != '-' && s[|s| - 1] != '-'
  }

  lemma {:induction false} CollapseIsClean(s: string)
    ensures Clean(Collapse(s))
    ensures s != "" && IsSlugChar(s[0]) ==> Collapse(s) != "" && Collapse(s)[0] == s[0]
    decreases |s|
  {
    if s != "" {
      if IsSlugChar(s[0]) {
        CollapseIsClean(s[1..]);
      } else {
        CollapseIsClean(SkipRun(s));
      }
    }
  }

  lemma {:induction false} StripLeftKeepsClean(s: string)
    requires Clean(s)
    ensures Clean(StripLeft(s, IsDash))
    ensures var r := StripLeft(s, IsDash); r == "" || r[0] != '-'
  {
    if s != "" && IsDash(s[0]) {
      StripLeftKeepsClean(s[1..]);
    }
  }

  lemma {:induction false} StripRightKeepsClean(s: string)
    requires Clean(s)
    ensures Clean(StripRight(s, IsDash))
    ensures var r := StripRight(s, IsDash); r == "" || r[|r| - 1] != '-'
    ensures var r := StripRight(s, IsDash); r != "" ==> s != "" && r[0] == s[0]
  {
    if s != "" && IsDash(s[|s| - 1]) {
      StripRightKeepsClean(s[..|s| - 1]);
    }
  }

  /** Whatever the company name, its normalized slug is in canonical form. */
  lemma NormalizedIsCanonical(value: string)
    ensures Canonical(NormalizeSlug(value))
  {
    var collapsed := Collapse(Lower(Strip(value, IsSpace)));
    CollapseIsClean(Lower(Strip(value, IsSpace)));
    StripLeftKeepsClean(collapsed);
    StripRightKeepsClean(StripLeft(collapsed, IsDash));
    assert Canonical("company");
  }

  lemma {:induction false} LowerKeepsClean(s: string)
    requires Clean(s)
    ensures Lower(s) == s
  {
    if s != "" {
      LowerKeepsClean(s[1..]);
    }
  }

  lemma {:induction false} CollapseKeepsClean(s: string)
    requires Clean(s)
    requires s != "" ==> s[|s| - 1] != '-'
    ensures Collapse(s) == s
    decreases |s|
  {
    if s != "" {
      CollapseKeepsClean(s[1..]);
      if s[0] == '-' {
        assert SkipRun(s) == s[1..];
      }
    }
  }

  /** On canonical slugs normalization is the identity. */
  lemma NormalizeKeepsCanonical(s: string)
    requires Canonical(s)
    ensures NormalizeSlug(s) == s
  {
    assert !IsSpace(s[0]) && !IsSpace(s[|s| - 1]);
    assert Strip(s, IsSpace) == s;
    LowerKeepsClean(s);
    CollapseKeepsClean(s);
  }

  // ----- disambiguation -----

  /** The slugs the loop tries for one company: base, base-2, base-3, ... */
  function Candidate(base: string, k: nat): string {
    if k == 0 then base else base + "-" + Print(k + 1)
  }

  lemma CandidateSuffix(base: string, k: nat)
    requires k > 0
    ensures |Candidate(base, k)| > |base| + 1
    ensures Candidate(base, k)[|base| + 1..] == Print(k + 1)
  {
    var digits := Print(k + 1);
    assert (base + "-" + digits)[|base| + 1..] == digits;
  }

  lemma CandidatesDiffer(base: string, j: nat, k: nat)
    requires j != k
    ensures Candidate(base, j) != Candidate(base, k)
  {
    if j > 0 {
      CandidateSuffix(base, j);
      ParsePrint(j + 1);
    }
    if k > 0 {
      CandidateSuffix(base, k);
      ParsePrint(k + 1);
    }
  }

  lemma CandidateIsCanonical(base: string, k: nat)
    requires Canonical(base)
    ensures Canonical(Candidate(base, k))
  {
    if k > 0 {
      var s, n := Candidate(base, k), |base|;
      assert s == base + ("-" + Print(k + 1));
      forall i | 0 <= i < |s|
        ensures IsSlugChar(s[i]) || s[i] == '-'
        ensures i > n ==> s[i] != '-'
        ensures i < n ==> s[i] == base[i]
      {
        if i > n {
          assert s[i] == Print(k + 1)[i - n - 1];
        }
      }
    }
  }

  lemma {:induction false} SubsetIsNoLarger<T>(a: set<T>, b: set<T>)
    requires a <= b
    ensures |a| <= |b|
  {
    if a != {} {
      var x :| x in a;
      SubsetIsNoLarger(a - {x}, b - {x});
    }
  }

  /** The first free candidate. By the pigeonhole principle the suffix counter ends at most at
      |used| + 2: one taken slug rules out only one candidate. */
  method Disambiguate(base: string, used: set<string>) returns (slug: string, suffix: nat)
    ensures slug !in used
    ensures 2 <= suffix <= |used| + 2
    ensures slug == Candidate(base, suffix - 2)
    ensures forall j :: 0 <= j < suffix - 2 ==> Candidate(base, j) in used
  {
    slug, suffix := base, 2;
    ghost var tried: set<string> := {};
    while slug in used
      invariant suffix >= 2 && slug == Candidate(base, suffix - 2)
      invariant forall j :: 0 <= j < suffix - 2 ==> Candidate(base, j) in used
      invariant forall t :: t in tried ==> exists j :: 0 <= j < suffix - 2 && t == Candidate(base, j)
      invariant tried <= used && |tried| == suffix - 2
      invariant suffix <= |used| + 2
      decreases |used| + 2 - suffix
    {
      forall j | 0 <= j < suffix - 2 ensures Candidate(base, j) != slug {
        CandidatesDiffer(base, j, suffix - 2);
      }
      tried := tried + {slug};
      SubsetIsNoLarger(tried, used);
      slug := base + "-" + Print(suffix);
      suffix := suffix + 1;
    }
  }

  /** Base name of a company row: a missing or empty name counts as "company". */
  function BaseSlug(name: string): string {
    NormalizeSlug(if name == "" then "company" else name)
  }

  function BaseSlugs(names: seq<string>): (bases: seq<string>)
    ensures |bases| == |names|
    ensures forall i :: 0 <= i < |names| ==> bases[i] == BaseSlug(names[i])
  {
    if names == [] then [] else BaseSlugs(names[..|names| - 1]) + [BaseSlug(names[|names| - 1])]
  }

  /** What the loop of `upgrade` leaves: each company has the first candidate of its base slug that
      no earlier company took. */
  ghost predicate Assigned(bases: seq<string>, slugs: seq<string>) {
    && |slugs| == |bases|
    && (slugs != [] ==>
          var n := |slugs| - 1;
          Assigned(bases[..n], slugs[..n]) && FirstFree(bases[n], slugs[..n], slugs[n]))
  }

  ghost predicate FirstFree(base: string, taken: seq<string>, slug: string) {
    exists k: nat ::
      && k <= |taken| && slug == Candidate(base, k) && slug !in taken
      && forall j :: 0 <= j < k ==> Candidate(base, j) in taken
  }

  lemma {:induction false} ElementsAreNoMore(s: seq<string>, elements: set<string>)
    requires forall x :: x in elements ==> x in s
    ensures |elements| <= |s|
  {
    if s == [] {
      assert elements == {};
    } else {
      var x := s[|s| - 1];
      forall y | y in elements - {x} ensures y in s[..|s| - 1] {
        assert y in s && y != x;
      }
      ElementsAreNoMore(s[..|s| - 1], elements - {x});
      SubsetIsNoLarger(elements, (elements - {x}) + {x});
    }
  }

  ghost predicate AllCanonical(slugs: seq<string>) {
    forall i :: 0 <= i < |slugs| ==> Canonical(slugs[i])
  }

  lemma AssignOneMore(bases: seq<string>, slugs: seq<string>, base: string, slug: string)
    requires Assigned(bases, slugs) && FirstFree(base, slugs, slug)
    ensures Assigned(bases + [base], slugs + [slug])
  {
    assert (slugs + [slug])[..|slugs|] == slugs && (bases + [base])[..|slugs|] == bases;
  }

  /** Assigned slugs are pairwise distinct. */
  lemma {:induction false} AssignedAreDistinct(bases: seq<string>, slugs: seq<string>)
    requires Assigned(bases, slugs)
    ensures forall i, j :: 0 <= i < j < |slugs| ==> slugs[i] != slugs[j]
  {
    if slugs != [] {
      var n := |slugs| - 1;
      AssignedAreDistinct(bases[..n], slugs[..n]);
      assert forall i :: 0 <= i < n ==> slugs[i] in slugs[..n];
    }
  }

  lemma BaseSlugsSnoc(names: seq<string>, i: nat)
    requires i < |names|
    ensures BaseSlugs(names[..i + 1]) == BaseSlugs(names[..i]) + [BaseSlug(names[i])]
    ensures Canonical(BaseSlug(names[i]))
  {
    assert names[..i + 1][..i] == names[..i];
    NormalizedIsCanonical(if names[i] == "" then "company" else names[i]);
  }

  /** What one pass of the loop adds. */
  lemma AssignStep(bases: seq<string>, base: string, slugs: seq<string>, used: set<string>, slug: string, k: nat)
    requires Assigned(bases, slugs) && AllCanonical(slugs) && Canonical(base)
    requires forall s :: s in used <==> s in slugs
    requires slug !in used && slug == Candidate(base, k) && k <= |used|
    requires forall j :: 0 <= j < k ==> Candidate(base, j) in used
    ensures Assigned(bases + [base], slugs + [slug]) && AllCanonical(slugs + [slug])
    ensures forall s :: s in used + {slug} <==> s in slugs + [slug]
  {
    ElementsAreNoMore(slugs, used);
    CandidateIsCanonical(base, k);
    assert FirstFree(base, slugs, slug);
    AssignOneMore(bases, slugs, base, slug);
  }

  method AssignSlugs(names: seq<string>) returns (slugs: seq<string>)
    ensures Assigned(BaseSlugs(names), slugs)
    ensures AllCanonical(slugs)
    ensures forall i, j :: 0 <= i < j < |slugs| ==> slugs[i] != slugs[j]
  {
    slugs := [];
    var used: set<string> := {};
    for i := 0 to |names|
      invariant Assigned(BaseSlugs(names[..i]), slugs)
      invariant forall s :: s in used <==> s in slugs
      invariant AllCanonical(slugs)
    {
      var base := BaseSlug(names[i]);
      var slug, suffix := Disambiguate(base, used);
      BaseSlugsSnoc(names, i);
      AssignStep(BaseSlugs(names[..i]), base, slugs, used, slug, suffix - 2);
      slugs := slugs + [slug];
      used := used + {slug};
    }
    assert names[..|names|] == names;
    AssignedAreDistinct(BaseSlugs(names), slugs);
  }

  lemma FirstFreeIsUnique(base: string, taken: seq<string>, a: string, b: string)
    requires FirstFree(base, taken, a) && FirstFree(base, taken, b)
    ensures a == b
  {
    var j: nat :| j <= |taken| && a == Candidate(base, j) && a !in taken
                  && forall i :: 0 <= i < j ==> Candidate(base, i) in taken;
    var k: nat :| k <= |taken| && b == Candidate(base, k) && b !in taken
                  && forall i :: 0 <= i < k ==> Candidate(base, i) in taken;
  }

  /** The outcome depends on nothing but the names: Assigned has one solution. */
  lemma {:induction false} AssignmentIsUnique(bases: seq<string>, a: seq<string>, b: seq<string>)
    requires Assigned(bases, a) && Assigned(bases, b)
    ensures a == b
  {
    if bases != [] {
      var n := |bases| - 1;
      AssignmentIsUnique(bases[..n], a[..n], b[..n]);
      FirstFreeIsUnique(bases[n], a[..n], a[n], b[n]);
      assert a == a[..n] + [a[n]] && b == b[..n] + [b[n]];
    }
  }
}
