/** Slugs (src/common/utils/slug.util.ts), over ASCII text. */
module Slugs {
  import opened Prelude
  import opened Decimal

  predicate IsSpace(c: char) {
    c == ' ' || '\t' <= c <= '\r'
  }

  predicate IsAlnum(c: char) {
    'a' <= c <= 'z' || IsDigit(c)
  }

  /** [a-z0-9-] */
  predicate IsSlugChar(c: char) {
    IsAlnum(c) || c == '-'
  }

  function Lower(c: char): char {
    if 'A' <= c <= 'Z' then (c as int + 32) as char else c
  }

  function ToLowerCase(s: string): string {
    if s == "" then "" else [Lower(s[0])] + ToLowerCase(s[1..])
  }

  function TrimStart(s: string): string {
    if s != "" && IsSpace(s[0]) then TrimStart(s[1..]) else s
  }

  function TrimEnd(s: string): string {
    if s != "" && IsSpace(s[|s| - 1]) then TrimEnd(s[..|s| - 1]) else s
  }

  /** replace(/\s+/g, '-'): each maximal run of spaces becomes one hyphen. */
  function DashSpaces(s: string): string {
    if s == "" then ""
    else if !IsSpace(s[0]) then [s[0]] + DashSpaces(s[1..])
    else if |s| > 1 && IsSpace(s[1]) then DashSpaces(s[1..])
    else "-" + DashSpaces(s[1..])
  }

  /** replace(/[^a-z0-9-]/g, '') */
  function KeepSlugChars(s: string): string {
    if s == "" then ""
    else if IsSlugChar(s[0]) then [s[0]] + KeepSlugChars(s[1..])
    else KeepSlugChars(s[1..])
  }

  /** replace(/-+/g, '-') */
  function CollapseDashes(s: string): string {
    if s == "" then ""
    else if |s| > 1 && s[0] == '-' && s[1] == '-' then CollapseDashes(s[1..])
    else [s[0]] + CollapseDashes(s[1..])
  }

  /** replace(/^-|-$/g, ''): at most one hyphen off each end. */
  function StripDashes(s: string): string {
    var t := if s != "" && s[0] == '-' then s[1..] else s;
    if t != "" && t[|t| - 1] == '-' then t[..|t| - 1] else t
  }

  function Slugify(value: string): string {
    StripDashes(CollapseDashes(KeepSlugChars(DashSpaces(TrimEnd(TrimStart(ToLowerCase(value)))))))
  }

  // ----- the normal form -----

  predicate NoDoubleDash(s: string) {
    forall i :: 0 <= i < |s| - 1 ==> !(s[i] == '-' && s[i + 1] == '-')
  }

  predicate SlugChars(s: string) {
    forall i :: 0 <= i < |s| ==> IsSlugChar(s[i])
  }

  /** Only [a-z0-9-], with no doubled, leading or trailing hyphen. */
  predicate Normal(s: string) {
    && SlugChars(s) && NoDoubleDash(s)
    && (s != "" ==> s[0] != '-' && s[|s| - 1] != '-')
  }

  lemma {:induction false} KeepGivesSlugChars(s: string)
    ensures SlugChars(KeepSlugChars(s))
  {
    if s != "" {
      KeepGivesSlugChars(s[1..]);
    }
  }

  lemma {:induction false} CollapseGivesSingleDashes(s: string)
    requires SlugChars(s)
    ensures var t := CollapseDashes(s); SlugChars(t) && NoDoubleDash(t) && (s != "" ==> t != "" && t[0] == s[0])
  {
    if s != "" {
      CollapseGivesSingleDashes(s[1..]);
    }
  }

  lemma {:induction false} StripGivesNormal(s: string)
    requires SlugChars(s) && NoDoubleDash(s)
    ensures Normal(StripDashes(s))
  {
  }

  lemma {:induction false} SlugIsNormal(value: string)
    ensures Normal(Slugify(value))
  {
    var kept := KeepSlugChars(DashSpaces(TrimEnd(TrimStart(ToLowerCase(value)))));
    KeepGivesSlugChars(DashSpaces(TrimEnd(TrimStart(ToLowerCase(value)))));
    CollapseGivesSingleDashes(kept);
    StripGivesNormal(CollapseDashes(kept));
  }

  lemma {:induction false} PassesKeepSlugChars(s: string)
    requires SlugChars(s)
    ensures ToLowerCase(s) == s && DashSpaces(s) == s && KeepSlugChars(s) == s
  {
    if s != "" {
      PassesKeepSlugChars(s[1..]);
      assert s == [s[0]] + s[1..];
    }
  }

  lemma {:induction false} CollapseKeepsSingleDashes(s: string)
    requires NoDoubleDash(s)
    ensures CollapseDashes(s) == s
  {
    if s != "" {
      CollapseKeepsSingleDashes(s[1..]);
      assert s == [s[0]] + s[1..];
    }
  }

  lemma {:induction false} NormalIsFixed(s: string)
    requires Normal(s)
    ensures Slugify(s) == s
  {
    PassesKeepSlugChars(s);
    CollapseKeepsSingleDashes(s);
  }

  /** Slugs are exactly the texts that slugifying leaves alone, so slugifying twice is
      slugifying once. */
  lemma {:induction false} SlugifyFixesExactlyNormal(s: string)
    ensures Slugify(s) == s <==> Normal(s)
    ensures Slugify(Slugify(s)) == Slugify(s)
  {
    SlugIsNormal(s);
    NormalIsFixed(Slugify(s));
    if Normal(s) {
      NormalIsFixed(s);
    }
  }

  // ----- what is kept of the text -----

  /** The letters and digits of the text, in order and in lower case. */
  function Alnums(s: string): string {
    if s == "" then ""
    else if IsAlnum(Lower(s[0])) then [Lower(s[0])] + Alnums(s[1..])
    else Alnums(s[1..])
  }

  lemma {:induction false} AlnumsConcat(a: string, b: string)
    ensures Alnums(a + b) == Alnums(a) + Alnums(b)
  {
    if a == "" {
      assert a + b == b;
    } else {
      AlnumsConcat(a[1..], b);
      assert (a + b)[1..] == a[1..] + b;
    }
  }

  lemma {:induction false} AlnumsOfPasses(s: string)
    ensures Alnums(ToLowerCase(s)) == Alnums(s) && Alnums(DashSpaces(s)) == Alnums(s)
    ensures Alnums(TrimStart(s)) == Alnums(s) && Alnums(CollapseDashes(s)) == Alnums(s)
  {
    if s != "" {
      AlnumsOfPasses(s[1..]);
    }
  }

  lemma {:induction false} AlnumsOfKeep(s: string)
    requires ToLowerCase(s) == s
    ensures Alnums(KeepSlugChars(s)) == Alnums(s)
  {
    if s != "" {
      assert ToLowerCase(s)[0] == s[0] && ToLowerCase(s)[1..] == s[1..];
      AlnumsOfKeep(s[1..]);
    }
  }

  lemma {:induction false} AlnumsOfTrimEnd(s: string)
    ensures Alnums(TrimEnd(s)) == Alnums(s)
  {
    if s != "" && IsSpace(s[|s| - 1]) {
      var init, last := s[..|s| - 1], s[|s| - 1..];
      AlnumsOfTrimEnd(init);
      AlnumsConcat(init, last);
      assert s == init + last && Alnums(last) == "";
    }
  }

  lemma {:induction false} AlnumsOfStrip(s: string)
    ensures Alnums(StripDashes(s)) == Alnums(s)
  {
    var t := if s != "" && s[0] == '-' then s[1..] else s;
    if t != "" && t[|t| - 1] == '-' {
      var init, last := t[..|t| - 1], t[|t| - 1..];
      AlnumsConcat(init, last);
      assert t == init + last && Alnums(last) == "";
    }
  }

  predicate IsLower(s: string) {
    forall i :: 0 <= i < |s| ==> Lower(s[i]) == s[i]
  }

  lemma {:induction false} LowerGivesLower(s: string)
    ensures IsLower(ToLowerCase(s)) && |ToLowerCase(s)| == |s|
  {
    if s != "" {
      LowerGivesLower(s[1..]);
    }
  }

  lemma {:induction false} LowerStaysLower(s: string)
    requires IsLower(s)
    ensures IsLower(TrimStart(s)) && IsLower(TrimEnd(s)) && IsLower(DashSpaces(s)) && ToLowerCase(s) == s
  {
    if s != "" {
      LowerStaysLower(s[1..]);
      LowerTrimEnd(s);
      assert s == [s[0]] + s[1..];
    }
  }

  lemma {:induction false} LowerTrimEnd(s: string)
    requires IsLower(s)
    ensures IsLower(TrimEnd(s))
  {
    if s != "" && IsSpace(s[|s| - 1]) {
      LowerTrimEnd(s[..|s| - 1]);
    }
  }

  /** A slug keeps every letter and digit of the text, in order. */
  lemma {:induction false} SlugKeepsAlnums(value: string)
    ensures Alnums(Slugify(value)) == Alnums(value)
  {
    var lower := ToLowerCase(value);
    var left := TrimStart(lower);
    var trimmed := TrimEnd(left);
    var dashed := DashSpaces(trimmed);
    var kept := KeepSlugChars(dashed);
    LowerGivesLower(value);
    LowerStaysLower(lower);
    LowerStaysLower(left);
    LowerStaysLower(trimmed);
    LowerStaysLower(dashed);
    AlnumsOfPasses(value);
    AlnumsOfPasses(lower);
    AlnumsOfTrimEnd(left);
    AlnumsOfPasses(trimmed);
    AlnumsOfKeep(dashed);
    AlnumsOfPasses(kept);
    AlnumsOfStrip(CollapseDashes(kept));
  }

  /** No slug can be made exactly when the text has no letter and no digit. */
  lemma {:induction false} EmptySlugIff(value: string)
    ensures Slugify(value) == "" <==> Alnums(value) == ""
  {
    SlugIsNormal(value);
    SlugKeepsAlnums(value);
    var slug := Slugify(value);
    if slug != "" {
      assert IsAlnum(slug[0]) && Lower(slug[0]) == slug[0];
    }
  }

  // ----- the search for a free slug -----

  /** The text probed at an attempt: base, base-1, base-2, ... */
  function Candidate(base: string, attempt: nat): string {
    if attempt == 0 then base else base + "-" + Digits(attempt)
  }

  lemma {:induction false} CandidatesDiffer(base: string, a: nat, b: nat)
    requires a < b
    ensures Candidate(base, a) != Candidate(base, b)
  {
    ValueOfDigits(b);
    if a == 0 {
      assert |Candidate(base, b)| > |base|;
    } else if Candidate(base, a) == Candidate(base, b) {
      assert (base + "-" + Digits(a))[|base| + 1..] == Digits(a);
      assert (base + "-" + Digits(b))[|base| + 1..] == Digits(b);
      DigitsInjective(a, b);
    }
  }

  lemma {:induction false} JoinIsNormal(base: string, d: string)
    requires Normal(base) && base != "" && AllDigits(d) && d != ""
    ensures Normal(base + "-" + d)
  {
    var c := base + "-" + d;
    forall i | 0 <= i < |c|
      ensures IsSlugChar(c[i]) && (i != |base| ==> c[i] == if i < |base| then base[i] else d[i - |base| - 1])
    {
    }
    assert c[|base| - 1] == base[|base| - 1] && c[|base| + 1] == d[0];
  }

  lemma {:induction false} CandidateIsNormal(base: string, attempt: nat)
    requires Normal(base) && base != ""
    ensures Normal(Candidate(base, attempt))
  {
    if attempt > 0 {
      ValueOfDigits(attempt);
      JoinIsNormal(base, Digits(attempt));
    }
  }

  /** The first n candidates, as a set. */
  ghost function Probed(base: string, n: nat): (s: set<string>)
    ensures forall c :: c in s <==> exists k :: 0 <= k < n && c == Candidate(base, k)
  {
    if n == 0 then {} else Probed(base, n - 1) + {Candidate(base, n - 1)}
  }

  lemma {:induction false} ProbedCount(base: string, n: nat)
    ensures |Probed(base, n)| == n
  {
    if n > 0 {
      ProbedCount(base, n - 1);
      if Candidate(base, n - 1) in Probed(base, n - 1) {
        var k :| 0 <= k < n - 1 && Candidate(base, n - 1) == Candidate(base, k);
        CandidatesDiffer(base, k, n - 1);
      }
    }
  }

  lemma {:induction false} SubsetCount(a: set<string>, b: set<string>)
    requires a <= b
    ensures |a| <= |b|
  {
    assert b == a + (b - a);
  }

  lemma {:induction false} ProbesFit(base: string, taken: set<string>, n: nat)
    requires forall k :: 0 <= k < n ==> Candidate(base, k) in taken
    ensures n <= |taken|
  {
    ProbedCount(base, n);
    SubsetCount(Probed(base, n), taken);
  }

  /** resolveUniqueSlug over the finite set of slugs in use: the first free candidate, found
      within |taken| + 1 probes. */
  method ResolveUniqueSlug(text: string, taken: set<string>) returns (r: Result<string>, probes: nat)
    ensures r.Err? <==> Alnums(text) == ""
    ensures r.Ok? ==>
      && 1 <= probes <= |taken| + 1
      && r.value == Candidate(Slugify(text), probes - 1)
      && r.value !in taken && Normal(r.value)
      && (forall k :: 0 <= k < probes - 1 ==> Candidate(Slugify(text), k) in taken)
  {
    var base := Slugify(text);
    EmptySlugIff(text);
    probes := 0;
    if base == "" {
      return Err(BadRequest), probes;
    }
    var slug := base;
    var attempt := 0;
    ProbesFit(base, taken, 0);
    while slug in taken
      invariant slug == Candidate(base, attempt)
      invariant forall k :: 0 <= k < attempt ==> Candidate(base, k) in taken
      invariant attempt <= |taken|
      decreases |taken| - attempt
    {
      assert forall k :: 0 <= k < attempt + 1 ==> Candidate(base, k) in taken;
      ProbesFit(base, taken, attempt + 1);
      attempt := attempt + 1;
      slug := base + "-" + Digits(attempt);
    }
    SlugIsNormal(text);
    CandidateIsNormal(base, attempt);
    r, probes := Ok(slug), attempt + 1;
  }
}
