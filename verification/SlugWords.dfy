/** How the words of a text are kept apart in its slug (src/common/utils/slug.util.ts). */
module SlugWords {
  import opened Slugs

  /** Every space as a hyphen of its own. */
  function DashEach(s: string): string {
    if s == "" then "" else [if IsSpace(s[0]) then '-' else s[0]] + DashEach(s[1..])
  }

  /** The passes up to the collapse, but for the trimming and the runs of spaces. */
  function Raw(s: string): string {
    KeepSlugChars(DashEach(ToLowerCase(s)))
  }

  lemma {:induction false} LowerConcat(a: string, b: string)
    ensures ToLowerCase(a + b) == ToLowerCase(a) + ToLowerCase(b)
  {
    if a == "" {
      assert a + b == b;
    } else {
      assert (a + b)[1..] == a[1..] + b;
      LowerConcat(a[1..], b);
    }
  }

  lemma {:induction false} DashConcat(a: string, b: string)
    ensures DashEach(a + b) == DashEach(a) + DashEach(b)
  {
    if a == "" {
      assert a + b == b;
    } else {
      assert (a + b)[1..] == a[1..] + b;
      DashConcat(a[1..], b);
    }
  }

  lemma {:induction false} KeepConcat(a: string, b: string)
    ensures KeepSlugChars(a + b) == KeepSlugChars(a) + KeepSlugChars(b)
  {
    if a == "" {
      assert a + b == b;
    } else {
      assert (a + b)[1..] == a[1..] + b;
      KeepConcat(a[1..], b);
    }
  }

  lemma {:induction false} RawConcat(a: string, b: string)
    ensures Raw(a + b) == Raw(a) + Raw(b)
  {
    LowerConcat(a, b);
    DashConcat(ToLowerCase(a), ToLowerCase(b));
    KeepConcat(DashEach(ToLowerCase(a)), DashEach(ToLowerCase(b)));
  }

  predicate StartsDashed(s: string) {
    s != "" && s[0] == '-'
  }

  lemma {:induction false} CollapseCons(c: char, s: string)
    ensures CollapseDashes([c] + s)
         == if c == '-' && StartsDashed(s) then CollapseDashes(s) else [c] + CollapseDashes(s)
    ensures StartsDashed(CollapseDashes(s)) <==> StartsDashed(s)
  {
    assert ([c] + s)[1..] == s;
    CollapseStart(s);
  }

  lemma {:induction false} CollapseStart(s: string)
    ensures s != "" ==> CollapseDashes(s) != "" && CollapseDashes(s)[0] == s[0]
  {
    if s != "" {
      CollapseStart(s[1..]);
    }
  }

  /** Collapsing makes up for the runs of spaces. */
  lemma {:induction false} RunsCollapse(s: string)
    ensures CollapseDashes(KeepSlugChars(DashSpaces(s))) == CollapseDashes(KeepSlugChars(DashEach(s)))
  {
    if s != "" {
      RunsCollapse(s[1..]);
      var x, y := KeepSlugChars(DashSpaces(s[1..])), KeepSlugChars(DashEach(s[1..]));
      assert DashEach(s)[1..] == DashEach(s[1..]);
      var c := if IsSpace(s[0]) then '-' else s[0];
      CollapseCons(c, x);
      CollapseCons(c, y);
      if IsSpace(s[0]) && |s| > 1 && IsSpace(s[1]) {
        assert DashEach(s[1..])[0] == '-' && StartsDashed(y);
      } else {
        assert DashSpaces(s) == [c] + DashSpaces(s[1..]);
        assert DashSpaces(s)[1..] == DashSpaces(s[1..]);
      }
    }
  }

  lemma {:induction false} LeadingDash(s: string)
    ensures StripDashes(CollapseDashes("-" + s)) == StripDashes(CollapseDashes(s))
  {
    CollapseCons('-', s);
    if !StartsDashed(s) {
      assert ("-" + CollapseDashes(s))[1..] == CollapseDashes(s);
    }
  }

  /** The passes from the hyphens to the end. */
  function Clean(s: string): string {
    StripDashes(CollapseDashes(KeepSlugChars(DashEach(s))))
  }

  lemma {:induction false} KeepLeading(s: string)
    requires s != "" && IsSpace(s[0])
    ensures KeepSlugChars(DashEach(s)) == "-" + KeepSlugChars(DashEach(s[1..]))
  {
    assert DashEach(s)[1..] == DashEach(s[1..]);
  }

  /** Stripping makes up for the trimming. */
  lemma {:induction false} LeadingSpaces(s: string)
    ensures Clean(TrimStart(s)) == Clean(s)
  {
    if s != "" && IsSpace(s[0]) {
      LeadingSpaces(s[1..]);
      KeepLeading(s);
      LeadingDash(KeepSlugChars(DashEach(s[1..])));
    }
  }

  function DropLead(s: string): string {
    if StartsDashed(s) then s[1..] else s
  }

  function DropTrail(s: string): string {
    if s != "" && s[|s| - 1] == '-' then s[..|s| - 1] else s
  }

  lemma {:induction false} DropTrailCons(c: char, s: string)
    requires s != ""
    ensures DropTrail([c] + s) == [c] + DropTrail(s)
  {
    var t := [c] + s;
    assert t[|t| - 1] == s[|s| - 1] && t[..|t| - 1] == [c] + s[..|s| - 1];
  }

  function Around(u: string, v: string): string {
    DropTrail(u) + ("-" + DropLead(v))
  }

  lemma {:induction false} AroundCons(c: char, u: string, v: string)
    requires u != ""
    ensures Around([c] + u, v) == [c] + Around(u, v)
  {
    DropTrailCons(c, u);
    assert [c] + DropTrail(u) + ("-" + DropLead(v)) == [c] + (DropTrail(u) + ("-" + DropLead(v)));
  }

  lemma {:induction false} AroundOne(c: char, v: string)
    ensures Around([c], v) == if c == '-' then "-" + DropLead(v) else [c] + ("-" + DropLead(v))
  {
    assert [c][..0] == "";
  }

  /** Collapsing around a hyphen. */
  lemma {:induction false} CollapseAround(x: string, y: string)
    ensures CollapseDashes(x + ("-" + y)) == Around(CollapseDashes(x), CollapseDashes(y))
  {
    if x == "" {
      assert x + ("-" + y) == "-" + y;
      CollapseCons('-', y);
    } else {
      CollapseAround(x[1..], y);
      assert x + ("-" + y) == [x[0]] + (x[1..] + ("-" + y));
      if x[1..] == "" {
        AroundLast(x[0], y);
        assert x == [x[0]];
      } else {
        AroundFirst(x[0], x[1..], y);
        assert x == [x[0]] + x[1..];
      }
    }
  }

  lemma {:induction false} AroundLast(c: char, y: string)
    ensures CollapseDashes([c] + ("" + ("-" + y))) == Around(CollapseDashes([c]), CollapseDashes(y))
  {
    assert "" + ("-" + y) == "-" + y && [c] + "" == [c];
    CollapseCons(c, "-" + y);
    CollapseCons('-', y);
    CollapseCons(c, "");
    AroundOne(c, CollapseDashes(y));
  }

  lemma {:induction false} AroundFirst(c: char, rest: string, y: string)
    requires rest != ""
    requires CollapseDashes(rest + ("-" + y)) == Around(CollapseDashes(rest), CollapseDashes(y))
    ensures CollapseDashes([c] + (rest + ("-" + y))) == Around(CollapseDashes([c] + rest), CollapseDashes(y))
  {
    CollapseCons(c, rest + ("-" + y));
    CollapseCons(c, rest);
    CollapseStart(rest);
    AroundCons(c, CollapseDashes(rest), CollapseDashes(y));
  }

  lemma {:induction false} StripIs(u: string)
    ensures StripDashes(u) == DropTrail(DropLead(u))
    ensures StripDashes(u) != "" ==> StripDashes(u) == DropLead(DropTrail(u)) && DropTrail(u) != ""
  {
  }

  lemma {:induction false} DropLeadOf(p: string, q: string)
    requires DropLead(p) != ""
    ensures DropLead(p + q) == DropLead(p) + q
  {
    assert p != "" && (p + q)[0] == p[0];
    if StartsDashed(p) {
      assert (p + q)[1..] == p[1..] + q;
    }
  }

  lemma {:induction false} DropTrailOf(p: string, q: string)
    requires q != ""
    ensures DropTrail(p + q) == p + DropTrail(q)
  {
    var t := p + q;
    assert t[|t| - 1] == q[|q| - 1];
    assert t[..|t| - 1] == p + q[..|q| - 1];
  }

  lemma {:induction false} StripAround(u: string, v: string)
    requires StripDashes(u) != "" && StripDashes(v) != ""
    ensures StripDashes(Around(u, v)) == StripDashes(u) + ("-" + StripDashes(v))
  {
    StripIs(u);
    StripIs(v);
    StripIs(Around(u, v));
    var q := DropLead(v);
    DropLeadOf(DropTrail(u), "-" + q);
    DropTrailOf(StripDashes(u), "-" + q);
    DropTrailOf("-", q);
  }

  lemma {:induction false} TrailingDash(s: string)
    ensures StripDashes(CollapseDashes(s + "-")) == StripDashes(CollapseDashes(s))
  {
    var u := CollapseDashes(s);
    assert s + ("-" + "") == s + "-";
    CollapseAround(s, "");
    CollapseGivesSingle(s);
    assert Around(u, "") == DropTrail(u) + "-";
    StripTrailing(u);
  }

  lemma {:induction false} StripTrailing(u: string)
    requires NoDoubleDash(u)
    ensures StripDashes(DropTrail(u) + "-") == StripDashes(u)
  {
    var t := DropTrail(u) + "-";
    assert t[..|t| - 1] == DropTrail(u);
    StripIs(t);
    StripIs(u);
    if DropLead(DropTrail(u)) != "" {
      DropLeadOf(DropTrail(u), "-");
      DropTrailOf(DropLead(DropTrail(u)), "-");
    }
  }

  lemma {:induction false} CollapseGivesSingle(s: string)
    ensures NoDoubleDash(CollapseDashes(s))
  {
    if s != "" {
      CollapseGivesSingle(s[1..]);
      CollapseStart(s[1..]);
    }
  }

  lemma {:induction false} KeepTrailing(s: string)
    requires s != "" && IsSpace(s[|s| - 1])
    ensures KeepSlugChars(DashEach(s)) == KeepSlugChars(DashEach(s[..|s| - 1])) + "-"
  {
    var init, last := s[..|s| - 1], s[|s| - 1];
    assert s == init + [last] && DashEach([last]) == "-";
    assert "-"[1..] == "" && KeepSlugChars("-") == "-";
    DashConcat(init, [last]);
    KeepConcat(DashEach(init), "-");
  }

  lemma {:induction false} TrailingSpaces(s: string)
    ensures Clean(TrimEnd(s)) == Clean(s)
  {
    if s != "" && IsSpace(s[|s| - 1]) {
      TrailingSpaces(s[..|s| - 1]);
      KeepTrailing(s);
      TrailingDash(KeepSlugChars(DashEach(s[..|s| - 1])));
    }
  }

  /** A slug is the text's letters, digits, spaces and hyphens, collapsed and stripped. */
  lemma {:induction false} SlugOfRaw(value: string)
    ensures Slugify(value) == StripDashes(CollapseDashes(Raw(value)))
  {
    var lower := ToLowerCase(value);
    var left := TrimStart(lower);
    LeadingSpaces(lower);
    TrailingSpaces(left);
    RunsCollapse(TrimEnd(left));
  }

  lemma {:induction false} RawSpace(a: string, space: char, b: string)
    requires IsSpace(space)
    ensures Raw(a + [space] + b) == Raw(a) + ("-" + Raw(b))
  {
    RawConcat(a + [space], b);
    RawConcat(a, [space]);
    assert [space][1..] == "" && "-"[1..] == "";
    assert ToLowerCase([space]) == [space] && DashEach([space]) == "-" && Raw([space]) == "-";
    assert Raw(a) + "-" + Raw(b) == Raw(a) + ("-" + Raw(b));
  }

  /** Two texts that have slugs, with a space, a tab or a line end between them, have both slugs with
      a hyphen between them. */
  lemma {:induction false} SpacesBecomeHyphens(a: string, space: char, b: string)
    requires Slugify(a) != "" && Slugify(b) != ""
    requires space == ' ' || '\t' <= space <= '\r'
    ensures Slugify(a + [space] + b) == Slugify(a) + "-" + Slugify(b)
  {
    SlugOfRaw(a);
    SlugOfRaw(b);
    SlugOfRaw(a + [space] + b);
    RawSpace(a, space, b);
    CollapseAround(Raw(a), Raw(b));
    StripAround(CollapseDashes(Raw(a)), CollapseDashes(Raw(b)));
    assert Slugify(a) + "-" + Slugify(b) == Slugify(a) + ("-" + Slugify(b));
  }

  /** A word of letters and digits is its own slug, in lower case. */
  lemma {:induction false} WordIsSlug(word: string)
    requires forall i :: 0 <= i < |word| ==>
      'a' <= word[i] <= 'z' || 'A' <= word[i] <= 'Z' || '0' <= word[i] <= '9'
    ensures |Slugify(word)| == |word|
    ensures forall i :: 0 <= i < |word| ==>
      Slugify(word)[i] == if 'A' <= word[i] <= 'Z' then (word[i] as int + 32) as char else word[i]
  {
    var lower := ToLowerCase(word);
    LowerOfWord(word);
    SlugOfRaw(word);
    PassesKeepWord(lower);
    CollapseKeepsSingleDashes(lower);
  }

  lemma {:induction false} LowerOfWord(word: string)
    ensures |ToLowerCase(word)| == |word|
    ensures forall i :: 0 <= i < |word| ==> ToLowerCase(word)[i] == Lower(word[i])
  {
    if word != "" {
      LowerOfWord(word[1..]);
    }
  }

  lemma {:induction false} PassesKeepWord(s: string)
    requires forall i :: 0 <= i < |s| ==> IsAlnum(s[i])
    ensures KeepSlugChars(DashEach(s)) == s
  {
    if s != "" {
      PassesKeepWord(s[1..]);
      assert DashEach(s)[1..] == DashEach(s[1..]) && s == [s[0]] + s[1..];
    }
  }
}
