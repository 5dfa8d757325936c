/** Names of the edge gateway's routes, derived from hostnames (ASCII). */
module RouteNames {
  import opened Text

  const NAMESPACE := "browzer-"
  const BYPASS_SUFFIX := "-oidc"

  predicate Alnum(c: char) { 'a' <= c <= 'z' || '0' <= c <= '9' }

  /** Lower-case, with every run of other characters replaced by one dash. */
  function Dashed(host: string, inRun: bool): string {
    if host == "" then ""
    else if Alnum(LowerChar(host[0])) then [LowerChar(host[0])] + Dashed(host[1..], false)
    else if inRun then Dashed(host[1..], true)
    else "-" + Dashed(host[1..], true)
  }

  function TrimLeft(s: string): string { if s != "" && s[0] == '-' then TrimLeft(s[1..]) else s }

  function TrimRight(s: string): string {
    if s != "" && s[|s| - 1] == '-' then TrimRight(s[..|s| - 1]) else s
  }

  function Slug(host: string): string { TrimRight(TrimLeft(Dashed(host, false))) }

  function OverlayName(host: string): string { NAMESPACE + Slug(host) }

  function BypassName(host: string): string { OverlayName(host) + BYPASS_SUFFIX }

  predicate InNamespace(name: string) { |name| >= |NAMESPACE| && name[..|NAMESPACE|] == NAMESPACE }

  /** Lower-case letters, digits and single dashes. */
  predicate Spaced(s: string) {
    && (forall i :: 0 <= i < |s| ==> Alnum(s[i]) || s[i] == '-')
    && (forall i :: 0 <= i < |s| - 1 ==> s[i] != '-' || s[i + 1] != '-')
  }

  /** Slug text: dashes only inside. */
  predicate IsSlug(s: string) {
    Spaced(s) && (s != "" ==> s[0] != '-' && s[|s| - 1] != '-')
  }

  lemma {:induction false} DashedSpaced(host: string, inRun: bool)
    ensures Spaced(Dashed(host, inRun))
    ensures inRun && Dashed(host, inRun) != "" ==> Dashed(host, inRun)[0] != '-'
  {
    if host != "" {
      if Alnum(LowerChar(host[0])) { DashedSpaced(host[1..], false); } else { DashedSpaced(host[1..], true); }
    }
  }

  lemma {:induction false} TrimLeftSpaced(s: string)
    requires Spaced(s)
    ensures Spaced(TrimLeft(s)) && (TrimLeft(s) != "" ==> TrimLeft(s)[0] != '-')
  {
    if s != "" && s[0] == '-' { TrimLeftSpaced(s[1..]); }
  }

  lemma {:induction false} TrimRightSpaced(s: string)
    requires Spaced(s) && (s != "" ==> s[0] != '-')
    ensures IsSlug(TrimRight(s))
  {
    if s != "" && s[|s| - 1] == '-' { TrimRightSpaced(s[..|s| - 1]); }
  }

  lemma SlugIsSlug(host: string)
    ensures IsSlug(Slug(host))
  {
    DashedSpaced(host, false);
    TrimLeftSpaced(Dashed(host, false));
    TrimRightSpaced(TrimLeft(Dashed(host, false)));
  }

  lemma {:induction false} DashedKeeps(s: string, inRun: bool)
    requires Spaced(s) && (inRun && s != "" ==> s[0] != '-')
    ensures Dashed(s, inRun) == s
  {
    if s != "" {
      DashedKeeps(s[1..], s[0] == '-');
      assert s == [s[0]] + s[1..];
    }
  }

  /** Slugs are stable: a slug is its own slug. */
  lemma SlugIdempotent(host: string)
    ensures Slug(Slug(host)) == Slug(host)
  {
    SlugIsSlug(host);
    DashedKeeps(Slug(host), false);
  }

  /** Names stay in the namespace, and determine their slug and kind. */
  lemma NamesInjective(a: string, b: string)
    ensures InNamespace(OverlayName(a)) && InNamespace(BypassName(a))
    ensures OverlayName(a) == OverlayName(b) <==> Slug(a) == Slug(b)
    ensures BypassName(a) == BypassName(b) <==> Slug(a) == Slug(b)
    ensures OverlayName(a) == BypassName(b) <==> Slug(a) == Slug(b) + BYPASS_SUFFIX
  {
    assert OverlayName(a)[|NAMESPACE|..] == Slug(a) && OverlayName(b)[|NAMESPACE|..] == Slug(b);
    assert BypassName(a)[..|BypassName(a)| - |BYPASS_SUFFIX|] == OverlayName(a);
    assert BypassName(b)[..|BypassName(b)| - |BYPASS_SUFFIX|] == OverlayName(b);
    assert BypassName(b)[|NAMESPACE|..] == Slug(b) + BYPASS_SUFFIX;
    assert Slug(a) == Slug(b) + BYPASS_SUFFIX ==> OverlayName(a) == OverlayName(b) + BYPASS_SUFFIX;
    assert BypassName(a)[..|NAMESPACE|] == NAMESPACE;
  }

  lemma DashedLetter(c: char, rest: string)
    requires Alnum(c)
    ensures Dashed([c] + rest, false) == [c] + Dashed(rest, false)
  {
    assert ([c] + rest)[1..] == rest && LowerChar(c) == c;
  }

  lemma DashedDot(rest: string)
    ensures Dashed("." + rest, false) == "-" + Dashed(rest, true)
  {
    assert ("." + rest)[1..] == rest;
  }

  lemma DotsBecomeDashes(left: char, right: string)
    requires Alnum(left) && IsSlug(right)
    ensures Dashed([left, '.'] + right, false) == [left, '-'] + right
  {
    assert [left, '.'] + right == [left] + ("." + right);
    DashedLetter(left, "." + right);
    DashedDot(right);
    DashedKeeps(right, true);
  }

  /** Different hosts can end up with one name: by equal slugs ... */
  lemma OverlaysCollide()
    ensures OverlayName("a.b") == OverlayName("a-b")
  {
    assert "a.b" == ['a', '.'] + "b" && "a-b" == ['a', '-'] + "b";
    DotsBecomeDashes('a', "b");
    DashedKeeps("a-b", false);
  }

  /** ... and by one host's overlay taking the name of another's bypass. */
  lemma BypassCollides()
    ensures OverlayName("x.oidc") == BypassName("x")
  {
    assert "x.oidc" == ['x', '.'] + "oidc" && "x-oidc" == ['x', '-'] + "oidc";
    DotsBecomeDashes('x', "oidc");
    TrimKeeps("x-oidc");
    DashedKeeps("x", false);
    TrimKeeps("x");
    assert Slug("x.oidc") == "x-oidc" && Slug("x") == "x";
    assert "x" + BYPASS_SUFFIX == "x-oidc";
    NamesInjective("x.oidc", "x");
  }

  lemma TrimKeeps(s: string)
    requires s != "" && s[0] != '-' && s[|s| - 1] != '-'
    ensures TrimRight(TrimLeft(s)) == s
  {
  }
}
