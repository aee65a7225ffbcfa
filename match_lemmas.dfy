/** What MatchPattern and MatchString promise, proved about their reference
    definitions `Overlaps` and `Matches`. */
module MatchLemmas {
  import opened GoStrings
  import opened Patterns
  import opened SampleSegments

  /** A segment that is neither kind of wildcard. */
  predicate Literal(seg: string) {
    !IsOneLevelWildCard(seg) && !IsMultiLevelWildCard(seg)
  }

  // ---------------------------------------------------------------------
  // MatchPattern

  /** Two template segments are compatible when either is a one-level
      wildcard or both are the same text. */
  predicate Compatible(a: string, b: string) {
    IsOneLevelWildCard(a) || IsOneLevelWildCard(b) || a == b
  }

  /** The first index, below both lengths, at which either template has a
      multi-level wildcard; the shorter length when there is none. */
  function FirstStarPair(ps: seq<string>, vs: seq<string>): (k: nat)
    ensures k <= |ps| && k <= |vs|
    ensures k < |ps| && k < |vs| ==> IsMultiLevelWildCard(ps[k]) || IsMultiLevelWildCard(vs[k])
    ensures (k < |ps| && k < |vs|) || k == |ps| || k == |vs|
    ensures forall j :: 0 <= j < k ==> !IsMultiLevelWildCard(ps[j]) && !IsMultiLevelWildCard(vs[j])
    decreases |ps|
  {
    if |ps| == 0 || |vs| == 0 then 0
    else if IsMultiLevelWildCard(ps[0]) || IsMultiLevelWildCard(vs[0]) then 0
    else 1 + FirstStarPair(ps[1..], vs[1..])
  }

  /** MatchPattern in closed form: every pair of segments before the first
      multi-level wildcard (in either template) is compatible, and either such
      a wildcard is reached or both templates have the same number of
      segments. */
  lemma {:induction false} OverlapsIff(ps: seq<string>, vs: seq<string>)
    ensures Overlaps(ps, vs) <==>
      (forall j :: 0 <= j < FirstStarPair(ps, vs) ==> Compatible(ps[j], vs[j])) &&
      ((FirstStarPair(ps, vs) < |ps| && FirstStarPair(ps, vs) < |vs|) || |ps| == |vs|)
    decreases |ps|
  {
    if |ps| == 0 || |vs| == 0 {
    } else if IsMultiLevelWildCard(ps[0]) || IsMultiLevelWildCard(vs[0]) {
    } else {
      var k := FirstStarPair(ps, vs);
      var ps', vs' := ps[1..], vs[1..];
      OverlapsIff(ps', vs');
      assert k == 1 + FirstStarPair(ps', vs');
      assert (forall j :: 0 <= j < k ==> Compatible(ps[j], vs[j])) <==>
        Compatible(ps[0], vs[0]) && (forall j :: 0 <= j < k - 1 ==> Compatible(ps'[j], vs'[j]))
      by {
        if forall j :: 0 <= j < k - 1 ==> Compatible(ps'[j], vs'[j]) {
          forall j | 1 <= j < k ensures Compatible(ps[j], vs[j]) {
            assert ps[j] == ps'[j - 1] && vs[j] == vs'[j - 1];
          }
        }
        if forall j :: 0 <= j < k ==> Compatible(ps[j], vs[j]) {
          forall j | 0 <= j < k - 1 ensures Compatible(ps'[j], vs'[j]) {
            assert ps'[j] == ps[j + 1] && vs'[j] == vs[j + 1];
          }
        }
      }
    }
  }

  /** MatchPattern is symmetric: `p.MatchPattern(v) == v.MatchPattern(p)`. */
  lemma {:induction false} OverlapsSymmetric(ps: seq<string>, vs: seq<string>)
    ensures Overlaps(ps, vs) == Overlaps(vs, ps)
    decreases |ps|
  {
    if |ps| > 0 && |vs| > 0 {
      OverlapsSymmetric(ps[1..], vs[1..]);
    }
  }

  /** MatchPattern is reflexive: every template overlaps itself. */
  lemma {:induction false} OverlapsReflexive(ps: seq<string>)
    ensures Overlaps(ps, ps)
    decreases |ps|
  {
    if |ps| > 0 {
      OverlapsReflexive(ps[1..]);
    }
  }

  /** A multi-level wildcard in either template, at an index below both
      lengths and after compatible segments, makes the templates overlap
      whatever follows it. */
  lemma OverlapsMultiLevel(ps: seq<string>, vs: seq<string>, i: nat)
    requires i < |ps| && i < |vs|
    requires IsMultiLevelWildCard(ps[i]) || IsMultiLevelWildCard(vs[i])
    requires forall j :: 0 <= j < i ==> Compatible(ps[j], vs[j])
    ensures Overlaps(ps, vs)
  {
    OverlapsIff(ps, vs);
  }

  /** Two templates made of literal segments only overlap exactly when they
      are the same text. */
  lemma OverlapsLiterals(p: Pattern, v: Pattern)
    requires forall k :: 0 <= k < |Split(p)| ==> Literal(Split(p)[k])
    requires forall k :: 0 <= k < |Split(v)| ==> Literal(Split(v)[k])
    ensures Overlaps(Split(p), Split(v)) <==> p == v
  {
    var ps, vs := Split(p), Split(v);
    OverlapsIff(ps, vs);
    if Overlaps(ps, vs) {
      assert |ps| == |vs|;
      forall j | 0 <= j < |ps| ensures ps[j] == vs[j] {
        assert Compatible(ps[j], vs[j]);
      }
      SplitInjective(p, v);
    }
  }

  // ---------------------------------------------------------------------
  // MatchString

  /** A template segment accepts a path segment when it is a one-level
      wildcard or the same text. */
  predicate Accepts(pseg: string, sseg: string) {
    IsOneLevelWildCard(pseg) || pseg == sseg
  }

  /** The index of the template's first multi-level wildcard, or its length
      when it has none. */
  function FirstStar(ps: seq<string>): (k: nat)
    ensures k <= |ps|
    ensures k < |ps| ==> IsMultiLevelWildCard(ps[k])
    ensures forall j :: 0 <= j < k ==> !IsMultiLevelWildCard(ps[j])
    decreases |ps|
  {
    if |ps| == 0 then 0
    else if IsMultiLevelWildCard(ps[0]) then 0
    else 1 + FirstStar(ps[1..])
  }

  /** MatchString in closed form: every path segment paired with a template
      segment before the template's first multi-level wildcard is accepted,
      and either the path reaches that wildcard or both have the same number
      of segments. */
  lemma {:induction false} MatchesIff(ps: seq<string>, ss: seq<string>)
    ensures Matches(ps, ss) <==>
      (forall j :: 0 <= j < FirstStar(ps) && j < |ss| ==> Accepts(ps[j], ss[j])) &&
      ((FirstStar(ps) < |ps| && FirstStar(ps) < |ss|) || |ps| == |ss|)
    decreases |ps|
  {
    if |ps| == 0 || |ss| == 0 {
    } else if IsMultiLevelWildCard(ps[0]) {
    } else {
      var k := FirstStar(ps);
      var ps', ss' := ps[1..], ss[1..];
      MatchesIff(ps', ss');
      assert k == 1 + FirstStar(ps');
      assert (forall j :: 0 <= j < k && j < |ss| ==> Accepts(ps[j], ss[j])) <==>
        Accepts(ps[0], ss[0]) && (forall j :: 0 <= j < k - 1 && j < |ss'| ==> Accepts(ps'[j], ss'[j]))
      by {
        if forall j :: 0 <= j < k - 1 && j < |ss'| ==> Accepts(ps'[j], ss'[j]) {
          forall j | 1 <= j < k && j < |ss| ensures Accepts(ps[j], ss[j]) {
            assert ps[j] == ps'[j - 1] && ss[j] == ss'[j - 1];
          }
        }
        if forall j :: 0 <= j < k && j < |ss| ==> Accepts(ps[j], ss[j]) {
          forall j | 0 <= j < k - 1 && j < |ss'| ensures Accepts(ps'[j], ss'[j]) {
            assert ps'[j] == ps[j + 1] && ss'[j] == ss[j + 1];
          }
        }
      }
    }
  }

  /** A template of literal segments only accepts a path exactly when the
      path, with at most one leading "/" removed, is the template's text: a
      trailing "/" or an extra segment makes it fail. */
  lemma MatchStringLiteral(p: Pattern, s: string)
    requires forall k :: 0 <= k < |Split(p)| ==> Literal(Split(p)[k])
    ensures Matches(Split(p), Split(TrimSlashPrefix(s))) <==> TrimSlashPrefix(s) == p
  {
    var ps, ss := Split(p), Split(TrimSlashPrefix(s));
    MatchesIff(ps, ss);
    if Matches(ps, ss) {
      assert |ps| == |ss|;
      forall j | 0 <= j < |ps| ensures ps[j] == ss[j] {
        assert Accepts(ps[j], ss[j]);
      }
      SplitInjective(p, TrimSlashPrefix(s));
    }
  }

  /** A literal template that does not start with "/" (which validation
      rejects) accepts its own text both with and without a leading "/". */
  lemma MatchStringLiteralBothForms(p: Pattern)
    requires forall k :: 0 <= k < |Split(p)| ==> Literal(Split(p)[k])
    requires !HasSlashPrefix(p)
    ensures Matches(Split(p), Split(TrimSlashPrefix("/" + p)))
    ensures Matches(Split(p), Split(TrimSlashPrefix(p)))
  {
    assert TrimSlashPrefix("/" + p) == p;
    MatchStringLiteral(p, "/" + p);
    MatchStringLiteral(p, p);
  }

  /** Without a multi-level wildcard, a template accepts a path exactly when
      both have the same number of segments and every literal segment equals
      its path segment: a one-level wildcard takes one segment, whatever its
      text, and never more. */
  lemma MatchesOneLevel(ps: seq<string>, ss: seq<string>)
    requires forall j :: 0 <= j < |ps| ==> !IsMultiLevelWildCard(ps[j])
    ensures Matches(ps, ss) <==>
      |ps| == |ss| && forall j :: 0 <= j < |ps| ==> Literal(ps[j]) ==> ps[j] == ss[j]
  {
    MatchesIff(ps, ss);
    assert FirstStar(ps) == |ps|;
  }

  /** With the first multi-level wildcard at index `i`, a path of more than
      `i` segments is accepted exactly when its first `i` segments are, what
      follows notwithstanding; a path of `i` or fewer segments is rejected. */
  lemma MatchesMultiLevel(ps: seq<string>, ss: seq<string>, i: nat)
    requires i < |ps| && IsMultiLevelWildCard(ps[i])
    requires forall j :: 0 <= j < i ==> !IsMultiLevelWildCard(ps[j])
    ensures |ss| <= i ==> !Matches(ps, ss)
    ensures |ss| > i ==> (Matches(ps, ss) <==> forall j :: 0 <= j < i ==> Accepts(ps[j], ss[j]))
  {
    MatchesIff(ps, ss);
    assert FirstStar(ps) == i;
  }

  /** A template that starts with a multi-level wildcard accepts every path. */
  lemma MultiLevelMatchesEverything(name: string, s: string)
    ensures Matches(Split([MultiLevelWildCard] + name), Split(TrimSlashPrefix(s)))
  {
    SplitHead([MultiLevelWildCard] + name);
  }

  // ---------------------------------------------------------------------
  // Cases pinned down by the source's tests. Each case splits its strings
  // with SampleSegments and evaluates the definition on the segment lists.

  // "foo/*key" overlaps "foo/:bar": the multi-level wildcard decides.
  lemma MatchPatternMultiLevelCase(p: Pattern, v: Pattern)
    requires p == "foo/*key" && v == "foo/:bar"
    ensures Overlaps(Split(p), Split(v))
  {
    SegmentsFooStarKey(p);
    SegmentsFooColonBar(v);
  }

  // "foo/bar/*key" does not overlap "foo/:bar": the wildcard is past the
  // shorter template's end and the lengths differ.
  lemma MatchPatternUnreachedMultiLevelCase(p: Pattern, v: Pattern)
    requires p == "foo/bar/*key" && v == "foo/:bar"
    ensures !Overlaps(Split(p), Split(v))
  {
    SegmentsFooBarStarKey(p);
    SegmentsFooColonBar(v);
    var ps, vs := ["foo", "bar", "*key"], ["foo", ":bar"];
    assert ps[1..][1..] == ["*key"] && vs[1..][1..] == [];
  }

  // ":key/bar/:some" overlaps "foo/:bar/": a one-level wildcard also
  // matches the empty final segment.
  lemma MatchPatternTrailingSlashCase(p: Pattern, v: Pattern)
    requires p == ":key/bar/:some" && v == "foo/:bar/"
    ensures Overlaps(Split(p), Split(v))
  {
    SegmentsColonKeyBarColonSome(p);
    SegmentsFooColonBarSlash(v);
    var ps, vs := [":key", "bar", ":some"], ["foo", ":bar", ""];
    assert ps[1..][1..] == [":some"] && vs[1..][1..] == [""];
    assert ps[1..][1..][1..] == [] && vs[1..][1..][1..] == [];
  }

  // "foo/bar" does not overlap "foo/bar/": the trailing "/" is an extra
  // segment.
  lemma MatchPatternExtraSegmentCase(p: Pattern, v: Pattern)
    requires p == "foo/bar" && v == "foo/bar/"
    ensures !Overlaps(Split(p), Split(v))
  {
    SegmentsFooBar(p);
    SegmentsFooBarSlash(v);
    var ps, vs := ["foo", "bar"], ["foo", "bar", ""];
    assert ps[1..][1..] == [] && vs[1..][1..] == [""];
  }

  // "foo/*key" rejects "/foo": the path ends before the wildcard.
  lemma MatchStringShortPathCase(p: Pattern, s: string)
    requires p == "foo/*key" && s == "/foo"
    ensures !Matches(Split(p), Split(TrimSlashPrefix(s)))
  {
    SegmentsFooStarKey(p);
    DropLeadingSlash(s);
    SegmentsFoo(TrimSlashPrefix(s));
  }

  // "*some" accepts "/foo/bar".
  lemma MatchStringRemainderCase(p: Pattern, s: string)
    requires p == "*some" && s == "/foo/bar"
    ensures Matches(Split(p), Split(TrimSlashPrefix(s)))
  {
    MultiLevelMatchesEverything("some", s);
    assert [MultiLevelWildCard] + "some" == p;
  }

  // "foo/bar" rejects "/foo/bar/": the trailing "/" is an extra segment.
  lemma MatchStringTrailingSlashCase(p: Pattern, s: string)
    requires p == "foo/bar" && s == "/foo/bar/"
    ensures !Matches(Split(p), Split(TrimSlashPrefix(s)))
  {
    SegmentsFooBar(p);
    DropLeadingSlash(s);
    SegmentsFooBarSlash(TrimSlashPrefix(s));
    var ps, ss := ["foo", "bar"], ["foo", "bar", ""];
    assert ps[1..][1..] == [] && ss[1..][1..] == [""];
  }

  // "foo/:bar" rejects "/foo/bar/som": a one-level wildcard takes one
  // segment only.
  lemma MatchStringOneLevelCase(p: Pattern, s: string)
    requires p == "foo/:bar" && s == "/foo/bar/som"
    ensures !Matches(Split(p), Split(TrimSlashPrefix(s)))
  {
    SegmentsFooColonBar(p);
    DropLeadingSlash(s);
    SegmentsFooBarSom(TrimSlashPrefix(s));
    var ps, ss := ["foo", ":bar"], ["foo", "bar", "som"];
    assert ps[1..][1..] == [] && ss[1..][1..] == ["som"];
  }

  // ":foo" is a one-level wildcard and "*foo" a multi-level one; "foo" is
  // neither.
  lemma WildCardMarkerCases()
    ensures IsOneLevelWildCard(":foo") && !IsOneLevelWildCard("foo")
    ensures IsMultiLevelWildCard("*foo") && !IsMultiLevelWildCard("foo")
  {
  }

  // "foo/*key" overlaps "foo/:bar/": what follows the wildcard is never
  // compared.
  lemma MatchPatternMultiLevelTrailingSlashCase(p: Pattern, v: Pattern)
    requires p == "foo/*key" && v == "foo/:bar/"
    ensures Overlaps(Split(p), Split(v))
  {
    SegmentsFooStarKey(p);
    SegmentsFooColonBarSlash(v);
  }

  // "foo/bar" does not overlap "foo/par": two literals differ.
  lemma MatchPatternLiteralMismatchCase(p: Pattern, v: Pattern)
    requires p == "foo/bar" && v == "foo/par"
    ensures !Overlaps(Split(p), Split(v))
  {
    SegmentsFooBar(p);
    SegmentsFooPar(v);
  }

  // ":key/bar" does not overlap "foo/:bar/some": one template has an extra
  // segment.
  lemma MatchPatternLongerTemplateCase(p: Pattern, v: Pattern)
    requires p == ":key/bar" && v == "foo/:bar/some"
    ensures !Overlaps(Split(p), Split(v))
  {
    SegmentsColonKeyBar(p);
    SegmentsFooColonBarSome(v);
    var ps, vs := [":key", "bar"], ["foo", ":bar", "some"];
    assert ps[1..][1..] == [] && vs[1..][1..] == ["some"];
  }

  // "foo/bar" accepts "/foo/bar".
  lemma MatchStringLiteralCase(p: Pattern, s: string)
    requires p == "foo/bar" && s == "/foo/bar"
    ensures Matches(Split(p), Split(TrimSlashPrefix(s)))
  {
    SegmentsFooBar(p);
    DropLeadingSlash(s);
    SegmentsFooBar(TrimSlashPrefix(s));
    var ps := ["foo", "bar"];
    assert ps[1..][1..] == [];
  }

  // ":key/bar" accepts "/foo/bar": the wildcard takes "foo".
  lemma MatchStringLeadingOneLevelCase(p: Pattern, s: string)
    requires p == ":key/bar" && s == "/foo/bar"
    ensures Matches(Split(p), Split(TrimSlashPrefix(s)))
  {
    SegmentsColonKeyBar(p);
    DropLeadingSlash(s);
    SegmentsFooBar(TrimSlashPrefix(s));
    var ps, ss := [":key", "bar"], ["foo", "bar"];
    assert ps[1..][1..] == [] && ss[1..][1..] == [];
  }
}
