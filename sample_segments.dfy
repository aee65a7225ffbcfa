/** The segment lists of the sample templates and paths that the source's
    tests use, each obtained from `SplitInto`. Keeping one string per lemma
    keeps every literal's evaluation in a small proof of its own. */
module SampleSegments {
  import opened GoStrings

  /** A path that starts with "/" loses exactly that character. */
  lemma DropLeadingSlash(s: string)
    requires |s| > 0 && s[0] == '/'
    ensures TrimSlashPrefix(s) == s[1..]
  {
  }

  lemma SegmentsFoo(s: string)
    requires s == "foo"
    ensures Split(s) == ["foo"]
  {
    SplitInto(s, ["foo"]);
  }

  lemma SegmentsFooBar(s: string)
    requires s == "foo/bar"
    ensures Split(s) == ["foo", "bar"]
  {
    SplitInto(s, ["foo", "bar"]);
  }

  lemma SegmentsFooBarSlash(s: string)
    requires s == "foo/bar/"
    ensures Split(s) == ["foo", "bar", ""]
  {
    SplitInto(s, ["foo", "bar", ""]);
  }

  lemma SegmentsFooBarSom(s: string)
    requires s == "foo/bar/som"
    ensures Split(s) == ["foo", "bar", "som"]
  {
    SplitInto(s, ["foo", "bar", "som"]);
  }

  lemma SegmentsFooStarKey(s: string)
    requires s == "foo/*key"
    ensures Split(s) == ["foo", "*key"]
  {
    SplitInto(s, ["foo", "*key"]);
  }

  lemma SegmentsFooColonBar(s: string)
    requires s == "foo/:bar"
    ensures Split(s) == ["foo", ":bar"]
  {
    SplitInto(s, ["foo", ":bar"]);
  }

  lemma SegmentsFooColonBarSlash(s: string)
    requires s == "foo/:bar/"
    ensures Split(s) == ["foo", ":bar", ""]
  {
    SplitInto(s, ["foo", ":bar", ""]);
  }

  lemma SegmentsFooBarStarKey(s: string)
    requires s == "foo/bar/*key"
    ensures Split(s) == ["foo", "bar", "*key"]
  {
    SplitInto(s, ["foo", "bar", "*key"]);
  }

  lemma SegmentsColonKeyBarColonSome(s: string)
    requires s == ":key/bar/:some"
    ensures Split(s) == [":key", "bar", ":some"]
  {
    SplitInto(s, [":key", "bar", ":some"]);
  }

  lemma SegmentsStarKey(s: string)
    requires s == "*key"
    ensures Split(s) == ["*key"]
  {
    SplitInto(s, ["*key"]);
  }

  lemma SegmentsFooColonKeySlash(s: string)
    requires s == "foo/:key/"
    ensures Split(s) == ["foo", ":key", ""]
  {
    SplitInto(s, ["foo", ":key", ""]);
  }

  lemma SegmentsEmpty(s: string)
    requires s == ""
    ensures Split(s) == [""]
  {
  }

  lemma SegmentsWowAwesome(s: string)
    requires s == "wow//awesome"
    ensures Split(s) == ["wow", "", "awesome"]
  {
    SplitInto(s, ["wow", "", "awesome"]);
  }

  lemma SegmentsColon(s: string)
    requires s == ":"
    ensures Split(s) == [":"]
  {
    SplitInto(s, [":"]);
  }

  lemma SegmentsStar(s: string)
    requires s == "*"
    ensures Split(s) == ["*"]
  {
    SplitInto(s, ["*"]);
  }

  lemma SegmentsStarFooBar(s: string)
    requires s == "*foo/bar"
    ensures Split(s) == ["*foo", "bar"]
  {
    SplitInto(s, ["*foo", "bar"]);
  }

  lemma SegmentsFooColonSlashBar(s: string)
    requires s == "foo:/bar"
    ensures Split(s) == ["foo:", "bar"]
  {
    SplitInto(s, ["foo:", "bar"]);
  }

  lemma SegmentsFooColonSlashColonBarColon(s: string)
    requires s == "foo:/:bar:"
    ensures Split(s) == ["foo:", ":bar:"]
  {
    SplitInto(s, ["foo:", ":bar:"]);
  }

  lemma SegmentsColonKeyBar(s: string)
    requires s == ":key/bar"
    ensures Split(s) == [":key", "bar"]
  {
    SplitInto(s, [":key", "bar"]);
  }

  lemma SegmentsColonKeyBarSlash(s: string)
    requires s == ":key/bar/"
    ensures Split(s) == [":key", "bar", ""]
  {
    SplitInto(s, [":key", "bar", ""]);
  }

  lemma SegmentsFooColonBarSome(s: string)
    requires s == "foo/:bar/some"
    ensures Split(s) == ["foo", ":bar", "some"]
  {
    SplitInto(s, ["foo", ":bar", "some"]);
  }

  lemma SegmentsFooPar(s: string)
    requires s == "foo/par"
    ensures Split(s) == ["foo", "par"]
  {
    SplitInto(s, ["foo", "par"]);
  }

  lemma SegmentsFooColonKey(s: string)
    requires s == "foo/:key"
    ensures Split(s) == ["foo", ":key"]
  {
    SplitInto(s, ["foo", ":key"]);
  }

  lemma SegmentsColonFooBar(s: string)
    requires s == ":foo/bar"
    ensures Split(s) == [":foo", "bar"]
  {
    SplitInto(s, [":foo", "bar"]);
  }
}
