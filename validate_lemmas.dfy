/** What IsInvalid promises, proved about its reference definition
    `Validate`, and the corrected definition `ValidateIntended`. */
module ValidateLemmas {
  import opened GoStrings
  import opened Errors
  import opened Patterns
  import opened CaptureLemmas
  import opened SampleSegments

  /** No segment from index `i` on offends exactly when the scan from `i`
      finds no error. */
  lemma {:induction false} FirstOffenceNone(plist: seq<string>, i: nat, compared: int)
    ensures FirstOffence(plist, i, compared) == NoError <==>
      forall j :: i <= j < |plist| ==> SegmentError(plist[j], j != compared) == NoError
    decreases |plist| - i
  {
    if i < |plist| {
      FirstOffenceNone(plist, i + 1, compared);
    }
  }

  /** An error found by the scan from `i` is the error of some segment there,
      and every segment before that one is free of errors. */
  lemma {:induction false} FirstOffenceDecides(plist: seq<string>, i: nat, compared: int)
    requires FirstOffence(plist, i, compared) != NoError
    ensures exists k :: i <= k < |plist| &&
              SegmentError(plist[k], k != compared) == FirstOffence(plist, i, compared) &&
              forall j :: i <= j < k ==> SegmentError(plist[j], j != compared) == NoError
    decreases |plist| - i
  {
    if SegmentError(plist[i], i != compared) == NoError {
      FirstOffenceDecides(plist, i + 1, compared);
    } else {
      assert SegmentError(plist[i], i != compared) == FirstOffence(plist, i, compared);
    }
  }

  /** IsInvalid as written accepts a pattern exactly when it does not start
      with "/" and every validated segment is non-empty, is not the bare
      ":" and does not start with "*": since no index of the list equals its
      length, every multi-level wildcard is rejected. */
  lemma ValidateAccepts(p: Pattern)
    ensures Validate(p) == NoError <==>
      !HasSlashPrefix(p) &&
      forall k :: 0 <= k < |ValidatedSegments(p)| ==>
        |ValidatedSegments(p)[k]| > 0 && ValidatedSegments(p)[k] != [OneLevelWildCard] &&
        !IsMultiLevelWildCard(ValidatedSegments(p)[k])
  {
    var plist := ValidatedSegments(p);
    FirstOffenceNone(plist, 0, |plist|);
  }

  /** A multi-level wildcard anywhere among the validated segments makes
      IsInvalid return an error, even as the last segment. */
  lemma ValidateRejectsMultiLevel(p: Pattern, k: nat)
    requires k < |ValidatedSegments(p)| && IsMultiLevelWildCard(ValidatedSegments(p)[k])
    ensures Validate(p) != NoError
  {
    ValidateAccepts(p);
  }

  /** IsInvalid reports a leading "/" as an invalid pattern; otherwise its
      error is that of the first offending validated segment: an empty one
      is an invalid pattern, a bare ":" an invalid one-level wildcard, and a
      segment starting with "*" an invalid multi-level wildcard. */
  lemma ValidateFirstOffence(p: Pattern)
    ensures HasSlashPrefix(p) ==> Validate(p) == ErrInvalidPattern
    ensures !HasSlashPrefix(p) && Validate(p) != NoError ==>
      exists k :: 0 <= k < |ValidatedSegments(p)| &&
        Validate(p) == SegmentError(ValidatedSegments(p)[k], true) &&
        forall j :: 0 <= j < k ==> SegmentError(ValidatedSegments(p)[j], true) == NoError
  {
    var plist := ValidatedSegments(p);
    if !HasSlashPrefix(p) && Validate(p) != NoError {
      FirstOffenceDecides(plist, 0, |plist|);
    }
  }

  /** The corrected validation accepts a pattern exactly when it does not
      start with "/", every validated segment is non-empty and neither a bare
      ":" nor a bare "*", and a multi-level wildcard appears only as the last
      validated segment. */
  lemma ValidateIntendedAccepts(p: Pattern)
    ensures ValidateIntended(p) == NoError <==>
      !HasSlashPrefix(p) &&
      forall k :: 0 <= k < |ValidatedSegments(p)| ==>
        |ValidatedSegments(p)[k]| > 0 &&
        ValidatedSegments(p)[k] != [OneLevelWildCard] &&
        ValidatedSegments(p)[k] != [MultiLevelWildCard] &&
        (IsMultiLevelWildCard(ValidatedSegments(p)[k]) ==> k == |ValidatedSegments(p)| - 1)
  {
    var plist := ValidatedSegments(p);
    FirstOffenceNone(plist, 0, |plist| - 1);
  }

  /** The segments validation inspects are the template's own segments,
      except that a trailing "/" adds one more, empty, segment to the latter. */
  lemma ValidatedSegmentsOfSplit(p: Pattern)
    ensures HasSlashSuffix(p) ==> Split(p) == ValidatedSegments(p) + [""]
    ensures !HasSlashSuffix(p) ==> Split(p) == ValidatedSegments(p)
  {
    if HasSlashSuffix(p) {
      SplitTrailingSlash(TrimSlashSuffix(p));
    }
  }

  /** Under the corrected validation, every wildcard segment of a valid
      template carries a name after its marker. */
  lemma IntendedWildcardNamed(p: Pattern, j: nat)
    requires ValidateIntended(p) == NoError
    requires j < |Split(p)| && (IsOneLevelWildCard(Split(p)[j]) || IsMultiLevelWildCard(Split(p)[j]))
    ensures |Split(p)[j]| > 1
  {
    var plist := ValidatedSegments(p);
    ValidateIntendedAccepts(p);
    ValidatedSegmentsOfSplit(p);
    if j < |plist| {
      assert Split(p)[j] == plist[j];
      assert plist[j] != [OneLevelWildCard] && plist[j] != [MultiLevelWildCard];
    }
  }

  /** Under the corrected validation, every name GetMatched captures from a
      valid pattern is non-empty. */
  lemma IntendedCaptureNames(p: Pattern, s: string)
    requires ValidateIntended(p) == NoError
    ensures var cs := Captures(Split(p), Split(TrimSlashPrefix(s)));
      forall c :: 0 <= c < |cs| ==> |cs[c].name| > 0
  {
    var ps, ss := Split(p), Split(TrimSlashPrefix(s));
    var cs := Captures(ps, ss);
    forall c | 0 <= c < |cs| ensures |cs[c].name| > 0 {
      CaptureNamesAreWildcards(ps, ss, c);
      var j :| 0 <= j < |ps| && (IsOneLevelWildCard(ps[j]) || IsMultiLevelWildCard(ps[j])) && cs[c].name == ps[j][1..];
      IntendedWildcardNamed(p, j);
    }
  }

  // ---------------------------------------------------------------------
  // Cases pinned down by the source's tests

  // "/wrong" starts with "/".
  lemma LeadingSlashCase(p: Pattern)
    requires p == "/wrong"
    ensures Validate(p) == ErrInvalidPattern
  {
  }

  // "" splits into one empty segment.
  lemma EmptyPatternCase(p: Pattern)
    requires p == ""
    ensures Validate(p) == ErrInvalidPattern
  {
    SegmentsEmpty(TrimSlashSuffix(p));
  }

  // "wow//awesome" has an empty segment between its two slashes.
  lemma EmptySegmentCase(p: Pattern)
    requires p == "wow//awesome"
    ensures Validate(p) == ErrInvalidPattern
  {
    assert TrimSlashSuffix(p) == p;
    SegmentsWowAwesome(p);
    assert FirstOffence(["wow", "", "awesome"], 1, 3) == ErrInvalidPattern;
  }

  // A bare ":" is an invalid one-level wildcard.
  lemma BareOneLevelCase(p: Pattern)
    requires p == ":"
    ensures Validate(p) == ErrOneLevelWileCard
  {
    assert TrimSlashSuffix(p) == p;
    SegmentsColon(p);
  }

  // A bare "*" is an invalid multi-level wildcard.
  lemma BareMultiLevelCase(p: Pattern)
    requires p == "*"
    ensures Validate(p) == ErrMultiLevelWildCard
  {
    assert TrimSlashSuffix(p) == p;
    SegmentsStar(p);
  }

  // "*foo/bar" has a multi-level wildcard before another segment.
  lemma LeadingMultiLevelCase(p: Pattern)
    requires p == "*foo/bar"
    ensures Validate(p) == ErrMultiLevelWildCard
    ensures ValidateIntended(p) == ErrMultiLevelWildCard
  {
    assert TrimSlashSuffix(p) == p;
    SegmentsStarFooBar(p);
  }

  // ":" not at the start of a segment is literal text, and one trailing "/"
  // is allowed.
  lemma ValidTrailingSlashCase(p: Pattern)
    requires p == "foo:/bar/"
    ensures Validate(p) == NoError
  {
    assert TrimSlashSuffix(p) == "foo:/bar";
    SegmentsFooColonSlashBar(TrimSlashSuffix(p));
    assert FirstOffence(["foo:", "bar"], 1, 2) == NoError;
  }

  // A one-level wildcard may contain further ':' characters.
  lemma ValidColonCase(p: Pattern)
    requires p == "foo:/:bar:"
    ensures Validate(p) == NoError
  {
    assert TrimSlashSuffix(p) == p;
    SegmentsFooColonSlashColonBarColon(p);
    assert FirstOffence(["foo:", ":bar:"], 1, 2) == NoError;
  }

  // "foo/*key" is rejected as written and accepted by the corrected check.
  lemma FinalMultiLevelCase(p: Pattern)
    requires p == "foo/*key"
    ensures Validate(p) == ErrMultiLevelWildCard
    ensures ValidateIntended(p) == NoError
  {
    assert TrimSlashSuffix(p) == p;
    SegmentsFooStarKey(p);
    assert FirstOffence(["foo", "*key"], 1, 2) == ErrMultiLevelWildCard;
    assert FirstOffence(["foo", "*key"], 1, 1) == NoError;
  }

  // Two literal segments are valid.
  lemma ValidLiteralCase(p: Pattern)
    requires p == "foo/bar"
    ensures Validate(p) == NoError
  {
    assert TrimSlashSuffix(p) == p;
    SegmentsFooBar(p);
    assert FirstOffence(["foo", "bar"], 1, 2) == NoError;
  }

  // A ":" after the first character of a segment is literal text.
  lemma ValidLiteralColonCase(p: Pattern)
    requires p == "foo:/bar"
    ensures Validate(p) == NoError
  {
    assert TrimSlashSuffix(p) == p;
    SegmentsFooColonSlashBar(p);
    assert FirstOffence(["foo:", "bar"], 1, 2) == NoError;
  }

  // A named one-level wildcard is valid as the first segment.
  lemma ValidLeadingOneLevelCase(p: Pattern)
    requires p == ":foo/bar"
    ensures Validate(p) == NoError
  {
    assert TrimSlashSuffix(p) == p;
    SegmentsColonFooBar(p);
    assert FirstOffence([":foo", "bar"], 1, 2) == NoError;
  }

  // A named one-level wildcard is valid as the last segment.
  lemma ValidTrailingOneLevelCase(p: Pattern)
    requires p == "foo/:bar"
    ensures Validate(p) == NoError
  {
    assert TrimSlashSuffix(p) == p;
    SegmentsFooColonBar(p);
    assert FirstOffence(["foo", ":bar"], 1, 2) == NoError;
  }
}
