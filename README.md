# Route patterns of simpleHTTP, modelled in Dafny

This project models `pkg/pattern`, the route-template package of the
simpleHTTP Go router, and proves what its four operations promise.

A pattern is a string of `/`-separated segments. A segment starting with `:`
is a one-level wildcard, which stands for exactly one path segment. A segment
starting with `*` is a multi-level wildcard, which stands for the rest of the
path. Every other segment is a literal.

- `MatchPattern` decides whether two templates overlap. A wildcard on either side counts.
- `MatchString` decides whether a template accepts a concrete path. One leading `/` is stripped from the path first.
- `GetMatched` collects the wildcard captures of a path into a `url.Values` (name → ordered values).
- `IsInvalid` validates a template and returns one of three sentinel errors, or nil.

Files:

- `go_strings.dfy` (module `GoStrings`): `strings.Split`, `Join`, `TrimPrefix`,
  `TrimSuffix` and `HasPrefix` for the separator `/`, with Go's semantics.
  `Split("")` is `[""]` and a split is never empty. It proves that `Split` and
  `Join` are inverse.
- `errors.dfy` (module `Errors`): the sentinel errors of `pkg/pattern/error.go`.
  `NoError` stands for nil.
- `patterns.dfy` (module `Patterns`): the four operations as methods with the
  source's index loops, early returns and `continue`s. Each method is proved
  equal to a recursive definition over the segment lists (`Overlaps`,
  `Matches`, `Captures` with `AddAll`, `Validate`).
- `match_lemmas.dfy`, `capture_lemmas.dfy`, `validate_lemmas.dfy`: the
  properties of those definitions, and the cases the package's tests pin down.
- `sample_segments.dfy` (module `SampleSegments`): the segment lists of the
  sample strings those cases use.

Behaviour of the code and its tests that a reader might not expect:

- A `*` segment on either side ends `MatchPattern`'s walk with success, so
  `"foo/*key"` and `"foo/:bar"` overlap (`pkg/pattern/pattern_test.go:86-88`;
  `MatchLemmas.MatchPatternMultiLevelCase`).
- `MatchString` strips at most one leading `/`, so a literal template `p`
  that does not start with `/` (validation rejects such a template) accepts
  both `"/" + p` and `p` (`MatchLemmas.MatchStringLiteralBothForms`).
- `IsInvalid` rejects every `*` segment (see Findings).

## Model

| member | source | states |
|---|---|---|
| Errors.Message | pkg/pattern/error.go:5-9 | the three sentinels' texts are non-empty and start with "pattern: "; nil has no text |
| GoStrings.TrimSlashPrefix | pkg/pattern/pattern.go:47 | at most one leading "/" is removed, and only when present |
| GoStrings.TrimSlashSuffix | pkg/pattern/pattern.go:98 | at most one trailing "/" is removed, and only when present |
| GoStrings.HasSlashPrefix | pkg/pattern/pattern.go:94 | a text starts with "/" iff its split starts with an empty piece followed by at least one more |
| GoStrings.Join | pkg/pattern/pattern.go:81 | `strings.Join(parts, "/")`; its partners are JoinSplit and SplitJoin |
| GoStrings.Split | pkg/pattern/pattern.go:21-22 | `strings.Split(s, "/")` yields at least one piece and no piece contains "/" |
| GoStrings.JoinSplit | pkg/pattern/pattern.go:81 | rejoining the pieces of a split with "/" restores the text |
| GoStrings.SplitInjective | pkg/pattern/pattern.go:21-22 | two texts with the same pieces are equal |
| GoStrings.SplitJoin | pkg/pattern/pattern.go:81 | splitting the join of slash-free pieces gives back those pieces |
| GoStrings.SplitInto | pkg/pattern/pattern.go:21-22 | a text that is the join of slash-free pieces splits into exactly those pieces |
| GoStrings.JoinAt | pkg/pattern/pattern.go:81 | the join of a list is the join of a non-empty prefix, "/", and the join of the rest |
| GoStrings.SplitTrailingSlash | pkg/pattern/pattern.go:98 | a trailing "/" adds exactly one empty final piece |
| GoStrings.SplitHead | pkg/pattern/pattern.go:115 | the first piece of a text not starting with "/" starts with the text's first character |
| Patterns.MinInt | pkg/pattern/pattern.go:119-124 | the result is the smaller of the two arguments |
| Patterns.IsMultiLevelWildCard | pkg/pattern/pattern.go:115 | a segment is a multi-level wildcard when it is non-empty and starts with "*" |
| Patterns.IsOneLevelWildCard | pkg/pattern/pattern.go:117 | a segment starting with ":" is a one-level wildcard, and then not a multi-level one |
| Patterns.Add | pkg/pattern/pattern.go:86 | `url.Values.Add` appends the value under its key and leaves other keys unchanged |
| Patterns.ValidatedSegments | pkg/pattern/pattern.go:98 | validation inspects at least one segment |
| Patterns.Validate | pkg/pattern/pattern.go:93-113 | IsInvalid as written, on values; its properties are ValidateAccepts, ValidateFirstOffence and ValidateRejectsMultiLevel |
| Patterns.ValidateIntended | pkg/pattern/pattern.go:108 | IsInvalid with the corrected `i != len(plist)-1` comparison; its property is ValidateIntendedAccepts |
| Patterns.MatchPattern | pkg/pattern/pattern.go:20-43 | the loop's result equals `Overlaps` of the two split templates |
| Patterns.MatchString | pkg/pattern/pattern.go:45-68 | the loop's result equals `Matches` of the split template and the split path with one leading "/" stripped |
| Patterns.GetMatched | pkg/pattern/pattern.go:70-91 | the map built in place equals the captures added in scan order to an empty `url.Values` |
| Patterns.IsInvalid | pkg/pattern/pattern.go:93-113 | the returned error equals `Validate(p)`: leading "/" first, then the first offending segment |
| MatchLemmas.FirstStarPair | pkg/pattern/pattern.go:26-29 | the first index below both lengths holding a `*` segment on either side, or the shorter length |
| MatchLemmas.OverlapsIff | pkg/pattern/pattern.go:20-43 | templates overlap iff every segment pair before the first `*` (either side) is compatible, and either a `*` is reached or the segment counts are equal |
| MatchLemmas.OverlapsSymmetric | pkg/pattern/pattern.go:26-42 | `p.MatchPattern(v) == v.MatchPattern(p)` |
| MatchLemmas.OverlapsReflexive | pkg/pattern/pattern.go:26-42 | every template overlaps itself |
| MatchLemmas.OverlapsMultiLevel | pkg/pattern/pattern.go:26-29 | a `*` segment on either side, at an index below both lengths and after compatible segments, gives true whatever follows |
| MatchLemmas.OverlapsLiterals | pkg/pattern/pattern.go:35-42 | two all-literal templates overlap iff they are the same text |
| MatchLemmas.FirstStar | pkg/pattern/pattern.go:51-54 | the index of the template's first `*` segment, or its length |
| MatchLemmas.MatchesIff | pkg/pattern/pattern.go:45-68 | a path matches iff every path segment before the template's first `*` is accepted, and either the path reaches that `*` or the segment counts are equal |
| MatchLemmas.MatchStringLiteral | pkg/pattern/pattern.go:45-68 | an all-literal template accepts `s` iff `s` with at most one leading "/" removed is the template's text |
| MatchLemmas.MatchStringLiteralBothForms | pkg/pattern/pattern.go:47-68 | a literal template not starting with "/" accepts its own text with and without one leading "/" |
| MatchLemmas.MatchesOneLevel | pkg/pattern/pattern.go:56-67 | without a `*` segment: match iff same segment count and every literal segment is equal; a `:` segment takes any single segment |
| MatchLemmas.MatchesMultiLevel | pkg/pattern/pattern.go:51-67 | with the first `*` at index i: a path of at most i segments fails, a longer one matches iff its first i segments are accepted |
| MatchLemmas.MultiLevelMatchesEverything | pkg/pattern/pattern.go:51-54 | a template `"*name"` accepts every path |
| MatchLemmas.MatchPatternMultiLevelCase | pkg/pattern/pattern_test.go:86-88 | `"foo/*key"` overlaps `"foo/:bar"` |
| MatchLemmas.MatchPatternUnreachedMultiLevelCase | pkg/pattern/pattern_test.go:110-112 | `"foo/bar/*key"` does not overlap `"foo/:bar"` |
| MatchLemmas.MatchPatternTrailingSlashCase | pkg/pattern/pattern_test.go:74-76 | `":key/bar/:some"` overlaps `"foo/:bar/"` |
| MatchLemmas.MatchPatternExtraSegmentCase | pkg/pattern/pattern_test.go:98-100 | `"foo/bar"` does not overlap `"foo/bar/"` |
| MatchLemmas.MatchStringShortPathCase | pkg/pattern/pattern_test.go:160-162 | `"foo/*key"` rejects `"/foo"` |
| MatchLemmas.MatchStringRemainderCase | pkg/pattern/pattern_test.go:148-150 | `"*some"` accepts `"/foo/bar"` |
| MatchLemmas.MatchStringTrailingSlashCase | pkg/pattern/pattern_test.go:152-154 | `"foo/bar"` rejects `"/foo/bar/"` |
| MatchLemmas.MatchStringOneLevelCase | pkg/pattern/pattern_test.go:168-170 | `"foo/:bar"` rejects `"/foo/bar/som"` |
| MatchLemmas.WildCardMarkerCases | pkg/pattern/pattern_test.go:11-47 | `":foo"` is a one-level wildcard, `"*foo"` a multi-level one, `"foo"` neither |
| MatchLemmas.MatchPatternMultiLevelTrailingSlashCase | pkg/pattern/pattern_test.go:90-92 | `"foo/*key"` overlaps `"foo/:bar/"` |
| MatchLemmas.MatchPatternLiteralMismatchCase | pkg/pattern/pattern_test.go:94-96 | `"foo/bar"` does not overlap `"foo/par"` |
| MatchLemmas.MatchPatternLongerTemplateCase | pkg/pattern/pattern_test.go:102-104 | `":key/bar"` does not overlap `"foo/:bar/some"` |
| MatchLemmas.MatchStringLiteralCase | pkg/pattern/pattern_test.go:128-130 | `"foo/bar"` accepts `"/foo/bar"` |
| MatchLemmas.MatchStringLeadingOneLevelCase | pkg/pattern/pattern_test.go:132-134 | `":key/bar"` accepts `"/foo/bar"` |
| CaptureLemmas.AddAllValues | pkg/pattern/pattern.go:81-86 | after adding bindings, a name's values are its old ones followed by the values bound to it, in scan order |
| CaptureLemmas.AddAllKeys | pkg/pattern/pattern.go:81-86 | after adding bindings, a name is present iff it was before or some binding uses it |
| CaptureLemmas.GetAdd | pkg/pattern/pattern.go:81-86 | one `url.Values.Add` appends to the values of its own key and leaves every other key's values alone |
| CaptureLemmas.Reach | pkg/pattern/pattern.go:79-83 | the scan visits no more positions than either list holds |
| CaptureLemmas.BindingsUpToShift | pkg/pattern/pattern.go:79 | dropping the first position shifts every later binding down by one index |
| CaptureLemmas.CapturesByPosition | pkg/pattern/pattern.go:79-89 | positions up to the first `*` are visited left to right: `:name` binds the segment at its index, `*name` binds the rest rejoined with "/" and ends the scan, literals bind nothing |
| CaptureLemmas.CaptureNamesAreWildcards | pkg/pattern/pattern.go:79-89 | every captured name is the name of a `:` or `*` segment of the template |
| CaptureLemmas.OneLevelCapture | pkg/pattern/pattern.go:85-87 | a `:name` before the first `*` binds name to the path segment at its index, which never contains "/" |
| CaptureLemmas.BindingsUpToHas | pkg/pattern/pattern.go:79-89 | the bindings of the first m positions include those of each position below m |
| CaptureLemmas.MultiLevelCapture | pkg/pattern/pattern.go:80-82 | a reached `*name` makes the last capture, bound to the remaining segments rejoined with "/", and the earlier segments, "/" and that value give back the path |
| CaptureLemmas.LastCapture | pkg/pattern/pattern.go:80-82 | on segment lists, a reached `*name` makes the last capture, bound to the remaining segments rejoined with "/" |
| CaptureLemmas.RejoinAt | pkg/pattern/pattern.go:81 | cutting a text's pieces at any index and rejoining both sides around "/" gives back the text |
| CaptureLemmas.AddOne | pkg/pattern/pattern.go:74-86 | one binding added to an empty `url.Values` gives one name with one value |
| CaptureLemmas.GetMatchedRemainderCase | pkg/pattern/pattern_test.go:190-192 | `"*key"` on `"/foo/bar/"` gives `{"key": ["foo/bar/"]}` |
| CaptureLemmas.GetMatchedSuffixCase | pkg/pattern/pattern_test.go:198-200 | `"foo/*key"` on `"/foo/bar/"` gives `{"key": ["bar/"]}` |
| CaptureLemmas.GetMatchedOneLevelCase | pkg/pattern/pattern_test.go:214-216 | `"foo/:key/"` on `"/foo/bar/"` gives `{"key": ["bar"]}` |
| CaptureLemmas.GetMatchedRemainderNoSlashCase | pkg/pattern/pattern_test.go:186-188 | `"*key"` on `"/foo/bar"` gives `{"key": ["foo/bar"]}` |
| CaptureLemmas.GetMatchedSuffixNoSlashCase | pkg/pattern/pattern_test.go:194-196 | `"foo/*key"` on `"/foo/bar"` gives `{"key": ["bar"]}` |
| CaptureLemmas.GetMatchedLeadingOneLevelCase | pkg/pattern/pattern_test.go:202-204 | `":key/bar"` on `"/foo/bar"` gives `{"key": ["foo"]}` |
| CaptureLemmas.GetMatchedLeadingOneLevelSlashCase | pkg/pattern/pattern_test.go:206-208 | `":key/bar/"` on `"/foo/bar/"` gives `{"key": ["foo"]}` |
| CaptureLemmas.GetMatchedTrailingOneLevelCase | pkg/pattern/pattern_test.go:210-212 | `"foo/:key"` on `"/foo/bar"` gives `{"key": ["bar"]}` |
| ValidateLemmas.FirstOffenceNone | pkg/pattern/pattern.go:99-112 | the scan finds no error iff no segment from the start index on has one |
| ValidateLemmas.FirstOffenceDecides | pkg/pattern/pattern.go:99-111 | an error found by the scan is the error of some segment, and all earlier segments are free of errors |
| ValidateLemmas.ValidateAccepts | pkg/pattern/pattern.go:93-113 | IsInvalid returns nil iff there is no leading "/" and every validated segment is non-empty, is not a bare ":" and does not start with "*" |
| ValidateLemmas.ValidateRejectsMultiLevel | pkg/pattern/pattern.go:108-110 | any `*` segment among the validated segments makes IsInvalid return an error, even the last one |
| ValidateLemmas.ValidateFirstOffence | pkg/pattern/pattern.go:94-111 | a leading "/" gives ErrInvalidPattern; otherwise a non-nil error is that of the first offending segment |
| ValidateLemmas.ValidateIntendedAccepts | pkg/pattern/pattern.go:108 | the corrected check accepts iff there is no leading "/", no segment is empty, a bare ":" or a bare "*", and a `*` segment is only the last one |
| ValidateLemmas.ValidatedSegmentsOfSplit | pkg/pattern/pattern.go:98-99 | with a trailing "/" the template's segments are the validated ones plus one empty final segment; without one they are the validated segments |
| ValidateLemmas.IntendedWildcardNamed | pkg/pattern/pattern.go:103-110 | under the corrected check, every `:` or `*` segment of a valid template has a name after its marker |
| ValidateLemmas.IntendedCaptureNames | pkg/pattern/pattern.go:81-86 | for a template the corrected check accepts, every captured name is non-empty |
| ValidateLemmas.LeadingSlashCase | pkg/pattern/pattern_test.go:250-251 | `"/wrong"` gives ErrInvalidPattern |
| ValidateLemmas.EmptyPatternCase | pkg/pattern/pattern_test.go:253-254 | `""` gives ErrInvalidPattern |
| ValidateLemmas.EmptySegmentCase | pkg/pattern/pattern_test.go:256-257 | `"wow//awesome"` gives ErrInvalidPattern |
| ValidateLemmas.BareOneLevelCase | pkg/pattern/pattern_test.go:259-260 | `":"` gives ErrOneLevelWileCard |
| ValidateLemmas.BareMultiLevelCase | pkg/pattern/pattern_test.go:262-263 | `"*"` gives ErrMultiLevelWildCard |
| ValidateLemmas.LeadingMultiLevelCase | pkg/pattern/pattern_test.go:265-266 | `"*foo/bar"` gives ErrMultiLevelWildCard, as written and under the corrected check |
| ValidateLemmas.ValidTrailingSlashCase | pkg/pattern/pattern_test.go:247-248 | `"foo:/bar/"` is valid |
| ValidateLemmas.ValidColonCase | pkg/pattern/pattern_test.go:244-245 | `"foo:/:bar:"` is valid |
| ValidateLemmas.ValidLiteralCase | pkg/pattern/pattern_test.go:232-233 | `"foo/bar"` is valid |
| ValidateLemmas.ValidLiteralColonCase | pkg/pattern/pattern_test.go:235-236 | `"foo:/bar"` is valid |
| ValidateLemmas.ValidLeadingOneLevelCase | pkg/pattern/pattern_test.go:238-239 | `":foo/bar"` is valid |
| ValidateLemmas.ValidTrailingOneLevelCase | pkg/pattern/pattern_test.go:241-242 | `"foo/:bar"` is valid |
| ValidateLemmas.FinalMultiLevelCase | pkg/pattern/pattern.go:108 | `"foo/*key"` gives ErrMultiLevelWildCard as written and is accepted by the corrected check |

## Left out

- Request chain, execution cursor and cancellation-context layering: `context.go` declares the interface. Its `WithValue`, `WithCancel`, `WithTimeout` and `WithDeadline` only panic, and `Next`/`Abort` have no implementation in any file, so there is no behaviour to model.
- `router.go` and `handler.go`: interface declarations only. There is no route registry or dispatch logic in them.
- `responseWriter.go`, `requestReader.go`: delegation to `net/http`, `bytes.Buffer`, `html/template` and `gorilla/schema` (foreign library calls). `BindUrl` only passes `GetMatched`'s result to the decoder.
- `pkg/testutil/fail.go`: a test-failure printing helper.
- Go strings are byte strings; the model uses `seq<char>`. The separator and the two wildcard markers are single ASCII bytes, so segmenting is the same.
- The package variables `MultiLevelWildCard` and `OneLevelWildCard` can be reassigned in Go. The model fixes them to the constants `'*'` and `':'`.
- `GetMatched`'s documented precondition (`MatchString(s)` holds) is not a `requires`. The Go code computes a result for every input, and so does the model. The lemmas about captures state their own assumptions.
- `url.Values` is modelled as a `map` from name to a sequence of values. Map aliasing and identity do not exist in the model.

## Findings

| source | as written | input that shows it | evidently intended | confidence | as-written member | corrected member |
|---|---|---|---|---|---|---|
| pkg/pattern/pattern.go:108 | `i != len(plist)` holds for every index of the range loop, so every `*` segment is rejected, even as the last segment | `"foo/*key"` gives ErrMultiLevelWildCard | reject a `*` segment only when it is not the last validated segment (`i != len(plist)-1`) | high; not executed | ValidateLemmas.ValidateRejectsMultiLevel | ValidateLemmas.ValidateIntendedAccepts |
