/** Route templates (Go package `pattern`).

    A pattern is a string of "/"-separated segments. A segment whose first
    character is ':' is a one-level wildcard (it stands for exactly one path
    segment); a segment whose first character is '*' is a multi-level
    wildcard (it stands for the rest of the path); any other segment is a
    literal.

    Each of the four operations is a method with the source's index loop,
    proved equal to a recursive definition over the segment lists; the
    properties of those definitions are proved in the lemma modules. */
module Patterns {
  import opened GoStrings
  import opened Errors

  /** A route template: "/"-separated segments; a valid one does not start
      with "/". */
  type Pattern = string

  const MultiLevelWildCard: char := '*'
  const OneLevelWildCard: char := ':'

  predicate IsMultiLevelWildCard(s: string) {
    |s| > 0 && s[0] == MultiLevelWildCard
  }

  /** A segment is at most one kind of wildcard. */
  function IsOneLevelWildCard(s: string): (b: bool)
    ensures b ==> !IsMultiLevelWildCard(s)
  {
    |s| > 0 && s[0] == OneLevelWildCard
  }

  function MinInt(a: int, b: int): (r: int)
    ensures r <= a && r <= b
    ensures r == a || r == b
  {
    if a < b then a else b
  }

  // ---------------------------------------------------------------------
  // Reference definitions, one step per segment pair

  /** Whether two templates overlap; a wildcard on either side counts. */
  function Overlaps(ps: seq<string>, vs: seq<string>): bool
    decreases |ps|
  {
    if |ps| == 0 || |vs| == 0 then |ps| == |vs|
    else if IsMultiLevelWildCard(ps[0]) || IsMultiLevelWildCard(vs[0]) then true
    else if IsOneLevelWildCard(ps[0]) || IsOneLevelWildCard(vs[0]) then Overlaps(ps[1..], vs[1..])
    else if ps[0] == vs[0] then Overlaps(ps[1..], vs[1..])
    else false
  }

  /** Whether template segments `ps` accept path segments `ss`; only the
      template's wildcards count. */
  function Matches(ps: seq<string>, ss: seq<string>): bool
    decreases |ps|
  {
    if |ps| == 0 || |ss| == 0 then |ps| == |ss|
    else if IsMultiLevelWildCard(ps[0]) then true
    else if IsOneLevelWildCard(ps[0]) then Matches(ps[1..], ss[1..])
    else if ps[0] == ss[0] then Matches(ps[1..], ss[1..])
    else false
  }

  /** One captured value: a wildcard's name and the text it stands for. */
  datatype Binding = Binding(name: string, value: string)

  /** The captures of template segments `ps` over path segments `ss`, in scan
      order: a one-level wildcard binds its segment, the first multi-level
      wildcard binds the remaining segments rejoined with "/" and ends the
      scan. */
  function Captures(ps: seq<string>, ss: seq<string>): seq<Binding>
    decreases |ps|
  {
    if |ps| == 0 || |ss| == 0 then []
    else if IsMultiLevelWildCard(ps[0]) then [Binding(ps[0][1..], Join(ss))]
    else if IsOneLevelWildCard(ps[0]) then [Binding(ps[0][1..], ss[0])] + Captures(ps[1..], ss[1..])
    else Captures(ps[1..], ss[1..])
  }

  /** url.Values: a name and the ordered list of values added under it. */
  type Values = map<string, seq<string>>

  /** The values stored under `key`; a missing key has none. */
  function Get(v: Values, key: string): seq<string> {
    if key in v then v[key] else []
  }

  /** url.Values.Add: appends `value` to the list stored under `key`. */
  function Add(v: Values, key: string, value: string): (r: Values)
    ensures r.Keys == v.Keys + {key}
    ensures r[key] == Get(v, key) + [value]
    ensures forall k :: k in v && k != key ==> r[k] == v[k]
  {
    v[key := Get(v, key) + [value]]
  }

  /** Adds the bindings to `v` one after the other. */
  function AddAll(v: Values, bs: seq<Binding>): Values
    decreases |bs|
  {
    if |bs| == 0 then v else AddAll(Add(v, bs[0].name, bs[0].value), bs[1..])
  }

  /** The error one segment causes; `starMisplaced` is the source's test of
      the segment's position for a multi-level wildcard. */
  function SegmentError(s: string, starMisplaced: bool): PatternError {
    if |s| == 0 then ErrInvalidPattern
    else if IsOneLevelWildCard(s) && |s| == 1 then ErrOneLevelWileCard
    else if IsMultiLevelWildCard(s) && (|s| == 1 || starMisplaced) then ErrMultiLevelWildCard
    else NoError
  }

  /** The error of the first offending segment at index `i` or later; a
      multi-level wildcard at index `j` is misplaced when `j != compared`. */
  function FirstOffence(plist: seq<string>, i: nat, compared: int): PatternError
    decreases |plist| - i
  {
    if i >= |plist| then NoError
    else if SegmentError(plist[i], i != compared) != NoError then SegmentError(plist[i], i != compared)
    else FirstOffence(plist, i + 1, compared)
  }

  /** The segments validation inspects: one trailing "/" removed, then split. */
  function ValidatedSegments(p: Pattern): (r: seq<string>)
    ensures |r| >= 1
  {
    Split(TrimSlashSuffix(p))
  }

  /** IsInvalid as written: a multi-level wildcard at index `i` is compared
      with `len(plist)`, which no index of the list equals. */
  function Validate(p: Pattern): PatternError {
    if HasSlashPrefix(p) then ErrInvalidPattern
    else FirstOffence(ValidatedSegments(p), 0, |ValidatedSegments(p)|)
  }

  /** IsInvalid as evidently intended: a multi-level wildcard is allowed as the
      last validated segment, i.e. compared with `len(plist) - 1`. */
  function ValidateIntended(p: Pattern): PatternError {
    if HasSlashPrefix(p) then ErrInvalidPattern
    else FirstOffence(ValidatedSegments(p), 0, |ValidatedSegments(p)| - 1)
  }

  // ---------------------------------------------------------------------
  // The operations, as the source runs them

  /** Pattern.MatchPattern: whether `p` and `v` can match a common path. */
  method MatchPattern(p: Pattern, v: Pattern) returns (b: bool)
    ensures b == Overlaps(Split(p), Split(v))
  {
    var plist := Split(p);
    var vlist := Split(v);
    var sameLength := |plist| == |vlist|;
    for i := 0 to MinInt(|plist|, |vlist|)
      invariant Overlaps(plist, vlist) == Overlaps(plist[i..], vlist[i..])
    {
      assert plist[i..][1..] == plist[i + 1..] && vlist[i..][1..] == vlist[i + 1..];
      if IsMultiLevelWildCard(plist[i]) || IsMultiLevelWildCard(vlist[i]) {
        return true;
      }
      if IsOneLevelWildCard(plist[i]) || IsOneLevelWildCard(vlist[i]) {
        continue;
      }
      if plist[i] == vlist[i] {
        continue;
      }
      return false;
    }
    return sameLength;
  }

  /** Pattern.MatchString: whether path `s` (one leading "/" stripped) is
      accepted by `p`. */
  method MatchString(p: Pattern, s: string) returns (b: bool)
    ensures b == Matches(Split(p), Split(TrimSlashPrefix(s)))
  {
    var plist := Split(p);
    var slist := Split(TrimSlashPrefix(s));
    var sameLength := |plist| == |slist|;
    for i := 0 to MinInt(|plist|, |slist|)
      invariant Matches(plist, slist) == Matches(plist[i..], slist[i..])
    {
      assert plist[i..][1..] == plist[i + 1..] && slist[i..][1..] == slist[i + 1..];
      if IsMultiLevelWildCard(plist[i]) {
        return true;
      }
      if IsOneLevelWildCard(plist[i]) {
        continue;
      }
      if plist[i] == slist[i] {
        continue;
      }
      return false;
    }
    return sameLength;
  }

  /** Pattern.GetMatched: the values `p`'s wildcards capture from path `s`.
      The source asks its callers to establish MatchString(p, s) first but
      computes a result for every input, as this method does. */
  method GetMatched(p: Pattern, s: string) returns (v: Values)
    ensures v == AddAll(map[], Captures(Split(p), Split(TrimSlashPrefix(s))))
  {
    v := map[];
    var plist := Split(p);
    var slist := Split(TrimSlashPrefix(s));
    for i := 0 to MinInt(|plist|, |slist|)
      invariant AddAll(v, Captures(plist[i..], slist[i..])) == AddAll(map[], Captures(plist, slist))
    {
      assert plist[i..][1..] == plist[i + 1..] && slist[i..][1..] == slist[i + 1..];
      if IsMultiLevelWildCard(plist[i]) {
        v := Add(v, plist[i][1..], Join(slist[i..]));
        return;
      }
      if IsOneLevelWildCard(plist[i]) {
        v := Add(v, plist[i][1..], slist[i]);
        continue;
      }
    }
  }

  /** Pattern.IsInvalid: the first error found in `p`, or NoError. */
  method IsInvalid(p: Pattern) returns (err: PatternError)
    ensures err == Validate(p)
  {
    if HasSlashPrefix(p) {
      return ErrInvalidPattern;
    }
    var plist := Split(TrimSlashSuffix(p));
    for i := 0 to |plist|
      invariant Validate(p) == FirstOffence(plist, i, |plist|)
    {
      var s := plist[i];
      if |s| == 0 {
        return ErrInvalidPattern;
      }
      if IsOneLevelWildCard(s) && |s| == 1 {
        return ErrOneLevelWileCard;
      }
      if IsMultiLevelWildCard(s) && (|s| == 1 || i != |plist|) {
        return ErrMultiLevelWildCard;
      }
    }
    return NoError;
  }
}
