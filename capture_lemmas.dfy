/** What GetMatched promises, proved about its reference definition
    `AddAll(map[], Captures(...))`. */
module CaptureLemmas {
  import opened GoStrings
  import opened Patterns
  import opened MatchLemmas
  import opened SampleSegments

  // ---------------------------------------------------------------------
  // url.Values accumulation

  /** The values the bindings carry for `name`, in order. */
  function ValuesNamed(bs: seq<Binding>, name: string): seq<string>
    decreases |bs|
  {
    if |bs| == 0 then []
    else (if bs[0].name == name then [bs[0].value] else []) + ValuesNamed(bs[1..], name)
  }

  /** Adding bindings one after the other keeps what was stored and appends,
      under each name, the values bound to it in scan order. */
  lemma {:induction false} AddAllValues(v: Values, bs: seq<Binding>, name: string)
    ensures Get(AddAll(v, bs), name) == Get(v, name) + ValuesNamed(bs, name)
    decreases |bs|
  {
    if |bs| > 0 {
      var v' := Add(v, bs[0].name, bs[0].value);
      var own := if bs[0].name == name then [bs[0].value] else [];
      AddAllValues(v', bs[1..], name);
      assert AddAll(v, bs) == AddAll(v', bs[1..]);
      GetAdd(v, bs[0].name, bs[0].value, name);
      assert ValuesNamed(bs, name) == own + ValuesNamed(bs[1..], name);
      assert (Get(v, name) + own) + ValuesNamed(bs[1..], name)
          == Get(v, name) + (own + ValuesNamed(bs[1..], name));
    }
  }

  /** One Add appends to the values of its own key only. */
  lemma GetAdd(v: Values, key: string, value: string, name: string)
    ensures Get(Add(v, key, value), name) == Get(v, name) + (if key == name then [value] else [])
  {
  }

  /** A name is stored after adding bindings exactly when it was stored
      before or some binding uses it. */
  lemma {:induction false} AddAllKeys(v: Values, bs: seq<Binding>, name: string)
    ensures name in AddAll(v, bs) <==> name in v || exists j :: 0 <= j < |bs| && bs[j].name == name
    decreases |bs|
  {
    if |bs| > 0 {
      var v' := Add(v, bs[0].name, bs[0].value);
      AddAllKeys(v', bs[1..], name);
      assert AddAll(v, bs) == AddAll(v', bs[1..]);
      if exists j :: 0 <= j < |bs[1..]| && bs[1..][j].name == name {
        var j :| 0 <= j < |bs[1..]| && bs[1..][j].name == name;
        assert bs[j + 1].name == name;
      }
      if exists j :: 0 <= j < |bs| && bs[j].name == name {
        var j :| 0 <= j < |bs| && bs[j].name == name;
        if j > 0 {
          assert bs[1..][j - 1].name == name;
        }
      }
    }
  }

  // ---------------------------------------------------------------------
  // Captures, position by position

  /** What the template segment at index `j` binds. */
  function BindingAt(ps: seq<string>, ss: seq<string>, j: nat): seq<Binding>
    requires j < |ps| && j < |ss|
  {
    if IsMultiLevelWildCard(ps[j]) then [Binding(ps[j][1..], Join(ss[j..]))]
    else if IsOneLevelWildCard(ps[j]) then [Binding(ps[j][1..], ss[j])]
    else []
  }

  /** The bindings of the first `m` positions, left to right. */
  function BindingsUpTo(ps: seq<string>, ss: seq<string>, m: nat): seq<Binding>
    requires m <= |ps| && m <= |ss|
  {
    if m == 0 then [] else BindingsUpTo(ps, ss, m - 1) + BindingAt(ps, ss, m - 1)
  }

  /** How many positions the scan visits: up to and including the first
      multi-level wildcard, and no further than either list. */
  function Reach(ps: seq<string>, ss: seq<string>): (m: nat)
    ensures m <= |ps| && m <= |ss|
  {
    MinInt(MinInt(FirstStar(ps) + 1, |ps|), |ss|)
  }

  /** Dropping the first position shifts every later binding by one. */
  lemma {:induction false} BindingsUpToShift(ps: seq<string>, ss: seq<string>, m: nat)
    requires 0 < m <= |ps| && m <= |ss|
    ensures BindingsUpTo(ps, ss, m) == BindingAt(ps, ss, 0) + BindingsUpTo(ps[1..], ss[1..], m - 1)
  {
    if m > 1 {
      BindingsUpToShift(ps, ss, m - 1);
      assert ss[1..][m - 2..] == ss[m - 1..];
      assert BindingAt(ps, ss, m - 1) == BindingAt(ps[1..], ss[1..], m - 2);
    }
  }

  /** GetMatched position by position: the scan visits the positions up to
      the first multi-level wildcard (or the end of either list); each
      one-level wildcard binds its name to the path segment at the same index,
      the multi-level wildcard binds its name to the rest of the path rejoined
      with "/", and literal segments bind nothing. */
  lemma {:induction false} CapturesByPosition(ps: seq<string>, ss: seq<string>)
    ensures Captures(ps, ss) == BindingsUpTo(ps, ss, Reach(ps, ss))
    decreases |ps|
  {
    if |ps| == 0 || |ss| == 0 {
    } else if IsMultiLevelWildCard(ps[0]) {
      assert FirstStar(ps) == 0 && Reach(ps, ss) == 1;
      assert ss[0..] == ss;
      assert BindingsUpTo(ps, ss, 1) == BindingsUpTo(ps, ss, 0) + BindingAt(ps, ss, 0);
    } else {
      var ps', ss' := ps[1..], ss[1..];
      CapturesByPosition(ps', ss');
      assert FirstStar(ps) == 1 + FirstStar(ps');
      assert Reach(ps, ss) == 1 + Reach(ps', ss');
      assert Captures(ps, ss) == BindingAt(ps, ss, 0) + Captures(ps', ss');
      BindingsUpToShift(ps, ss, Reach(ps, ss));
    }
  }

  /** Every captured name is the name of a wildcard segment of the template:
      literal segments add nothing. */
  lemma {:induction false} CaptureNamesAreWildcards(ps: seq<string>, ss: seq<string>, c: nat)
    requires c < |Captures(ps, ss)|
    ensures exists j :: 0 <= j < |ps| &&
              (IsOneLevelWildCard(ps[j]) || IsMultiLevelWildCard(ps[j])) && Captures(ps, ss)[c].name == ps[j][1..]
    decreases |ps|
  {
    if IsMultiLevelWildCard(ps[0]) || (IsOneLevelWildCard(ps[0]) && c == 0) {
      assert Captures(ps, ss)[c].name == ps[0][1..];
    } else {
      var c' := if IsOneLevelWildCard(ps[0]) then c - 1 else c;
      assert Captures(ps, ss)[c] == Captures(ps[1..], ss[1..])[c'];
      CaptureNamesAreWildcards(ps[1..], ss[1..], c');
      var j :| 0 <= j < |ps[1..]| && (IsOneLevelWildCard(ps[1..][j]) || IsMultiLevelWildCard(ps[1..][j]))
        && Captures(ps[1..], ss[1..])[c'].name == ps[1..][j][1..];
      assert ps[j + 1] == ps[1..][j];
    }
  }

  /** For a path `s`, a one-level wildcard before the first multi-level
      wildcard binds its name to the path segment at its index, a text that
      never holds a "/". */
  lemma OneLevelCapture(p: Pattern, s: string, j: nat)
    requires j < FirstStar(Split(p)) && j < |Split(TrimSlashPrefix(s))|
    requires IsOneLevelWildCard(Split(p)[j])
    ensures Binding(Split(p)[j][1..], Split(TrimSlashPrefix(s))[j]) in Captures(Split(p), Split(TrimSlashPrefix(s)))
    ensures '/' !in Split(TrimSlashPrefix(s))[j]
  {
    var ps, ss := Split(p), Split(TrimSlashPrefix(s));
    CapturesByPosition(ps, ss);
    BindingsUpToHas(ps, ss, Reach(ps, ss), j);
  }

  /** The bindings of the first `m` positions include those of position `j`. */
  lemma {:induction false} BindingsUpToHas(ps: seq<string>, ss: seq<string>, m: nat, j: nat)
    requires j < m <= |ps| && m <= |ss|
    ensures forall b :: b in BindingAt(ps, ss, j) ==> b in BindingsUpTo(ps, ss, m)
  {
    if j < m - 1 {
      BindingsUpToHas(ps, ss, m - 1, j);
    }
  }

  /** For a path `s`, the template's first multi-level wildcard, when the path
      reaches it, makes the last capture: its name bound to the remaining
      path segments rejoined with "/", which put back after the earlier
      segments and a "/" gives the path with its leading "/" removed. */
  lemma MultiLevelCapture(p: Pattern, s: string)
    requires FirstStar(Split(p)) < |Split(p)| && FirstStar(Split(p)) < |Split(TrimSlashPrefix(s))|
    ensures var ps, ss, k := Split(p), Split(TrimSlashPrefix(s)), FirstStar(Split(p));
      var cs := Captures(ps, ss);
      |cs| > 0 && cs[|cs| - 1] == Binding(ps[k][1..], Join(ss[k..])) &&
      (k == 0 ==> Join(ss[k..]) == TrimSlashPrefix(s)) &&
      (k > 0 ==> Join(ss[..k]) + "/" + Join(ss[k..]) == TrimSlashPrefix(s))
  {
    LastCapture(Split(p), Split(TrimSlashPrefix(s)));
    RejoinAt(TrimSlashPrefix(s), FirstStar(Split(p)));
  }

  /** A reached multi-level wildcard makes the last capture. */
  lemma LastCapture(ps: seq<string>, ss: seq<string>)
    requires FirstStar(ps) < |ps| && FirstStar(ps) < |ss|
    ensures var cs, k := Captures(ps, ss), FirstStar(ps);
      |cs| > 0 && cs[|cs| - 1] == Binding(ps[k][1..], Join(ss[k..]))
  {
    var k := FirstStar(ps);
    CapturesByPosition(ps, ss);
    assert Reach(ps, ss) == k + 1;
    assert BindingsUpTo(ps, ss, k + 1) == BindingsUpTo(ps, ss, k) + BindingAt(ps, ss, k);
    assert BindingAt(ps, ss, k) == [Binding(ps[k][1..], Join(ss[k..]))];
  }

  /** Cutting a text's pieces at index `k` and rejoining both sides around a
      "/" gives back the text. */
  lemma RejoinAt(t: string, k: nat)
    requires k < |Split(t)|
    ensures k == 0 ==> Join(Split(t)[k..]) == t
    ensures k > 0 ==> Join(Split(t)[..k]) + "/" + Join(Split(t)[k..]) == t
  {
    var ss := Split(t);
    JoinSplit(t);
    if k > 0 {
      JoinAt(ss, k);
    } else {
      assert ss[0..] == ss;
    }
  }


  // ---------------------------------------------------------------------
  // Cases pinned down by the source's tests

  // A single binding yields a single name with a single value.
  lemma AddOne(name: string, value: string)
    ensures AddAll(map[], [Binding(name, value)]) == map[name := [value]]
  {
    var bs := [Binding(name, value)];
    assert bs[1..] == [];
    assert AddAll(map[], bs) == Add(map[], name, value);
    assert Get(map[], name) + [value] == [value];
  }

  // "*key" on "/foo/bar/" captures key = "foo/bar/".
  lemma GetMatchedRemainderCase(p: Pattern, s: string)
    requires p == "*key" && s == "/foo/bar/"
    ensures AddAll(map[], Captures(Split(p), Split(TrimSlashPrefix(s)))) == map["key" := ["foo/bar/"]]
  {
    SegmentsStarKey(p);
    DropLeadingSlash(s);
    SegmentsFooBarSlash(TrimSlashPrefix(s));
    RemainderCaptures();
  }

  lemma RemainderCaptures()
    ensures AddAll(map[], Captures(["*key"], ["foo", "bar", ""])) == map["key" := ["foo/bar/"]]
  {
    var ps, ss := ["*key"], ["foo", "bar", ""];
    assert Join(ss) == "foo/bar/";
    assert Captures(ps, ss) == [Binding("key", "foo/bar/")];
    AddOne("key", "foo/bar/");
  }

  // "foo/*key" on "/foo/bar/" captures key = "bar/".
  lemma GetMatchedSuffixCase(p: Pattern, s: string)
    requires p == "foo/*key" && s == "/foo/bar/"
    ensures AddAll(map[], Captures(Split(p), Split(TrimSlashPrefix(s)))) == map["key" := ["bar/"]]
  {
    SegmentsFooStarKey(p);
    DropLeadingSlash(s);
    SegmentsFooBarSlash(TrimSlashPrefix(s));
    SuffixCaptures();
  }

  lemma SuffixCaptures()
    ensures AddAll(map[], Captures(["foo", "*key"], ["foo", "bar", ""])) == map["key" := ["bar/"]]
  {
    var ps, ss := ["foo", "*key"], ["foo", "bar", ""];
    assert Join(ss[1..]) == "bar/" by {
      assert ss[1..] == ["bar", ""] && ss[2..] == [""];
    }
    assert ps[1..] == ["*key"];
    assert Captures(ps, ss) == [Binding("key", "bar/")];
    AddOne("key", "bar/");
  }

  // "foo/:key/" on "/foo/bar/" captures key = "bar".
  lemma GetMatchedOneLevelCase(p: Pattern, s: string)
    requires p == "foo/:key/" && s == "/foo/bar/"
    ensures AddAll(map[], Captures(Split(p), Split(TrimSlashPrefix(s)))) == map["key" := ["bar"]]
  {
    SegmentsFooColonKeySlash(p);
    DropLeadingSlash(s);
    SegmentsFooBarSlash(TrimSlashPrefix(s));
    OneLevelCaptures();
  }

  lemma OneLevelCaptures()
    ensures AddAll(map[], Captures(["foo", ":key", ""], ["foo", "bar", ""])) == map["key" := ["bar"]]
  {
    var ps, ss := ["foo", ":key", ""], ["foo", "bar", ""];
    assert Captures(ps[2..], ss[2..]) == [];
    assert Captures(ps[1..], ss[1..]) == [Binding("key", "bar")];
    assert Captures(ps, ss) == [Binding("key", "bar")];
    AddOne("key", "bar");
  }

  // "*key" on "/foo/bar" captures key = "foo/bar".
  lemma GetMatchedRemainderNoSlashCase(p: Pattern, s: string)
    requires p == "*key" && s == "/foo/bar"
    ensures AddAll(map[], Captures(Split(p), Split(TrimSlashPrefix(s)))) == map["key" := ["foo/bar"]]
  {
    SegmentsStarKey(p);
    DropLeadingSlash(s);
    SegmentsFooBar(TrimSlashPrefix(s));
    RemainderNoSlashCaptures();
  }

  lemma RemainderNoSlashCaptures()
    ensures AddAll(map[], Captures(["*key"], ["foo", "bar"])) == map["key" := ["foo/bar"]]
  {
    var ps, ss := ["*key"], ["foo", "bar"];
    assert Join(ss) == "foo/bar";
    assert Captures(ps, ss) == [Binding("key", "foo/bar")];
    AddOne("key", "foo/bar");
  }

  // "foo/*key" on "/foo/bar" captures key = "bar".
  lemma GetMatchedSuffixNoSlashCase(p: Pattern, s: string)
    requires p == "foo/*key" && s == "/foo/bar"
    ensures AddAll(map[], Captures(Split(p), Split(TrimSlashPrefix(s)))) == map["key" := ["bar"]]
  {
    SegmentsFooStarKey(p);
    DropLeadingSlash(s);
    SegmentsFooBar(TrimSlashPrefix(s));
    SuffixNoSlashCaptures();
  }

  lemma SuffixNoSlashCaptures()
    ensures AddAll(map[], Captures(["foo", "*key"], ["foo", "bar"])) == map["key" := ["bar"]]
  {
    var ps, ss := ["foo", "*key"], ["foo", "bar"];
    assert ps[1..] == ["*key"] && ss[1..] == ["bar"];
    assert Captures(ps, ss) == [Binding("key", "bar")];
    AddOne("key", "bar");
  }

  // ":key/bar" on "/foo/bar" captures key = "foo".
  lemma GetMatchedLeadingOneLevelCase(p: Pattern, s: string)
    requires p == ":key/bar" && s == "/foo/bar"
    ensures AddAll(map[], Captures(Split(p), Split(TrimSlashPrefix(s)))) == map["key" := ["foo"]]
  {
    SegmentsColonKeyBar(p);
    DropLeadingSlash(s);
    SegmentsFooBar(TrimSlashPrefix(s));
    LeadingOneLevelCaptures();
  }

  lemma LeadingOneLevelCaptures()
    ensures AddAll(map[], Captures([":key", "bar"], ["foo", "bar"])) == map["key" := ["foo"]]
  {
    var ps, ss := [":key", "bar"], ["foo", "bar"];
    assert Captures(ps[1..], ss[1..]) == [];
    assert Captures(ps, ss) == [Binding("key", "foo")];
    AddOne("key", "foo");
  }

  // ":key/bar/" on "/foo/bar/" captures key = "foo".
  lemma GetMatchedLeadingOneLevelSlashCase(p: Pattern, s: string)
    requires p == ":key/bar/" && s == "/foo/bar/"
    ensures AddAll(map[], Captures(Split(p), Split(TrimSlashPrefix(s)))) == map["key" := ["foo"]]
  {
    SegmentsColonKeyBarSlash(p);
    DropLeadingSlash(s);
    SegmentsFooBarSlash(TrimSlashPrefix(s));
    LeadingOneLevelSlashCaptures();
  }

  lemma LeadingOneLevelSlashCaptures()
    ensures AddAll(map[], Captures([":key", "bar", ""], ["foo", "bar", ""])) == map["key" := ["foo"]]
  {
    var ps, ss := [":key", "bar", ""], ["foo", "bar", ""];
    assert Captures(ps[1..][1..], ss[1..][1..]) == [];
    assert Captures(ps[1..], ss[1..]) == [];
    assert Captures(ps, ss) == [Binding("key", "foo")];
    AddOne("key", "foo");
  }

  // "foo/:key" on "/foo/bar" captures key = "bar".
  lemma GetMatchedTrailingOneLevelCase(p: Pattern, s: string)
    requires p == "foo/:key" && s == "/foo/bar"
    ensures AddAll(map[], Captures(Split(p), Split(TrimSlashPrefix(s)))) == map["key" := ["bar"]]
  {
    SegmentsFooColonKey(p);
    DropLeadingSlash(s);
    SegmentsFooBar(TrimSlashPrefix(s));
    TrailingOneLevelCaptures();
  }

  lemma TrailingOneLevelCaptures()
    ensures AddAll(map[], Captures(["foo", ":key"], ["foo", "bar"])) == map["key" := ["bar"]]
  {
    var ps, ss := ["foo", ":key"], ["foo", "bar"];
    assert Captures(ps[1..][1..], ss[1..][1..]) == [];
    assert Captures(ps[1..], ss[1..]) == [Binding("key", "bar")];
    assert Captures(ps, ss) == [Binding("key", "bar")];
    AddOne("key", "bar");
  }
}
