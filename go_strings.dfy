/** The pieces of Go's `strings` package that the pattern code relies on,
    specialised to the separator "/" and given Go's exact semantics:
    `strings.Split`, `strings.Join`, `strings.HasPrefix`, `strings.TrimPrefix`
    and `strings.TrimSuffix`. */
module GoStrings {

  /** strings.HasPrefix(s, "/"): exactly the texts whose split starts with
      an empty piece followed by at least one more. */
  function HasSlashPrefix(s: string): (b: bool)
    ensures b <==> |Split(s)| >= 2 && Split(s)[0] == ""
  {
    |s| > 0 && s[0] == '/'
  }

  /** strings.HasSuffix(s, "/") */
  predicate HasSlashSuffix(s: string) {
    |s| > 0 && s[|s| - 1] == '/'
  }

  /** strings.TrimPrefix(s, "/"): removes at most one leading slash. */
  function TrimSlashPrefix(s: string): (r: string)
    ensures HasSlashPrefix(s) ==> s == "/" + r
    ensures !HasSlashPrefix(s) ==> r == s
  {
    if HasSlashPrefix(s) then s[1..] else s
  }

  /** strings.TrimSuffix(s, "/"): removes at most one trailing slash. */
  function TrimSlashSuffix(s: string): (r: string)
    ensures HasSlashSuffix(s) ==> s == r + "/"
    ensures !HasSlashSuffix(s) ==> r == s
  {
    if HasSlashSuffix(s) then s[..|s| - 1] else s
  }

  /** strings.Split(s, "/"): the maximal slash-free pieces between slashes.
      The result is never empty; the empty string splits into [""]. */
  function Split(s: string): (r: seq<string>)
    ensures |r| >= 1
    ensures forall k :: 0 <= k < |r| ==> '/' !in r[k]
  {
    if |s| == 0 then [""]
    else
      var rest := Split(s[1..]);
      if s[0] == '/' then [""] + rest
      else [[s[0]] + rest[0]] + rest[1..]
  }

  /** strings.Join(parts, "/") */
  function Join(parts: seq<string>): string {
    if |parts| == 0 then ""
    else if |parts| == 1 then parts[0]
    else parts[0] + "/" + Join(parts[1..])
  }

  /** Joining after extending the first piece by one character extends the
      joined text by that character. */
  lemma {:induction false} JoinExtendHead(c: char, parts: seq<string>)
    requires |parts| >= 1
    ensures Join([[c] + parts[0]] + parts[1..]) == [c] + Join(parts)
  {
    var head := [c] + parts[0];
    var q := [head] + parts[1..];
    assert |q| == |parts| && q[0] == head && q[1..] == parts[1..];
    if |parts| > 1 {
      var tail := Join(parts[1..]);
      assert Join(q) == head + "/" + tail;
      assert Join(parts) == parts[0] + "/" + tail;
      assert head + ("/" + tail) == [c] + (parts[0] + ("/" + tail));
    }
  }

  /** Split and Join are inverse: rejoining the pieces restores the text. */
  lemma {:induction false} JoinSplit(s: string)
    ensures Join(Split(s)) == s
  {
    if |s| > 0 {
      var rest := Split(s[1..]);
      JoinSplit(s[1..]);
      if s[0] == '/' {
        assert ([""] + rest)[1..] == rest;
        assert Join([""] + rest) == "" + "/" + Join(rest);
        assert s == [s[0]] + s[1..];
      } else {
        JoinExtendHead(s[0], rest);
        assert s == [s[0]] + s[1..];
      }
    }
  }

  /** Two texts with the same pieces are the same text. */
  lemma SplitInjective(a: string, b: string)
    requires Split(a) == Split(b)
    ensures a == b
  {
    JoinSplit(a);
    JoinSplit(b);
  }

  /** Text without a slash splits into itself alone. */
  lemma {:induction false} SplitNoSlash(a: string)
    requires '/' !in a
    ensures Split(a) == [a]
  {
    if |a| > 0 {
      assert '/' !in a[1..] by {
        forall k | 0 <= k < |a[1..]| ensures a[1..][k] != '/' {
          assert a[1..][k] == a[k + 1];
        }
      }
      SplitNoSlash(a[1..]);
      assert [a[0]] + a[1..] == a;
    }
  }

  /** A slash-free piece followed by a slash splits off as the first piece. */
  lemma {:induction false} SplitAtSlash(a: string, rest: string)
    requires '/' !in a
    ensures Split(a + "/" + rest) == [a] + Split(rest)
  {
    var s := a + "/" + rest;
    if |a| == 0 {
      assert s[0] == '/' && s[1..] == rest;
    } else {
      assert '/' !in a[1..] by {
        forall k | 0 <= k < |a[1..]| ensures a[1..][k] != '/' {
          assert a[1..][k] == a[k + 1];
        }
      }
      SplitAtSlash(a[1..], rest);
      assert s[0] == a[0] && s[1..] == a[1..] + "/" + rest;
      assert [a[0]] + a[1..] == a;
    }
  }

  /** Splitting a join of slash-free pieces gives back the pieces. */
  lemma {:induction false} SplitJoin(parts: seq<string>)
    requires |parts| >= 1
    requires forall k :: 0 <= k < |parts| ==> '/' !in parts[k]
    ensures Split(Join(parts)) == parts
  {
    if |parts| == 1 {
      SplitNoSlash(parts[0]);
    } else {
      SplitJoin(parts[1..]);
      SplitAtSlash(parts[0], Join(parts[1..]));
    }
  }

  /** A text that is the join of slash-free pieces splits into them. */
  lemma SplitInto(s: string, parts: seq<string>)
    requires |parts| >= 1 && Join(parts) == s
    requires forall k :: 0 <= k < |parts| ==> '/' !in parts[k]
    ensures Split(s) == parts
  {
    SplitJoin(parts);
  }

  /** The join of a list is the join of any non-empty prefix, a slash, and the
      join of the rest: rejoining a remainder and prepending what came before
      gives back the whole. */
  lemma {:induction false} JoinAt(parts: seq<string>, i: nat)
    requires 0 < i < |parts|
    ensures Join(parts) == Join(parts[..i]) + "/" + Join(parts[i..])
  {
    if i > 1 {
      JoinAt(parts[1..], i - 1);
      assert parts[1..][..i - 1] == parts[..i][1..];
      assert parts[1..][i - 1..] == parts[i..];
      assert Join(parts[..i]) == parts[0] + "/" + Join(parts[..i][1..]);
    } else {
      assert parts[1..] == parts[i..];
    }
  }

  /** A trailing slash adds one empty final piece. */
  lemma SplitTrailingSlash(a: string)
    ensures Split(a + "/") == Split(a) + [""]
  {
    var parts := Split(a) + [""];
    var n := |parts| - 1;
    assert parts[..n] == Split(a) && parts[n..] == [""];
    JoinAt(parts, n);
    JoinSplit(a);
    assert Join(parts[n..]) == "";
    assert Join(parts) == a + "/";
    SplitJoin(parts);
  }

  /** The first piece of a text that does not start with a slash starts with
      the text's first character. */
  lemma SplitHead(s: string)
    requires |s| > 0 && s[0] != '/'
    ensures |Split(s)[0]| > 0 && Split(s)[0][0] == s[0]
  {
  }
}
