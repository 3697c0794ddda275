/** The Kotlin string operations the bridge's inventory parser and exporter rely on. */
module Strings {

  /**
    The characters for which Kotlin's `Char.isWhitespace` holds (the JVM's
    whitespace plus the Unicode space separators); `String.trim()` drops them.
  */
  const Whitespace: set<char> := {
    '\t', '\n', '\U{000B}', '\U{000C}', '\r',
    '\U{001C}', '\U{001D}', '\U{001E}', '\U{001F}',
    ' ', '\U{00A0}', '\U{1680}',
    '\U{2000}', '\U{2001}', '\U{2002}', '\U{2003}', '\U{2004}', '\U{2005}',
    '\U{2006}', '\U{2007}', '\U{2008}', '\U{2009}', '\U{200A}',
    '\U{2028}', '\U{2029}', '\U{202F}', '\U{205F}', '\U{3000}'
  }

  /** Drops the leading characters that belong to `cs`; what is left is a suffix of `s`. */
  function StripStart(s: string, cs: set<char>): (r: string)
    ensures |r| <= |s| && r == s[|s| - |r|..]
    ensures r == [] || r[0] !in cs
  {
    if s != [] && s[0] in cs then StripStart(s[1..], cs) else s
  }

  /** Drops the trailing characters that belong to `cs`; what is left is a prefix of `s`. */
  function StripEnd(s: string, cs: set<char>): (r: string)
    ensures |r| <= |s| && r == s[..|r|]
    ensures r == [] || r[|r| - 1] !in cs
  {
    if s != [] && s[|s| - 1] in cs then StripEnd(s[..|s| - 1], cs) else s
  }

  /**
    Kotlin's `trim(*chars)`: the result is empty or starts and ends with a
    character outside `cs`, and holds only characters of `s`;
    `StripRemovesRuns` says which part of `s` it is.
  */
  function Strip(s: string, cs: set<char>): (r: string)
    ensures r == [] || (r[0] !in cs && r[|r| - 1] !in cs)
    ensures forall c :: c in r ==> c in s
  {
    var t := StripStart(s, cs);
    assert forall c :: c in t ==> c in s by {
      forall c | c in t ensures c in s {
        var k :| 0 <= k < |t| && t[k] == c;
        assert s[|s| - |t| + k] == c;
      }
    }
    StripEnd(t, cs)
  }

  /** Everything `StripStart` drops belongs to `cs`. */
  lemma {:induction false} StripStartDrops(s: string, cs: set<char>)
    ensures forall k :: 0 <= k < |s| - |StripStart(s, cs)| ==> s[k] in cs
  {
    if s != [] && s[0] in cs {
      StripStartDrops(s[1..], cs);
    }
  }

  /** Everything `StripEnd` drops belongs to `cs`. */
  lemma {:induction false} StripEndDrops(s: string, cs: set<char>)
    ensures forall k :: |StripEnd(s, cs)| <= k < |s| ==> s[k] in cs
  {
    if s != [] && s[|s| - 1] in cs {
      var p := s[..|s| - 1];
      StripEndDrops(p, cs);
      forall k | |StripEnd(s, cs)| <= k < |s|
        ensures s[k] in cs
      {
        if k < |p| {
          assert s[k] == p[k];
        }
      }
    }
  }

  /** `r` sits at index `i` of `s`, with only characters of `cs` before and after it. */
  predicate StrippedAt(s: string, r: string, cs: set<char>, i: int) {
    0 <= i <= |s| - |r| && r == s[i..i + |r|]
    && (forall k :: 0 <= k < i ==> s[k] in cs)
    && (forall k :: i + |r| <= k < |s| ==> s[k] in cs)
  }

  /**
    `trim(*chars)` removes a run of characters of `cs` from each end of `s`
    and keeps the middle; since the middle starts and ends outside `cs`,
    both runs are the longest ones.
  */
  lemma StripRemovesRuns(s: string, cs: set<char>)
    ensures exists i :: StrippedAt(s, Strip(s, cs), cs, i)
  {
    var t := StripStart(s, cs);
    var r := StripEnd(t, cs);
    var i := |s| - |t|;
    StripStartDrops(s, cs);
    StripEndDrops(t, cs);
    assert t == s[i..];
    forall k | i + |r| <= k < |s|
      ensures s[k] in cs
    {
      assert s[k] == t[k - i];
    }
    assert r == Strip(s, cs);
    assert StrippedAt(s, Strip(s, cs), cs, i);
  }

  /** A string that starts and ends outside `cs` is left as it is. */
  lemma StripUnchanged(s: string, cs: set<char>)
    requires s != [] && s[0] !in cs && s[|s| - 1] !in cs
    ensures Strip(s, cs) == s
  {
  }

  /** Kotlin's `String.trim()`. */
  function Trim(s: string): string {
    Strip(s, Whitespace)
  }

  /** `removePrefix` of a one-character prefix. */
  function RemovePrefix(s: string, c: char): string {
    if s != [] && s[0] == c then s[1..] else s
  }

  /** `removeSuffix` of a one-character suffix. */
  function RemoveSuffix(s: string, c: char): string {
    if s != [] && s[|s| - 1] == c then s[..|s| - 1] else s
  }

  /**
    Kotlin's `split(d)`: the pieces between occurrences of `d`, empty ones
    included, so there is always at least one piece and none holds `d`.
  */
  function Split(s: string, d: char): (r: seq<string>)
    ensures |r| >= 1
    ensures forall i :: 0 <= i < |r| ==> d !in r[i]
    ensures Join(r, d) == s
  {
    if s == [] then [[]]
    else
      var rest := Split(s[1..], d);
      if s[0] == d then
        JoinCons([], rest, d);
        [[]] + rest
      else
        assert [rest[0]] + rest[1..] == rest;
        JoinCons(rest[0], rest[1..], d);
        JoinCons([s[0]] + rest[0], rest[1..], d);
        [[s[0]] + rest[0]] + rest[1..]
  }

  /** Kotlin's `joinToString(d)`. */
  function Join(xs: seq<string>, d: char): string {
    if xs == [] then []
    else if |xs| == 1 then xs[0]
    else xs[0] + [d] + Join(xs[1..], d)
  }

  /** Joining after a first item: the item, then the delimiter and the rest if there is any. */
  lemma JoinCons(x: string, xs: seq<string>, d: char)
    ensures Join([x] + xs, d) == if xs == [] then x else x + [d] + Join(xs, d)
  {
    assert ([x] + xs)[1..] == xs;
  }

  /** The first item opens the joined string. */
  lemma JoinStartsWithFirst(xs: seq<string>, d: char)
    requires xs != []
    ensures |Join(xs, d)| >= |xs[0]| && Join(xs, d)[..|xs[0]|] == xs[0]
  {
    if |xs| > 1 {
      assert Join(xs, d) == xs[0] + ([d] + Join(xs[1..], d));
    }
  }

  /** A string without the delimiter is one piece. */
  lemma {:induction false} SplitWithoutDelimiter(a: string, d: char)
    requires d !in a
    ensures Split(a, d) == [a]
  {
    if a != [] {
      SplitWithoutDelimiter(a[1..], d);
      assert [a[0]] + a[1..] == a;
    }
  }

  /** The first delimiter closes the first piece. */
  lemma {:induction false} SplitAtFirstDelimiter(a: string, b: string, d: char)
    requires d !in a
    ensures Split(a + [d] + b, d) == [a] + Split(b, d)
  {
    if a == [] {
      assert a + [d] + b == [d] + b;
      assert ([d] + b)[1..] == b;
    } else {
      assert (a + [d] + b)[1..] == a[1..] + [d] + b;
      SplitAtFirstDelimiter(a[1..], b, d);
      assert [a[0]] + a[1..] == a;
    }
  }

  /** Splitting undoes joining when no item holds the delimiter (and there is an item). */
  lemma {:induction false} SplitJoin(xs: seq<string>, d: char)
    requires xs != []
    requires forall i :: 0 <= i < |xs| ==> d !in xs[i]
    ensures Split(Join(xs, d), d) == xs
  {
    if |xs| == 1 {
      SplitWithoutDelimiter(xs[0], d);
    } else {
      SplitJoin(xs[1..], d);
      SplitAtFirstDelimiter(xs[0], Join(xs[1..], d), d);
      assert [xs[0]] + xs[1..] == xs;
    }
  }

  /**
    Splitting undoes joining only when there is an item and no item holds
    the delimiter: every piece of a split is free of it, and there is always
    at least one piece.
  */
  lemma SplitJoinOnlyIf(xs: seq<string>, d: char)
    requires Split(Join(xs, d), d) == xs
    ensures xs != []
    ensures forall i :: 0 <= i < |xs| ==> d !in xs[i]
  {
  }

  /** An item that holds the delimiter comes back from a join as two pieces. */
  lemma JoinLosesDelimiterItems()
    ensures Join(["a,b"], ',') == "a,b"
    ensures Split(Join(["a,b"], ','), ',') == ["a", "b"]
  {
    SplitAtFirstDelimiter("a", "b", ',');
    SplitWithoutDelimiter("b", ',');
    assert "a" + [','] + "b" == "a,b";
  }
}
