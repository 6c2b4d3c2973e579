/**
 * The parts of Go's `strings` and `unicode` packages that the proxy checker
 * relies on, over Dafny strings (sequences of Unicode scalar values).
 */
module Strings {

  /** unicode.IsSpace: the Latin-1 spaces plus the Unicode White_Space property. */
  predicate IsSpace(c: char) {
    || ('\t' <= c <= '\r')
    || c == ' ' || c == '\U{0085}' || c == '\U{00A0}'
    || c == '\U{1680}'
    || ('\U{2000}' <= c <= '\U{200A}')
    || c == '\U{2028}' || c == '\U{2029}' || c == '\U{202F}' || c == '\U{205F}'
    || c == '\U{3000}'
  }

  /** Drops leading white space. */
  function TrimLeft(s: string): (r: string)
    ensures |r| <= |s| && r == s[|s| - |r|..]
    ensures r == [] || !IsSpace(r[0])
    ensures forall i :: 0 <= i < |s| - |r| ==> IsSpace(s[i])
  {
    if |s| > 0 && IsSpace(s[0]) then TrimLeft(s[1..]) else s
  }

  /** Drops trailing white space. */
  function TrimRight(s: string): (r: string)
    ensures |r| <= |s| && r == s[..|r|]
    ensures r == [] || !IsSpace(r[|r| - 1])
    ensures forall i :: |r| <= i < |s| ==> IsSpace(s[i])
  {
    if |s| > 0 && IsSpace(s[|s| - 1]) then TrimRight(s[..|s| - 1]) else s
  }

  /** strings.TrimSpace: the longest middle part of s that neither starts nor ends with white space. */
  function TrimSpace(s: string): (r: string)
    ensures |r| <= |s|
    ensures r == [] || (!IsSpace(r[0]) && !IsSpace(r[|r| - 1]))
    ensures r == [] <==> forall i :: 0 <= i < |s| ==> IsSpace(s[i])
  {
    var l := TrimLeft(s);
    var r := TrimRight(l);
    assert r == [] ==> forall i :: 0 <= i < |s| ==> IsSpace(s[i]) by {
      if r == [] {
        assert l == [];
      }
    }
    r
  }

  /** TrimSpace removes a white-space prefix and a white-space suffix, and nothing else. */
  lemma TrimSpaceTrims(s: string)
    ensures exists i, j ::
              && 0 <= i <= j <= |s| && TrimSpace(s) == s[i..j]
              && (forall k :: 0 <= k < i ==> IsSpace(s[k]))
              && (forall k :: j <= k < |s| ==> IsSpace(s[k]))
  {
    var l := TrimLeft(s);
    var r := TrimRight(l);
    var i := |s| - |l|;
    var j := i + |r|;
    assert TrimSpace(s) == r == s[i..j];
    forall k | j <= k < |s| ensures IsSpace(s[k]) {
      assert s[k] == l[k - i];
    }
  }

  /** A string with no white space at either end is its own trimmed form. */
  lemma TrimSpaceNoEdges(s: string)
    requires s == [] || (!IsSpace(s[0]) && !IsSpace(s[|s| - 1]))
    ensures TrimSpace(s) == s
  {
  }

  /** True when sub occurs in s starting at position i. */
  predicate OccursAt(s: string, sub: string, i: int) {
    0 <= i && i + |sub| <= |s| && s[i..i + |sub|] == sub
  }

  /** strings.Index: the position of the first occurrence of sub in s, or -1. */
  function Index(s: string, sub: string): (r: int)
    ensures r == -1 || 0 <= r <= |s| - |sub|
    ensures r == -1 <==> forall i :: 0 <= i <= |s| - |sub| ==> !OccursAt(s, sub, i)
    ensures r >= 0 ==> OccursAt(s, sub, r) && forall i :: 0 <= i < r ==> !OccursAt(s, sub, i)
  {
    if |s| < |sub| then -1
    else if s[..|sub|] == sub then assert OccursAt(s, sub, 0); 0
    else
      var k := Index(s[1..], sub);
      assert !OccursAt(s, sub, 0);
      assert forall i :: 1 <= i <= |s| - |sub| ==> (OccursAt(s, sub, i) <==> OccursAt(s[1..], sub, i - 1)) by {
        forall i | 1 <= i <= |s| - |sub| ensures OccursAt(s, sub, i) <==> OccursAt(s[1..], sub, i - 1) {
          SliceOfTail(s, i, |sub|);
        }
      }
      assert k >= 0 ==> OccursAt(s, sub, k + 1);
      if k == -1 then -1 else k + 1
  }

  /** A window of s starting at i >= 1 is the window of s[1..] starting at i - 1. */
  lemma SliceOfTail(s: string, i: int, n: int)
    requires 1 <= i && 0 <= n && i + n <= |s|
    ensures s[i..i + n] == s[1..][i - 1..i - 1 + n]
  {
    var a, b := s[i..i + n], s[1..][i - 1..i - 1 + n];
    forall k | 0 <= k < n ensures a[k] == b[k] {
      assert a[k] == s[i + k];
    }
  }

  /** The first occurrence of sub in prefix + sub + rest is right after prefix when prefix lacks sub's first character. */
  lemma IndexAfterPrefix(prefix: string, sub: string, rest: string)
    requires sub != [] && sub[0] !in prefix
    ensures Index(prefix + sub + rest, sub) == |prefix|
  {
    var s := prefix + sub + rest;
    assert s[|prefix|..|prefix| + |sub|] == sub;
    assert OccursAt(s, sub, |prefix|);
    forall i | 0 <= i < |prefix| ensures !OccursAt(s, sub, i) {
      assert s[i..i + |sub|][0] == prefix[i];
    }
    var r := Index(s, sub);
    assert r != -1;
    assert !(r < |prefix|);
    assert !(r > |prefix|);
  }

  /** strings.Contains. */
  predicate Contains(s: string, sub: string) {
    Index(s, sub) != -1
  }

  /** strings.IndexByte for a single character: the first position of c in s, or -1. */
  function IndexChar(s: string, c: char): (r: int)
    ensures -1 <= r < |s|
    ensures r == -1 <==> c !in s
    ensures r >= 0 ==> s[r] == c && c !in s[..r]
  {
    if |s| == 0 then -1
    else if s[0] == c then 0
    else
      var k := IndexChar(s[1..], c);
      assert k >= 0 ==> s[..k + 1] == [s[0]] + s[1..][..k];
      if k == -1 then -1 else k + 1
  }

  /** strings.LastIndexByte for a single character: the last position of c in s, or -1. */
  function LastIndexChar(s: string, c: char): (r: int)
    ensures -1 <= r < |s|
    ensures r == -1 <==> c !in s
    ensures r >= 0 ==> s[r] == c && c !in s[r + 1..]
  {
    if |s| == 0 then -1
    else if s[|s| - 1] == c then |s| - 1
    else
      var k := LastIndexChar(s[..|s| - 1], c);
      assert k >= 0 ==> s[k + 1..] == s[..|s| - 1][k + 1..] + [s[|s| - 1]];
      k
  }

  /** The first occurrence of c is at i when s[i] is c and nothing before it is. */
  lemma IndexCharAt(s: string, c: char, i: int)
    requires 0 <= i < |s| && s[i] == c && c !in s[..i]
    ensures IndexChar(s, c) == i
  {
    var r := IndexChar(s, c);
    forall j | 0 <= j < i ensures s[j] != c {
      assert s[..i][j] == s[j];
    }
    forall j | 0 <= j < r ensures s[j] != c {
      assert s[..r][j] == s[j];
    }
  }

  /** The last occurrence of c is at i when s[i] is c and nothing after it is. */
  lemma LastIndexCharAt(s: string, c: char, i: int)
    requires 0 <= i < |s| && s[i] == c && c !in s[i + 1..]
    ensures LastIndexChar(s, c) == i
  {
    var r := LastIndexChar(s, c);
    forall j | i < j < |s| ensures s[j] != c {
      assert s[i + 1..][j - i - 1] == s[j];
    }
    forall j | r < j < |s| ensures s[j] != c {
      assert s[r + 1..][j - r - 1] == s[j];
    }
  }

  /** Joins parts with sep between consecutive parts (strings.Join with a one-character separator). */
  function Join(parts: seq<string>, sep: char): string {
    if |parts| == 0 then ""
    else if |parts| == 1 then parts[0]
    else parts[0] + [sep] + Join(parts[1..], sep)
  }

  /** A character absent from the parts and distinct from the separator is absent from the join. */
  lemma {:induction false} JoinFree(parts: seq<string>, sep: char, c: char)
    requires c != sep
    requires forall i :: 0 <= i < |parts| ==> c !in parts[i]
    ensures c !in Join(parts, sep)
  {
    if |parts| > 1 {
      JoinFree(parts[1..], sep, c);
    }
  }

  /** Joining four parts. */
  lemma Join4(a: string, b: string, c: string, d: string, sep: char)
    ensures Join([a, b, c, d], sep) == a + [sep] + b + [sep] + c + [sep] + d
  {
    assert [a, b, c, d][1..] == [b, c, d];
    assert [b, c, d][1..] == [c, d];
    assert [c, d][1..] == [d];
    assert Join([c, d], sep) == c + [sep] + d;
    assert Join([b, c, d], sep) == b + [sep] + c + [sep] + d;
  }

  /** strings.Split with a one-character separator: the pieces between the occurrences of sep. */
  function Split(s: string, sep: char): (parts: seq<string>)
    ensures |parts| >= 1
    ensures forall i :: 0 <= i < |parts| ==> sep !in parts[i]
    ensures Join(parts, sep) == s
    decreases |s|
  {
    var i := IndexChar(s, sep);
    if i < 0 then [s]
    else
      var head, rest := s[..i], Split(s[i + 1..], sep);
      var parts := [head] + rest;
      assert s == head + [sep] + s[i + 1..];
      assert parts[0] == head && parts[1..] == rest && |parts| >= 2;
      assert Join(parts, sep) == head + [sep] + Join(rest, sep);
      parts
  }

  /** Splitting a joined sequence of separator-free parts gives the parts back. */
  lemma {:induction false} SplitJoin(parts: seq<string>, sep: char)
    requires |parts| >= 1
    requires forall i :: 0 <= i < |parts| ==> sep !in parts[i]
    ensures Split(Join(parts, sep), sep) == parts
  {
    if |parts| > 1 {
      var p0, tail := parts[0], Join(parts[1..], sep);
      assert Join(parts, sep) == p0 + [sep] + tail;
      SplitAtFirst(p0, tail, sep);
      SplitJoin(parts[1..], sep);
      assert parts == [p0] + parts[1..];
    }
  }

  /** A string with no separator splits into itself alone. */
  lemma SplitNoSep(s: string, sep: char)
    requires sep !in s
    ensures Split(s, sep) == [s]
  {
  }

  /** Splitting a + [sep] + b at the first separator, when a has none. */
  lemma SplitAtFirst(a: string, b: string, sep: char)
    requires sep !in a
    ensures Split(a + [sep] + b, sep) == [a] + Split(b, sep)
  {
    var s := a + [sep] + b;
    assert s[..|a|] == a && s[|a|] == sep && s[|a| + 1..] == b;
    IndexCharAt(s, sep, |a|);
  }

  /**
   * The first part of a split runs up to the first separator, or to the end
   * when there is none; the remaining parts are the split of what follows.
   */
  lemma SplitFirstField(s: string, sep: char)
    ensures var a := Split(s, sep)[0];
      && |a| <= |s| && s[..|a|] == a
      && (|a| < |s| ==> s[|a|] == sep)
      && (sep in s <==> |Split(s, sep)| >= 2)
      && (sep in s ==> Split(s, sep)[1..] == Split(s[|a| + 1..], sep))
  {
    if sep in s {
      var i := IndexChar(s, sep);
      var a, t := s[..i], s[i + 1..];
      assert s == a + [sep] + t;
      SplitAtFirst(a, t, sep);
    } else {
      SplitNoSep(s, sep);
    }
  }

  /** A string without the separator splits into exactly one part. */
  lemma SplitOne(s: string, sep: char)
    ensures |Split(s, sep)| >= 2 <==> sep in s
  {
    SplitFirstField(s, sep);
  }

  /** ASCII lower-casing of one character. */
  function LowerChar(c: char): (r: char)
    ensures 'A' <= c <= 'Z' ==> r as int == c as int + 32
    ensures !('A' <= c <= 'Z') ==> r == c
  {
    if 'A' <= c <= 'Z' then (c as int + 32) as char else c
  }

  /** strings.ToLower, restricted to the ASCII letters. */
  function ToLower(s: string): (r: string)
    ensures |r| == |s|
    ensures forall i :: 0 <= i < |s| ==> r[i] == LowerChar(s[i])
  {
    if |s| == 0 then "" else [LowerChar(s[0])] + ToLower(s[1..])
  }

  /** A string without upper-case ASCII letters is its own lower-case form. */
  lemma ToLowerFixed(s: string)
    requires forall i :: 0 <= i < |s| ==> !('A' <= s[i] <= 'Z')
    ensures ToLower(s) == s
  {
  }
}
