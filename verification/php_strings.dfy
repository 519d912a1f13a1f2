/** The PHP string primitives the gateway relies on: byte-wise ordering of
    array keys (what `ksort` uses for non-numeric keys), `join`,
    `str_replace`, `trim`, the part of a string before its first colon, and
    `array_unique`. */
module PhpStrings {

  /** Strict byte-wise lexicographic order on strings (PHP `strcmp(a, b) < 0`). */
  predicate Less(a: string, b: string)
    decreases |a|
  {
    if |a| == 0 then |b| > 0
    else if |b| == 0 then false
    else a[0] < b[0] || (a[0] == b[0] && Less(a[1..], b[1..]))
  }

  predicate LessEq(a: string, b: string) {
    a == b || Less(a, b)
  }

  lemma {:induction false} LessIrreflexive(a: string)
    ensures !Less(a, a)
    decreases |a|
  {
    if |a| > 0 {
      LessIrreflexive(a[1..]);
    }
  }

  lemma {:induction false} LessAsymmetric(a: string, b: string)
    ensures Less(a, b) ==> !Less(b, a)
    decreases |a|
  {
    if |a| > 0 && |b| > 0 && a[0] == b[0] {
      LessAsymmetric(a[1..], b[1..]);
    }
  }

  lemma {:induction false} LessTransitive(a: string, b: string, c: string)
    requires Less(a, b) && Less(b, c)
    ensures Less(a, c)
    decreases |a|
  {
    if |a| > 0 && a[0] == b[0] && b[0] == c[0] {
      LessTransitive(a[1..], b[1..], c[1..]);
    }
  }

  /** Any two distinct strings are ordered one way or the other. */
  lemma {:induction false} LessTotal(a: string, b: string)
    ensures a == b || Less(a, b) || Less(b, a)
    decreases |a|
  {
    if |a| > 0 && |b| > 0 && a[0] == b[0] {
      LessTotal(a[1..], b[1..]);
      if a[1..] == b[1..] {
        assert a == [a[0]] + a[1..] && b == [b[0]] + b[1..];
      }
    }
  }

  /** `!Less(a, b)` means b comes no later than a. */
  lemma NotLessIsLessEq(a: string, b: string)
    ensures !Less(a, b) ==> LessEq(b, a)
  {
    LessTotal(a, b);
  }

  lemma LessEqTransitive(a: string, b: string, c: string)
    requires LessEq(a, b) && LessEq(b, c)
    ensures LessEq(a, c)
  {
    if a != b && b != c {
      LessTransitive(a, b, c);
    }
  }

  /** PHP `join(sep, xs)`: the pieces with `sep` between consecutive ones. */
  function Join(sep: string, xs: seq<string>): string
    decreases |xs|
  {
    if |xs| == 0 then ""
    else if |xs| == 1 then xs[0]
    else xs[0] + sep + Join(sep, xs[1..])
  }

  /** What precedes a piece at position |before| in a join. */
  function JoinLead(sep: string, before: seq<string>): string {
    if before == [] then "" else Join(sep, before) + sep
  }

  /** What follows a piece that has the pieces `after` behind it in a join. */
  function JoinTrail(sep: string, after: seq<string>): string {
    if after == [] then "" else sep + Join(sep, after)
  }

  /** A join splits around any one of its pieces. */
  lemma {:induction false} JoinSplit(sep: string, before: seq<string>, x: string, after: seq<string>)
    ensures Join(sep, before + [x] + after) == JoinLead(sep, before) + x + JoinTrail(sep, after)
    decreases |before|
  {
    var all := before + [x] + after;
    if before == [] {
      assert all == [x] + after;
      if after != [] {
        assert all[1..] == after;
      }
    } else {
      JoinSplit(sep, before[1..], x, after);
      assert all[1..] == before[1..] + [x] + after;
      if before[1..] == [] {
        assert before == [before[0]];
      }
    }
  }

  /** A join framed by a first and a last piece. */
  lemma JoinFramed(sep: string, first: string, middle: seq<string>, last: string)
    ensures Join(sep, [first] + middle + [last]) ==
      first + sep + (if middle == [] then "" else Join(sep, middle) + sep) + last
  {
    var a := [first] + middle;
    assert [first] + middle + [last] == a + [last] + [];
    JoinSplit(sep, a, last, []);
    if middle == [] {
      assert a == [first];
    } else {
      assert a[1..] == middle;
      assert Join(sep, a) == first + sep + Join(sep, middle);
    }
  }

  /** The only string that can stand between a fixed prefix and suffix. */
  lemma JoinInjectiveFirst(sep: string, x: string, y: string, rest: seq<string>)
    requires x != y
    ensures Join(sep, [x] + rest) != Join(sep, [y] + rest)
  {
    assert [x] + rest == [] + [x] + rest;
    assert [y] + rest == [] + [y] + rest;
    if Join(sep, [x] + rest) == Join(sep, [y] + rest) {
      JoinInjectiveAt(sep, [], x, y, rest);
    }
  }

  lemma Cancel(pre: string, x: string, y: string, post: string)
    requires pre + x + post == pre + y + post
    ensures x == y
  {
    assert |x| == |y|;
    var s1 := pre + x + post;
    var s2 := pre + y + post;
    forall i | 0 <= i < |x|
      ensures x[i] == y[i]
    {
      assert s1[|pre| + i] == x[i];
      assert s2[|pre| + i] == y[i];
    }
  }

  /** A join is injective in any one piece when the others are fixed. */
  lemma JoinInjectiveAt(sep: string, before: seq<string>, x: string, y: string, after: seq<string>)
    requires Join(sep, before + [x] + after) == Join(sep, before + [y] + after)
    ensures x == y
  {
    JoinSplit(sep, before, x, after);
    JoinSplit(sep, before, y, after);
    Cancel(JoinLead(sep, before), x, y, JoinTrail(sep, after));
  }

  /** In a framed join, replacing one middle piece by a different one
      changes the result. */
  lemma FramedJoinInjectiveAt(sep: string, first: string, c: seq<string>, i: nat, x: string, y: string, last: string)
    requires i < |c| && x != y
    ensures Join(sep, [first] + (c[..i] + [x] + c[i + 1..]) + [last]) !=
            Join(sep, [first] + (c[..i] + [y] + c[i + 1..]) + [last])
  {
    var before := [first] + c[..i];
    var after := c[i + 1..] + [last];
    assert [first] + (c[..i] + [x] + c[i + 1..]) + [last] == before + [x] + after;
    assert [first] + (c[..i] + [y] + c[i + 1..]) + [last] == before + [y] + after;
    if Join(sep, before + [x] + after) == Join(sep, before + [y] + after) {
      JoinInjectiveAt(sep, before, x, y, after);
    }
  }

  /** PHP `str_replace(pat, rep, s)`: a single left-to-right pass that
      replaces non-overlapping occurrences of `pat`. */
  function Replace(s: string, pat: string, rep: string): (r: string)
    requires |pat| > 0
    ensures (forall i :: 0 <= i < |s| ==> s[i] != pat[0]) ==> r == s
    decreases |s|
  {
    if |s| < |pat| then s
    else if s[..|pat|] == pat then rep + Replace(s[|pat|..], pat, rep)
    else [s[0]] + Replace(s[1..], pat, rep)
  }

  /** The ampersand escaping that HTML-escaped URLs carry. */
  function EscapeAmpersands(s: string): string {
    Replace(s, "&", "&amp;")
  }

  /** Undoing the escaping recovers the URL exactly. */
  lemma {:induction false} UnescapeAfterEscape(s: string)
    ensures Replace(EscapeAmpersands(s), "&amp;", "&") == s
    decreases |s|
  {
    if s != [] {
      var e := EscapeAmpersands(s[1..]);
      UnescapeAfterEscape(s[1..]);
      if s[0] == '&' {
        assert EscapeAmpersands(s) == "&amp;" + e;
        var t := "&amp;" + e;
        assert t[..5] == "&amp;" && t[5..] == e;
      } else {
        assert s[..1] != "&";
        assert EscapeAmpersands(s) == [s[0]] + e;
        var t := [s[0]] + e;
        assert t[1..] == e;
        if |t| >= 5 {
          assert t[..5][0] == s[0];
        } else {
          assert Replace(e, "&amp;", "&") == e;
        }
        assert s == [s[0]] + s[1..];
      }
    }
  }

  /** The characters PHP's `trim` strips by default. */
  predicate IsTrimSpace(c: char) {
    c == ' ' || c == '\t' || c == '\n' || c == '\r' || c == '\0' || c == '\U{0B}'
  }

  function TrimStart(s: string): (r: string)
    ensures |r| <= |s| && r == s[|s| - |r|..]
    ensures |r| > 0 ==> !IsTrimSpace(r[0])
    ensures forall i :: 0 <= i < |s| - |r| ==> IsTrimSpace(s[i])
    decreases |s|
  {
    if |s| > 0 && IsTrimSpace(s[0]) then TrimStart(s[1..]) else s
  }

  function TrimEnd(s: string): (r: string)
    ensures |r| <= |s| && r == s[..|r|]
    ensures |r| > 0 ==> !IsTrimSpace(r[|r| - 1])
    ensures forall i :: |r| <= i < |s| ==> IsTrimSpace(s[i])
    decreases |s|
  {
    if |s| > 0 && IsTrimSpace(s[|s| - 1]) then TrimEnd(s[..|s| - 1]) else s
  }

  /** PHP `trim(s)`. */
  function Trim(s: string): string {
    TrimEnd(TrimStart(s))
  }

  /** `current(explode(':', s))`: everything before the first colon. */
  function UpToColon(s: string): (r: string)
    ensures |r| <= |s| && r == s[..|r|]
    ensures ':' !in r
    ensures |r| < |s| ==> s[|r|] == ':'
    decreases |s|
  {
    if |s| == 0 || s[0] == ':' then ""
    else
      var rest := UpToColon(s[1..]);
      assert s[..|rest| + 1] == [s[0]] + s[1..][..|rest|];
      [s[0]] + rest
  }

  /** `wc_get_string_before_colon(s)`: the trimmed text before the first colon. */
  function BeforeColon(s: string): string {
    Trim(UpToColon(s))
  }

  lemma {:induction false} UpToColonOfRateId(m: string, instance: string)
    requires ':' !in m
    ensures UpToColon(m + ":" + instance) == m
    decreases |m|
  {
    var s := m + ":" + instance;
    if m == [] {
      assert s[0] == ':';
    } else {
      assert s[0] == m[0];
      assert s[1..] == m[1..] + ":" + instance;
      UpToColonOfRateId(m[1..], instance);
    }
  }

  /** The method id of a canonical rate id `method:instance` is the
      method, when it has no colon and no surrounding blanks. */
  lemma BeforeColonOfRateId(m: string, instance: string)
    requires ':' !in m
    requires |m| > 0 ==> !IsTrimSpace(m[0]) && !IsTrimSpace(m[|m| - 1])
    ensures BeforeColon(m + ":" + instance) == m
  {
    UpToColonOfRateId(m, instance);
    assert TrimStart(m) == m;
  }

  predicate NoDuplicates(s: seq<string>) {
    forall i, j :: 0 <= i < j < |s| ==> s[i] != s[j]
  }

  /** PHP `array_unique`: the first occurrence of every value, in order. */
  function Unique(s: seq<string>): (r: seq<string>)
    ensures forall x :: x in r <==> x in s
    ensures NoDuplicates(r)
    decreases |s|
  {
    if s == [] then []
    else
      var u := Unique(s[..|s| - 1]);
      assert s == s[..|s| - 1] + [s[|s| - 1]];
      if s[|s| - 1] in u then u else u + [s[|s| - 1]]
  }

  /** `array_unique` keeps first occurrences in their order: a value
      appended at the end comes out last, unless it was already there. */
  lemma UniqueAppend(s: seq<string>, x: string)
    ensures Unique(s + [x]) == Unique(s) + (if x in s then [] else [x])
  {
    assert (s + [x])[..|s + [x]| - 1] == s;
  }
}
