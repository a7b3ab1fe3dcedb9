/** String and sequence helpers that mirror the Python built-ins the pipeline uses. */
module Text {

  /** ASCII upper-casing of one character (Python `str.upper` on ASCII input). */
  function UpperChar(c: char): char {
    if 'a' <= c <= 'z' then (c as int - 32) as char else c
  }

  predicate IsLowerAscii(c: char) {
    'a' <= c <= 'z'
  }

  function Upper(s: string): (r: string)
    ensures |r| == |s|
    ensures forall i :: 0 <= i < |s| ==> r[i] == UpperChar(s[i])
    ensures forall c :: c in r ==> !IsLowerAscii(c)
  {
    seq(|s|, i requires 0 <= i < |s| => UpperChar(s[i]))
  }

  predicate IsPrefix(p: string, s: string) {
    |p| <= |s| && s[..|p|] == p
  }

  /** Python's `p in s` on strings: `p` occurs in `s` at some offset. */
  predicate IsSubstring(p: string, s: string) {
    exists i :: 0 <= i <= |s| && IsPrefix(p, s[i..])
  }

  /** Python's `s.replace(pat, rep)`: every non-overlapping occurrence of `pat`,
      scanning left to right, is replaced by `rep`. */
  function ReplaceAll(s: string, pat: string, rep: string): string
    requires |pat| > 0
    decreases |s|
  {
    if |s| < |pat| then s
    else if s[..|pat|] == pat then rep + ReplaceAll(s[|pat|..], pat, rep)
    else [s[0]] + ReplaceAll(s[1..], pat, rep)
  }

  /** `s.replace(" ", "-")`, character by character (see HyphenateIsReplace). */
  function HyphenateSpaces(s: string): (r: string)
    ensures |r| == |s|
  {
    seq(|s|, i requires 0 <= i < |s| => if s[i] == ' ' then '-' else s[i])
  }

  /** `sep.join(parts)` for a one-character separator. */
  function Join(parts: seq<string>, sep: char): string {
    if |parts| == 0 then ""
    else if |parts| == 1 then parts[0]
    else parts[0] + [sep] + Join(parts[1..], sep)
  }

  /** `s.split(sep)` for a one-character separator. */
  function Split(s: string, sep: char): (r: seq<string>)
    ensures |r| > 0
    decreases |s|
  {
    if |s| == 0 then [""]
    else if s[0] == sep then [""] + Split(s[1..], sep)
    else
      var rest := Split(s[1..], sep);
      [[s[0]] + rest[0]] + rest[1..]
  }

  /** Concatenation of a sequence of sequences, in order. */
  function Flatten<T>(xss: seq<seq<T>>): seq<T> {
    if |xss| == 0 then [] else Flatten(xss[..|xss| - 1]) + xss[|xss| - 1]
  }

  /** `sub` keeps some elements of `s` in their original relative order. */
  predicate IsSubsequence<T(==)>(sub: seq<T>, s: seq<T>)
    decreases |s|
  {
    if |sub| == 0 then true
    else if |s| == 0 then false
    else if sub[0] == s[0] then IsSubsequence(sub[1..], s[1..])
    else IsSubsequence(sub, s[1..])
  }

  // ----- lemmas -----

  /** A string occurs in itself. */
  lemma SubstringReflexive(s: string)
    ensures IsSubstring(s, s)
  {
    assert s[0..] == s;
  }

  /** Python's `p in s` unrolled: `p` is a prefix of `s` or occurs in `s[1..]`. */
  lemma SubstringStep(p: string, s: string)
    requires |s| > 0
    ensures IsSubstring(p, s) <==> IsPrefix(p, s) || IsSubstring(p, s[1..])
  {
    assert s[0..] == s;
    if IsSubstring(p, s[1..]) {
      var i :| 0 <= i <= |s[1..]| && IsPrefix(p, s[1..][i..]);
      assert s[1..][i..] == s[i + 1..];
    }
    if IsSubstring(p, s) && !IsPrefix(p, s) {
      var i :| 0 <= i <= |s| && IsPrefix(p, s[i..]);
      assert i > 0;
      assert s[1..][i - 1..] == s[i..];
    }
  }

  /** A character of `p` that never occurs in `s` rules out `p in s`. */
  lemma MissingCharNotSubstring(p: string, s: string, c: char)
    requires c in p && c !in s
    ensures !IsSubstring(p, s)
  {
    var k :| 0 <= k < |p| && p[k] == c;
    forall i | 0 <= i <= |s| ensures !IsPrefix(p, s[i..]) {
      if |p| <= |s[i..]| {
        assert s[i..][..|p|][k] == s[i + k];
      }
    }
  }

  /** Replacing the one-character pattern " " by "-" acts character by character. */
  lemma {:induction false} ReplaceSpaceByHyphen(s: string)
    ensures |ReplaceAll(s, " ", "-")| == |s|
    ensures forall i :: 0 <= i < |s| ==>
      ReplaceAll(s, " ", "-")[i] == if s[i] == ' ' then '-' else s[i]
    decreases |s|
  {
    if |s| > 0 {
      ReplaceSpaceByHyphen(s[1..]);
      assert s[..1] == [s[0]];
    }
  }

  /** Replacing every space by a hyphen is Python's `s.replace(" ", "-")`. */
  lemma HyphenateIsReplace(s: string)
    ensures HyphenateSpaces(s) == ReplaceAll(s, " ", "-")
  {
    ReplaceSpaceByHyphen(s);
  }

  /** Deleting occurrences of a pattern only ever removes characters. */
  lemma {:induction false} RemovalKeepsCharacters(s: string, pat: string)
    requires |pat| > 0
    ensures |ReplaceAll(s, pat, "")| <= |s|
    ensures forall c :: c in ReplaceAll(s, pat, "") ==> c in s
    decreases |s|
  {
    if |s| >= |pat| {
      if s[..|pat|] == pat {
        RemovalKeepsCharacters(s[|pat|..], pat);
        forall c | c in ReplaceAll(s[|pat|..], pat, "") ensures c in s {
          var k :| 0 <= k < |s[|pat|..]| && s[|pat|..][k] == c;
          assert s[|pat| + k] == c;
        }
      } else {
        RemovalKeepsCharacters(s[1..], pat);
        forall c | c in ReplaceAll(s[1..], pat, "") ensures c in s {
          var k :| 0 <= k < |s[1..]| && s[1..][k] == c;
          assert s[1 + k] == c;
        }
      }
    }
  }

  /** Replacing a pattern that does not occur leaves the string unchanged. */
  lemma {:induction false} ReplaceAbsentPattern(s: string, pat: string, rep: string)
    requires |pat| > 0 && !IsSubstring(pat, s)
    ensures ReplaceAll(s, pat, rep) == s
    decreases |s|
  {
    if |s| >= |pat| {
      SubstringStep(pat, s);
      ReplaceAbsentPattern(s[1..], pat, rep);
      assert [s[0]] + s[1..] == s;
    }
  }

  /** Splitting a comma-join gives back the parts, when no part holds the separator. */
  lemma {:induction false} SplitJoin(parts: seq<string>, sep: char)
    requires |parts| > 0
    requires forall k :: 0 <= k < |parts| ==> sep !in parts[k]
    ensures Split(Join(parts, sep), sep) == parts
    decreases |parts|
  {
    if |parts| == 1 {
      SplitNoSeparator(parts[0], sep);
    } else {
      SplitJoin(parts[1..], sep);
      SplitAppend(parts[0], Join(parts[1..], sep), sep);
    }
  }

  lemma {:induction false} SplitNoSeparator(s: string, sep: char)
    requires sep !in s
    ensures Split(s, sep) == [s]
    decreases |s|
  {
    if |s| > 0 {
      SplitNoSeparator(s[1..], sep);
      assert [s[0]] + s[1..] == s;
    }
  }

  lemma {:induction false} SplitAppend(w: string, rest: string, sep: char)
    requires sep !in w
    ensures Split(w + [sep] + rest, sep) == [w] + Split(rest, sep)
    decreases |w|
  {
    if |w| == 0 {
      assert w + [sep] + rest == [sep] + rest;
      assert ([sep] + rest)[1..] == rest;
    } else {
      var t := w + [sep] + rest;
      assert t[0] == w[0];
      assert t[1..] == w[1..] + [sep] + rest;
      SplitAppend(w[1..], rest, sep);
      assert [w[0]] + w[1..] == w;
    }
  }

  /** Flattening distributes over concatenation of the outer sequence. */
  lemma {:induction false} FlattenAppend<T>(xss: seq<seq<T>>, yss: seq<seq<T>>)
    ensures Flatten(xss + yss) == Flatten(xss) + Flatten(yss)
    decreases |yss|
  {
    if |yss| == 0 {
      assert xss + yss == xss;
    } else {
      var last := yss[|yss| - 1];
      assert (xss + yss)[..|xss + yss| - 1] == xss + yss[..|yss| - 1];
      FlattenAppend(xss, yss[..|yss| - 1]);
    }
  }
}
