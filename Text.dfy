/** String operations of the JavaScript runtime that the site's logic relies on:
    `String.prototype.trim`, `String.prototype.split` with a one-character
    separator and `Array.prototype.join`. Strings are written as `seq<char>`,
    a sequence of Unicode scalar values (code points); the runtime's UTF-16
    code units are not modelled. */
module Text {

  /** The characters `trim` removes: WhiteSpace and LineTerminator of the
      ECMAScript grammar (tab, vertical tab, form feed, space, no-break space,
      the byte-order mark, the space separators of Unicode category Zs,
      line feed, carriage return, line and paragraph separators). */
  const WhiteSpace: set<char> := {
    '\t', '\U{000B}', '\U{000C}', ' ', '\U{00A0}', '\U{FEFF}',
    '\U{1680}', '\U{2000}', '\U{2001}', '\U{2002}', '\U{2003}', '\U{2004}', '\U{2005}',
    '\U{2006}', '\U{2007}', '\U{2008}', '\U{2009}', '\U{200A}', '\U{202F}', '\U{205F}', '\U{3000}',
    '\n', '\r', '\U{2028}', '\U{2029}'
  }

  predicate IsWhite(c: char) {
    c in WhiteSpace
  }

  predicate AllWhite(s: string) {
    forall i :: 0 <= i < |s| ==> IsWhite(s[i])
  }

  /** The index of the first character at or after `i` that is not white
      space (`|s|` when there is none). */
  function SkipWhite(s: string, i: nat): (j: nat)
    requires i <= |s|
    ensures i <= j <= |s|
    decreases |s| - i
  {
    if i < |s| && IsWhite(s[i]) then SkipWhite(s, i + 1) else i
  }

  lemma {:induction false} SkipWhiteSpec(s: string, i: nat)
    requires i <= |s|
    ensures forall k :: i <= k < SkipWhite(s, i) ==> IsWhite(s[k])
    ensures SkipWhite(s, i) < |s| ==> !IsWhite(s[SkipWhite(s, i)])
    decreases |s| - i
  {
    if i < |s| && IsWhite(s[i]) {
      SkipWhiteSpec(s, i + 1);
    }
  }

  /** The index just past the last character before `j` and at or after `lo`
      that is not white space (`lo` when there is none). */
  function SkipWhiteBack(s: string, lo: nat, j: nat): (e: nat)
    requires lo <= j <= |s|
    ensures lo <= e <= j
  {
    if j > lo && IsWhite(s[j - 1]) then SkipWhiteBack(s, lo, j - 1) else j
  }

  lemma {:induction false} SkipWhiteBackSpec(s: string, lo: nat, j: nat)
    requires lo <= j <= |s|
    ensures forall k :: SkipWhiteBack(s, lo, j) <= k < j ==> IsWhite(s[k])
    ensures SkipWhiteBack(s, lo, j) > lo ==> !IsWhite(s[SkipWhiteBack(s, lo, j) - 1])
  {
    if j > lo && IsWhite(s[j - 1]) {
      SkipWhiteBackSpec(s, lo, j - 1);
    }
  }

  /** `s.trim()`. */
  function Trim(s: string): string {
    var i := SkipWhite(s, 0);
    s[i..SkipWhiteBack(s, i, |s|)]
  }

  /** What `trim` promises: the result is the slice of `s` that starts at
      its first non-white character, everything cut off on either side is
      white space, the result neither starts nor ends with white space, and
      it is empty exactly when `s` is all white space. */
  lemma {:induction false} TrimSpec(s: string)
    ensures var r := Trim(s); var i := SkipWhite(s, 0);
      && i + |r| <= |s| && r == s[i..i + |r|]
      && (forall k :: 0 <= k < i ==> IsWhite(s[k]))
      && (forall k :: i + |r| <= k < |s| ==> IsWhite(s[k]))
      && (r != [] ==> !IsWhite(r[0]) && !IsWhite(r[|r| - 1]))
      && (r == [] <==> AllWhite(s))
  {
    var i := SkipWhite(s, 0);
    var e := SkipWhiteBack(s, i, |s|);
    SkipWhiteSpec(s, 0);
    SkipWhiteBackSpec(s, i, |s|);
    assert e > i ==> !IsWhite(s[i]);
  }

  /** Trimming is idempotent: a trimmed string has nothing left to trim. */
  lemma {:induction false} TrimIdempotent(s: string)
    ensures Trim(Trim(s)) == Trim(s)
  {
    var t := Trim(s);
    TrimSpec(s);
    if t != [] {
      assert SkipWhite(t, 0) == 0;
      assert SkipWhiteBack(t, 0, |t|) == |t|;
    }
  }

  /** Number of occurrences of `c` in `s`. */
  function Count(s: string, c: char): nat {
    if s == [] then 0 else (if s[0] == c then 1 else 0) + Count(s[1..], c)
  }

  /** `s.split(c)`: the pieces of `s` between occurrences of `c`; never empty
      (`"".split(c)` is `[""]`). */
  function Split(s: string, c: char): (parts: seq<string>)
    ensures |parts| >= 1
  {
    if s == [] then [[]]
    else
      var rest := Split(s[1..], c);
      if s[0] == c then [[]] + rest else [[s[0]] + rest[0]] + rest[1..]
  }

  /** `xs.join(sep)`. */
  function Join(xs: seq<string>, sep: string): string {
    if |xs| == 0 then []
    else if |xs| == 1 then xs[0]
    else xs[0] + sep + Join(xs[1..], sep)
  }

  /** A split yields one piece more than there are separators. */
  lemma {:induction false} SplitCount(s: string, c: char)
    ensures |Split(s, c)| == Count(s, c) + 1
  {
    if s != [] {
      SplitCount(s[1..], c);
    }
  }

  /** No piece of a split contains the separator. */
  lemma {:induction false} SplitPiecesFree(s: string, c: char)
    ensures forall k :: 0 <= k < |Split(s, c)| ==> c !in Split(s, c)[k]
  {
    if s != [] {
      SplitPiecesFree(s[1..], c);
    }
  }

  /** Joining the pieces of a split with the separator gives back the string. */
  lemma {:induction false} JoinSplit(s: string, c: char)
    ensures Join(Split(s, c), [c]) == s
  {
    if s != [] {
      var rest := Split(s[1..], c);
      JoinSplit(s[1..], c);
      if s[0] == c {
        assert Split(s, c)[1..] == rest;
      } else {
        var parts := Split(s, c);
        if |rest| > 1 {
          assert parts[1..] == rest[1..];
          assert Join(parts, [c]) == [s[0]] + rest[0] + [c] + Join(rest[1..], [c]);
        }
      }
    }
  }

  /** Splitting a join of separator-free pieces gives back the pieces. */
  lemma {:induction false} SplitJoin(xs: seq<string>, c: char)
    requires |xs| >= 1
    requires forall k :: 0 <= k < |xs| ==> c !in xs[k]
    ensures Split(Join(xs, [c]), c) == xs
  {
    if |xs| == 1 {
      SplitPlain(xs[0], c);
    } else {
      SplitJoin(xs[1..], c);
      SplitAfterPlain(xs[0], Join(xs[1..], [c]), c);
      assert [xs[0]] + xs[1..] == xs;
    }
  }

  /** A separator-free string splits into itself. */
  lemma {:induction false} SplitPlain(s: string, c: char)
    requires c !in s
    ensures Split(s, c) == [s]
  {
    if s != [] {
      SplitPlain(s[1..], c);
      assert [s[0]] + s[1..] == s;
    }
  }

  /** Splitting `p + [c] + t`, where `p` holds no separator, yields `p`
      followed by the split of `t`. */
  lemma {:induction false} SplitAfterPlain(p: string, t: string, c: char)
    requires c !in p
    ensures Split(p + [c] + t, c) == [p] + Split(t, c)
  {
    if p == [] {
      assert ([c] + t)[1..] == t;
    } else {
      SplitAfterPlain(p[1..], t, c);
      assert (p + [c] + t)[1..] == p[1..] + [c] + t;
      assert [p[0]] + p[1..] == p;
    }
  }

  /** Putting a character in front of the first piece puts it in front of the
      whole join. */
  lemma {:induction false} JoinPrependHead(c: char, xs: seq<string>, sep: string)
    requires |xs| >= 1
    ensures Join([[c] + xs[0]] + xs[1..], sep) == [c] + Join(xs, sep)
  {
    var ys := [[c] + xs[0]] + xs[1..];
    if |xs| > 1 {
      assert ys[1..] == xs[1..];
    }
  }

  /** Joining the empty string in front of `xs` puts one separator in front. */
  lemma {:induction false} JoinPrependEmpty(xs: seq<string>, sep: string)
    requires |xs| >= 1
    ensures Join([[]] + xs, sep) == sep + Join(xs, sep)
  {
    assert ([[]] + xs)[1..] == xs;
  }

  /** A join of pieces that avoid `c`, with a separator that avoids `c`,
      avoids `c`. */
  lemma {:induction false} JoinFree(xs: seq<string>, sep: string, c: char)
    requires forall k :: 0 <= k < |xs| ==> c !in xs[k]
    requires c !in sep
    ensures c !in Join(xs, sep)
  {
    if |xs| > 1 {
      JoinFree(xs[1..], sep, c);
    }
  }
}
