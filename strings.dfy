/** The Python `str` operations the models rely on, over `seq<char>`:
    ASCII character classes, `strip`, `lower`, `split`, `replace` and slicing. */
module Strings {

  predicate IsAsciiDigit(c: char) { '0' <= c <= '9' }
  predicate IsAsciiLower(c: char) { 'a' <= c <= 'z' }
  predicate IsAsciiUpper(c: char) { 'A' <= c <= 'Z' }
  predicate IsAsciiLetter(c: char) { IsAsciiLower(c) || IsAsciiUpper(c) }
  predicate IsAsciiAlnum(c: char) { IsAsciiLetter(c) || IsAsciiDigit(c) }
  /** `\w` restricted to ASCII: letters, digits and underscore. */
  predicate IsWordChar(c: char) { IsAsciiAlnum(c) || c == '_' }

  /** Every character of `s` satisfies `p`. */
  predicate All(s: string, p: char -> bool)
  {
    forall i :: 0 <= i < |s| ==> p(s[i])
  }

  /** Every character of `s` belongs to `cs`. */
  predicate AllIn(s: string, cs: set<char>)
  {
    forall i :: 0 <= i < |s| ==> s[i] in cs
  }

  /** The characters for which Python's `str.isspace()` holds; `str.strip()`
      without an argument removes exactly these. */
  const PyWhitespace: set<char> := {
    '\t', '\n', '\U{0B}', '\U{0C}', '\r', '\U{1C}', '\U{1D}', '\U{1E}', '\U{1F}', ' ',
    '\U{85}', '\U{A0}', '\U{1680}',
    '\U{2000}', '\U{2001}', '\U{2002}', '\U{2003}', '\U{2004}', '\U{2005}',
    '\U{2006}', '\U{2007}', '\U{2008}', '\U{2009}', '\U{200A}',
    '\U{2028}', '\U{2029}', '\U{202F}', '\U{205F}', '\U{3000}'
  }

  /** How many leading characters of `s` belong to `cs`. */
  function LeadingCount(s: string, cs: set<char>): (k: nat)
    ensures k <= |s|
    ensures forall i :: 0 <= i < k ==> s[i] in cs
    ensures k < |s| ==> s[k] !in cs
  {
    if s == [] || s[0] !in cs then 0 else 1 + LeadingCount(s[1..], cs)
  }

  /** How many trailing characters of `s` belong to `cs`. */
  function TrailingCount(s: string, cs: set<char>): (k: nat)
    ensures k <= |s|
    ensures forall i :: |s| - k <= i < |s| ==> s[i] in cs
    ensures k < |s| ==> s[|s| - 1 - k] !in cs
  {
    if s == [] || s[|s| - 1] !in cs then 0 else 1 + TrailingCount(s[..|s| - 1], cs)
  }

  /** `s.strip(chars)`: drop the longest prefix, then the longest suffix, made of `cs`. */
  function Strip(s: string, cs: set<char>): (r: string)
    ensures |r| <= |s|
    ensures r != [] ==> r[0] !in cs && r[|r| - 1] !in cs
  {
    var t := s[LeadingCount(s, cs)..];
    t[..|t| - TrailingCount(t, cs)]
  }

  /** Strip is characterised by decomposition: whenever `s` is `a + r + b` with
      `a` and `b` made of `cs` and `r` neither starting nor ending with one of
      them, the result is `r`. */
  lemma {:induction false} StripUnique(a: string, r: string, b: string, cs: set<char>)
    requires AllIn(a, cs) && AllIn(b, cs)
    requires r != [] ==> r[0] !in cs && r[|r| - 1] !in cs
    ensures Strip(a + r + b, cs) == r
  {
    var s := a + r + b;
    var lead := LeadingCount(s, cs);
    if r != [] {
      assert s[|a|] == r[0];
      assert lead == |a|;
      var t := s[lead..];
      assert t == r + b;
      var trail := TrailingCount(t, cs);
      assert t[|t| - 1 - |b|] == r[|r| - 1];
      assert trail == |b|;
      assert t[..|t| - trail] == r;
    } else {
      assert forall i :: 0 <= i < |s| ==> s[i] in cs by {
        forall i | 0 <= i < |s| ensures s[i] in cs {
          if i < |a| { assert s[i] == a[i]; } else { assert s[i] == b[i - |a|]; }
        }
      }
      assert lead == |s|;
    }
  }

  /** What Strip keeps, with what it drops on either side. */
  lemma StripParts(s: string, cs: set<char>) returns (a: string, b: string)
    ensures AllIn(a, cs) && AllIn(b, cs) && s == a + Strip(s, cs) + b
  {
    var lead := LeadingCount(s, cs);
    var t := s[lead..];
    var trail := TrailingCount(t, cs);
    var j := lead + (|t| - trail);
    assert Strip(s, cs) == s[lead..j];
    assert forall k :: j <= k < |s| ==> s[k] in cs by {
      forall k | j <= k < |s| ensures s[k] in cs { assert s[k] == t[k - lead]; }
    }
    a, b := ThreeParts(s, cs, lead, j);
  }

  /** Cutting `s` at `i` and `j`, with only characters of `cs` before `i` and from `j` on. */
  lemma ThreeParts(s: string, cs: set<char>, i: int, j: int) returns (a: string, b: string)
    requires 0 <= i <= j <= |s|
    requires forall k :: 0 <= k < i ==> s[k] in cs
    requires forall k :: j <= k < |s| ==> s[k] in cs
    ensures AllIn(a, cs) && AllIn(b, cs) && s == a + s[i..j] + b
  {
    a, b := s[..i], s[j..];
    assert s == a + s[i..j] + b;
    assert AllIn(a, cs) by {
      forall k | 0 <= k < |a| ensures a[k] in cs { assert a[k] == s[k]; }
    }
    assert AllIn(b, cs) by {
      forall k | 0 <= k < |b| ensures b[k] in cs { assert b[k] == s[j + k]; }
    }
  }

  /** Characters of `cs` around a string do not change what Strip keeps. */
  lemma StripAbsorbs(a: string, s: string, b: string, cs: set<char>)
    requires AllIn(a, cs) && AllIn(b, cs)
    ensures Strip(a + s + b, cs) == Strip(s, cs)
  {
    var a', b' := StripParts(s, cs);
    var r := Strip(s, cs);
    AllInConcat(a, a', cs);
    AllInConcat(b', b, cs);
    StripUnique(a + a', r, b' + b, cs);
    Regroup(a, a', r, b', b);
  }

  lemma Regroup(a: string, x: string, r: string, y: string, b: string)
    ensures a + (x + r + y) + b == (a + x) + r + (y + b)
  {
  }

  lemma AllInConcat(x: string, y: string, cs: set<char>)
    requires AllIn(x, cs) && AllIn(y, cs)
    ensures AllIn(x + y, cs)
  {
    forall i | 0 <= i < |x + y| ensures (x + y)[i] in cs {
      if i < |x| { assert (x + y)[i] == x[i]; } else { assert (x + y)[i] == y[i - |x|]; }
    }
  }

  /** A character outside `cs` occurs in what Strip keeps exactly when it occurs in `s`. */
  lemma StripKeepsOthers(s: string, cs: set<char>, c: char)
    requires c !in cs
    ensures c in Strip(s, cs) <==> c in s
  {
    var a, b := StripParts(s, cs);
    NotInAllIn(a, cs, c);
    NotInAllIn(b, cs, c);
    assert c in s <==> c in a || c in Strip(s, cs) || c in b;
  }

  lemma NotInAllIn(a: string, cs: set<char>, c: char)
    requires AllIn(a, cs) && c !in cs
    ensures c !in a
  {
    forall i | 0 <= i < |a| ensures a[i] != c { assert a[i] in cs; }
  }

  /** `lower()` neither creates nor removes a character that is not a letter. */
  lemma LowerKeepsNonLetters(s: string, c: char)
    requires !IsAsciiLetter(c)
    ensures c in Lower(s) <==> c in s
  {
    if c in Lower(s) {
      var i :| 0 <= i < |s| && Lower(s)[i] == c;
      assert LowerChar(s[i]) == c;
    }
    if c in s {
      var i :| 0 <= i < |s| && s[i] == c;
      assert Lower(s)[i] == c;
    }
  }

  /** Strip leaves a string with no `cs` at either end as it is. */
  lemma StripIdempotent(s: string, cs: set<char>)
    ensures Strip(Strip(s, cs), cs) == Strip(s, cs)
  {
    var r := Strip(s, cs);
    assert [] + r + [] == r;
    StripUnique([], r, [], cs);
  }

  /** Python's `str.lower()` on ASCII letters; every other character is kept. */
  function LowerChar(c: char): char
  {
    if IsAsciiUpper(c) then (c as int + 32) as char else c
  }

  /** `s.lower()`. */
  function Lower(s: string): (r: string)
    ensures |r| == |s|
    ensures forall i :: 0 <= i < |s| ==> r[i] == LowerChar(s[i])
  {
    seq(|s|, i requires 0 <= i < |s| => LowerChar(s[i]))
  }

  lemma LowerIdempotent(s: string)
    ensures Lower(Lower(s)) == Lower(s)
  {
  }

  /** A set that `lower()` neither enters nor leaves. */
  predicate LowerStable(cs: set<char>)
  {
    forall c :: LowerChar(c) in cs <==> c in cs
  }

  /** Python's whitespace contains no ASCII letter. */
  lemma WhitespaceLowerStable()
    ensures LowerStable(PyWhitespace)
  {
    forall c ensures LowerChar(c) in PyWhitespace <==> c in PyWhitespace {
      if IsAsciiUpper(c) {
        assert c !in PyWhitespace;
        assert IsAsciiLower(LowerChar(c));
      }
    }
  }

  lemma {:induction false} LeadingCountLower(s: string, cs: set<char>)
    requires LowerStable(cs)
    ensures LeadingCount(Lower(s), cs) == LeadingCount(s, cs)
  {
    if s != [] {
      assert Lower(s)[0] == LowerChar(s[0]);
      assert Lower(s)[1..] == Lower(s[1..]);
      LeadingCountLower(s[1..], cs);
    }
  }

  lemma {:induction false} TrailingCountLower(s: string, cs: set<char>)
    requires LowerStable(cs)
    ensures TrailingCount(Lower(s), cs) == TrailingCount(s, cs)
  {
    if s != [] {
      assert Lower(s)[|s| - 1] == LowerChar(s[|s| - 1]);
      assert Lower(s)[..|s| - 1] == Lower(s[..|s| - 1]);
      TrailingCountLower(s[..|s| - 1], cs);
    }
  }

  /** Stripping before or after lowering gives the same string. */
  lemma StripLowerCommute(s: string, cs: set<char>)
    requires LowerStable(cs)
    ensures Strip(Lower(s), cs) == Lower(Strip(s, cs))
  {
    LeadingCountLower(s, cs);
    var lead := LeadingCount(s, cs);
    var t := s[lead..];
    assert Lower(s)[lead..] == Lower(t);
    TrailingCountLower(t, cs);
  }

  /** `s.split(c)`: the pieces between occurrences of `c`; never empty. */
  function Split(s: string, c: char): (parts: seq<string>)
    ensures |parts| >= 1
    ensures forall k :: 0 <= k < |parts| ==> c !in parts[k]
  {
    if s == [] then [[]]
    else if s[0] == c then [[]] + Split(s[1..], c)
    else
      var rest := Split(s[1..], c);
      [[s[0]] + rest[0]] + rest[1..]
  }

  /** A string without the separator is one piece. */
  lemma {:induction false} SplitWithoutSeparator(t: string, c: char)
    requires c !in t
    ensures Split(t, c) == [t]
  {
    if t != [] {
      SplitWithoutSeparator(t[1..], c);
      assert t[0] != c;
      assert [t[0]] + t[1..] == t;
    }
  }

  /** A separator right after a separator-free prefix ends the first piece. */
  lemma {:induction false} SplitAtSeparator(t: string, c: char, u: string)
    requires c !in t
    ensures Split(t + [c] + u, c) == [t] + Split(u, c)
  {
    var s := t + [c] + u;
    if t == [] {
      assert s[1..] == u;
    } else {
      assert s[0] == t[0] && t[0] != c;
      assert s[1..] == t[1..] + [c] + u;
      SplitAtSeparator(t[1..], c, u);
      assert [t[0]] + t[1..] == t;
    }
  }

  /** Where the first piece ends: at the end of `s` or at the first separator. */
  lemma {:induction false} SplitHead(s: string, c: char)
    ensures var parts := Split(s, c);
      |parts[0]| <= |s| && s[..|parts[0]|] == parts[0]
      && (|parts[0]| == |s| <==> |parts| == 1)
      && (|parts[0]| < |s| ==> s[|parts[0]|] == c && Split(s[|parts[0]| + 1..], c) == parts[1..])
  {
    if s != [] && s[0] != c {
      SplitHead(s[1..], c);
      var rest := Split(s[1..], c);
      assert s[1..][..|rest[0]|] == rest[0];
      if |rest[0]| < |s[1..]| {
        assert s[1..][|rest[0]| + 1..] == s[|rest[0]| + 2..];
      }
    }
  }

  /** `s.replace(pat, rep)`: non-overlapping occurrences, scanned left to right. */
  function ReplaceAll(s: string, pat: string, rep: string): (r: string)
    requires pat != []
    ensures pat[0] !in s ==> r == s
    decreases |s|
  {
    if |s| < |pat| then s
    else if s[..|pat|] == pat then rep + ReplaceAll(s[|pat|..], pat, rep)
    else [s[0]] + ReplaceAll(s[1..], pat, rep)
  }

  /** Deleting a character leaves none of it and never lengthens. */
  lemma {:induction false} DeleteCharRemoves(s: string, c: char)
    ensures c !in ReplaceAll(s, [c], []) && |ReplaceAll(s, [c], [])| <= |s|
    decreases |s|
  {
    if |s| >= 1 {
      DeleteCharRemoves(s[1..], c);
      if s[..1] != [c] {
        assert s[0] != c by { assert s[..1] == [s[0]]; }
      }
    }
  }

  /** Deleting one character (`s.replace("-", "")`) works piece by piece. */
  lemma {:induction false} DeleteCharAppend(a: string, b: string, c: char)
    ensures ReplaceAll(a + b, [c], []) == ReplaceAll(a, [c], []) + ReplaceAll(b, [c], [])
  {
    if a == [] {
      assert a + b == b;
    } else {
      assert (a + b)[1..] == a[1..] + b;
      assert (a + b)[..1] == a[..1];
      DeleteCharAppend(a[1..], b, c);
      if a[..1] == [c] {
        assert ReplaceAll(a, [c], []) == ReplaceAll(a[1..], [c], []);
      } else {
        assert ReplaceAll(a, [c], []) == [a[0]] + ReplaceAll(a[1..], [c], []);
        assert ReplaceAll(a + b, [c], []) == [a[0]] + ReplaceAll(a[1..] + b, [c], []);
      }
    }
  }

  /** `s[:n]`. */
  function Truncate(s: string, n: nat): (r: string)
    ensures |r| == if |s| <= n then |s| else n
    ensures r <= s
  {
    if |s| <= n then s else s[..n]
  }
}
