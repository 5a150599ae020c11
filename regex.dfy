/** The fragment of Python's `re` syntax used by the validators, with its
    meaning: `re.match(r"^P$", s)` succeeds when `P` matches the whole of `s`.

    Deviation from Python: `$` is read as end-of-string. Python's `$` also
    matches just before one final newline; `MatchesAsWritten` states that
    reading, and the models use `Matches`. Character classes are ASCII;
    Python's `\d` and `\w` also accept non-ASCII digits and letters. */
module Regex {
  import opened Strings

  datatype Re =
    | Str(w: string)                   // a literal, such as `sk-` or `\.`
    | Class(p: char -> bool)           // one character: `[a-z0-9-]`, `\d`, ...
    | Cat(a: Re, b: Re)                // `ab`
    | Opt(r: Re)                       // `(?:r)?`
    | Star(r: Re)                      // `(?:r)*`
    | Rep(r: Re, lo: nat, hi: nat)     // `r{lo,hi}`
    | AtLeast(r: Re, lo: nat)          // `r{lo,}`; `r+` is `r{1,}`

  /** `re` matches all of `s`. */
  predicate Matches(re: Re, s: string)
    decreases re, |s|, 1
  {
    match re
    case Str(w) => s == w
    case Class(p) => |s| == 1 && p(s[0])
    case Cat(a, b) => exists i | 0 <= i <= |s| :: Matches(a, s[..i]) && Matches(b, s[i..])
    case Opt(r) => s == [] || Matches(r, s)
    case Star(r) => Iterated(r, s)
    case Rep(r, lo, hi) => exists k: nat | lo <= k <= hi :: Pieces(r, k, s)
    case AtLeast(r, lo) => exists i | 0 <= i <= |s| :: Pieces(r, lo, s[..i]) && Iterated(r, s[i..])
  }

  /** `s` is `k` consecutive pieces, each matched by `r`. */
  predicate Pieces(r: Re, k: nat, s: string)
    decreases r, |s|, 2, k
  {
    if k == 0 then s == []
    else exists i | 0 <= i <= |s| :: Matches(r, s[..i]) && Pieces(r, k - 1, s[i..])
  }

  /** `s` is any number of non-empty pieces, each matched by `r`
      (an empty piece never helps a `*`). */
  predicate Iterated(r: Re, s: string)
    decreases r, |s|, 2
  {
    s == [] || exists i | 1 <= i <= |s| :: Matches(r, s[..i]) && Iterated(r, s[i..])
  }

  /** `re.match(r"^P$", s)` as Python evaluates it: `$` also matches before a
      final newline. */
  predicate MatchesAsWritten(re: Re, s: string): (b: bool)
    ensures Matches(re, s) ==> b
    ensures b && (s == [] || s[|s| - 1] != '\n') ==> Matches(re, s)
  {
    Matches(re, s) || (|s| > 0 && s[|s| - 1] == '\n' && Matches(re, s[..|s| - 1]))
  }

  /** `k` pieces of one character class are `k` characters of that class. */
  lemma {:induction false} ClassPieces(p: char -> bool, k: nat, s: string)
    ensures Pieces(Class(p), k, s) <==> |s| == k && All(s, p)
  {
    if k > 0 {
      if Pieces(Class(p), k, s) {
        var i :| 0 <= i <= |s| && Matches(Class(p), s[..i]) && Pieces(Class(p), k - 1, s[i..]);
        assert i == 1;
        ClassPieces(p, k - 1, s[1..]);
        assert All(s, p) by {
          forall j | 0 <= j < |s| ensures p(s[j]) {
            if j > 0 { assert s[j] == s[1..][j - 1]; } else { assert s[..1][0] == s[0]; }
          }
        }
      }
      if |s| == k && All(s, p) {
        ClassPieces(p, k - 1, s[1..]);
        assert All(s[1..], p) by {
          forall j | 0 <= j < |s[1..]| ensures p(s[1..][j]) { assert s[1..][j] == s[j + 1]; }
        }
        assert Matches(Class(p), s[..1]);
      }
    }
  }

  /** Any number of characters of one class. */
  lemma {:induction false} ClassIterated(p: char -> bool, s: string)
    ensures Iterated(Class(p), s) <==> All(s, p)
    decreases |s|
  {
    if s != [] {
      if Iterated(Class(p), s) {
        var i :| 1 <= i <= |s| && Matches(Class(p), s[..i]) && Iterated(Class(p), s[i..]);
        assert i == 1;
        ClassIterated(p, s[1..]);
        assert All(s, p) by {
          forall j | 0 <= j < |s| ensures p(s[j]) {
            if j > 0 { assert s[j] == s[1..][j - 1]; } else { assert s[..1][0] == s[0]; }
          }
        }
      }
      if All(s, p) {
        ClassIterated(p, s[1..]);
        assert All(s[1..], p) by {
          forall j | 0 <= j < |s[1..]| ensures p(s[1..][j]) { assert s[1..][j] == s[j + 1]; }
        }
        assert Matches(Class(p), s[..1]);
      }
    }
  }

  /** Where a concatenation splits its input. */
  lemma CatSplit(a: Re, b: Re, s: string)
    requires Matches(Cat(a, b), s)
    ensures exists i :: 0 <= i <= |s| && Matches(a, s[..i]) && Matches(b, s[i..])
  {
  }

  /** The two parts a concatenation matched. */
  lemma CatParts(a: Re, b: Re, s: string) returns (x: string, y: string)
    requires Matches(Cat(a, b), s)
    ensures Matches(a, x) && Matches(b, y) && s == x + y
  {
    CatSplit(a, b, s);
    var i :| 0 <= i <= |s| && Matches(a, s[..i]) && Matches(b, s[i..]);
    x, y := s[..i], s[i..];
    SliceJoin(s, i);
  }

  /** Two matched strings in a row match the concatenation. */
  lemma CatJoin(a: Re, b: Re, x: string, y: string)
    requires Matches(a, x) && Matches(b, y)
    ensures Matches(Cat(a, b), x + y)
  {
    assert (x + y)[..|x|] == x && (x + y)[|x|..] == y;
  }

  /** One more non-empty piece in front of a `*` run. */
  lemma IteratedCons(r: Re, x: string, y: string)
    requires Matches(r, x) && x != [] && Iterated(r, y)
    ensures Iterated(r, x + y)
  {
    assert (x + y)[..|x|] == x && (x + y)[|x|..] == y;
  }

  /** The first piece of a non-empty `*` run and the rest. */
  lemma IteratedParts(r: Re, s: string) returns (x: string, y: string)
    requires Iterated(r, s) && s != []
    ensures Matches(r, x) && x != [] && Iterated(r, y) && s == x + y
  {
    var i :| 1 <= i <= |s| && Matches(r, s[..i]) && Iterated(r, s[i..]);
    x, y := s[..i], s[i..];
    SliceJoin(s, i);
  }

  /** One more non-empty piece in front of `(?:d)*e`. */
  lemma StarCatCons(d: Re, e: Re, x: string, w: string)
    requires Matches(d, x) && x != [] && Matches(Cat(Star(d), e), w)
    ensures Matches(Cat(Star(d), e), x + w)
  {
    var u, v := CatParts(Star(d), e, w);
    IteratedCons(d, x, u);
    CatJoin(Star(d), e, x + u, v);
    AppendAssoc(x, u, v);
  }

  lemma SliceJoin(s: string, i: int)
    requires 0 <= i <= |s|
    ensures s == s[..i] + s[i..]
  {
  }

  lemma AppendAssoc(x: string, u: string, v: string)
    ensures x + u + v == x + (u + v)
  {
  }

  /** No piece at all in front of `e`. */
  lemma StarCatEmpty(d: Re, e: Re, y: string)
    requires Matches(e, y)
    ensures Matches(Cat(Star(d), e), y)
  {
    assert Iterated(d, []);
    CatJoin(Star(d), e, [], y);
    assert [] + y == y;
  }

  /** How many pieces a `{lo,hi}` repetition used. */
  lemma RepPieces(r: Re, lo: nat, hi: nat, s: string)
    requires Matches(Rep(r, lo, hi), s)
    ensures exists k: nat :: lo <= k <= hi && Pieces(r, k, s)
  {
  }

  /** `[...]{lo,hi}` accepts exactly the strings of lo to hi characters of the class. */
  lemma {:induction false} ClassRange(p: char -> bool, lo: nat, hi: nat, s: string)
    ensures Matches(Rep(Class(p), lo, hi), s) <==> lo <= |s| <= hi && All(s, p)
  {
    if Matches(Rep(Class(p), lo, hi), s) {
      RepPieces(Class(p), lo, hi, s);
      var k: nat :| lo <= k <= hi && Pieces(Class(p), k, s);
      ClassPieces(p, k, s);
    }
    if lo <= |s| <= hi && All(s, p) {
      ClassPieces(p, |s|, s);
    }
  }

  /** `[...]{lo,}` accepts exactly the strings of at least lo characters of the class. */
  lemma ClassAtLeast(p: char -> bool, lo: nat, s: string)
    ensures Matches(AtLeast(Class(p), lo), s) <==> lo <= |s| && All(s, p)
  {
    if Matches(AtLeast(Class(p), lo), s) {
      var i :| 0 <= i <= |s| && Pieces(Class(p), lo, s[..i]) && Iterated(Class(p), s[i..]);
      ClassPieces(p, lo, s[..i]);
      ClassIterated(p, s[i..]);
      assert All(s, p) by {
        forall j | 0 <= j < |s| ensures p(s[j]) {
          if j < i { assert s[j] == s[..i][j]; } else { assert s[j] == s[i..][j - i]; }
        }
      }
    }
    if lo <= |s| && All(s, p) {
      ClassPieces(p, lo, s[..lo]);
      ClassIterated(p, s[lo..]);
      assert All(s[..lo], p) by {
        forall j | 0 <= j < lo ensures p(s[..lo][j]) { assert s[..lo][j] == s[j]; }
      }
      assert All(s[lo..], p) by {
        forall j | 0 <= j < |s| - lo ensures p(s[lo..][j]) { assert s[lo..][j] == s[lo + j]; }
      }
    }
  }

  /** A leading character class takes exactly the first character. */
  lemma CatClass(p: char -> bool, x: Re, s: string)
    ensures Matches(Cat(Class(p), x), s) <==> |s| >= 1 && p(s[0]) && Matches(x, s[1..])
  {
    if Matches(Cat(Class(p), x), s) {
      var i :| 0 <= i <= |s| && Matches(Class(p), s[..i]) && Matches(x, s[i..]);
      assert i == 1 && s[..i][0] == s[0];
    }
    if |s| >= 1 && p(s[0]) && Matches(x, s[1..]) {
      assert Matches(Class(p), s[..1]);
    }
  }

  /** A trailing character class takes exactly the last character. */
  lemma {:induction false} CatThenClass(x: Re, p: char -> bool, s: string)
    ensures Matches(Cat(x, Class(p)), s) <==> |s| >= 1 && Matches(x, s[..|s| - 1]) && p(s[|s| - 1])
  {
    if Matches(Cat(x, Class(p)), s) {
      var i :| 0 <= i <= |s| && Matches(x, s[..i]) && Matches(Class(p), s[i..]);
      assert |s[i..]| == 1;
      assert i == |s| - 1;
      assert s[i..][0] == s[|s| - 1];
    }
    if |s| >= 1 && Matches(x, s[..|s| - 1]) && p(s[|s| - 1]) {
      var i := |s| - 1;
      assert s[i..] == [s[i]];
      assert Matches(Class(p), s[i..]);
      assert Matches(x, s[..i]) && Matches(Class(p), s[i..]);
    }
  }

  /** A leading literal takes exactly its own length. */
  lemma CatStr(w: string, x: Re, s: string)
    ensures Matches(Cat(Str(w), x), s) <==> |w| <= |s| && s[..|w|] == w && Matches(x, s[|w|..])
  {
    if Matches(Cat(Str(w), x), s) {
      var i :| 0 <= i <= |s| && Matches(Str(w), s[..i]) && Matches(x, s[i..]);
      assert i == |w|;
    }
  }
}
