/** The domain-name pattern behind `Provider.validate_m365_uid`
    (api/src/backend/api/models.py:233-243) and what it accepts, stated
    without regular expressions: dot-separated DNS labels followed by an
    alphabetic top-level part.

    The pattern's two `(?!-)` look-aheads are left out of the transcription:
    each stands just before `[A-Za-z0-9]`, which already refuses `-`. */
module DomainNames {
  import opened Strings
  import opened Regex

  predicate IsAlnumOrHyphen(c: char) { IsAsciiAlnum(c) || c == '-' }

  /** `[A-Za-z0-9](?:[A-Za-z0-9-]{0,61}[A-Za-z0-9])?` */
  const Label: Re := Cat(Class(IsAsciiAlnum), Opt(Cat(Rep(Class(IsAlnumOrHyphen), 0, 61), Class(IsAsciiAlnum))))
  /** `\.` followed by a label */
  const DotLabel: Re := Cat(Str("."), Label)
  /** `[A-Za-z]{2,}` */
  const TopLevel: Re := AtLeast(Class(IsAsciiLetter), 2)
  /** `(?:\.<label>)*\.[A-Za-z]{2,}` */
  const Tail: Re := Cat(Star(DotLabel), Cat(Str("."), TopLevel))
  /** The whole m365 pattern between `^` and `$`. */
  const DomainPattern: Re := Cat(Label, Tail)

  /** A DNS label: 1 to 63 letters, digits or hyphens, starting and ending with a letter or digit. */
  predicate IsDnsLabel(t: string)
  {
    1 <= |t| <= 63 && IsAsciiAlnum(t[0]) && IsAsciiAlnum(t[|t| - 1]) && All(t, IsAlnumOrHyphen)
  }

  /** A top-level part: at least two ASCII letters. */
  predicate IsTopLevel(t: string)
  {
    |t| >= 2 && All(t, IsAsciiLetter)
  }

  /** All parts but the last are DNS labels and the last is a top-level part. */
  predicate LabelsThenTopLevel(parts: seq<string>)
  {
    parts != [] && (forall k :: 0 <= k < |parts| - 1 ==> IsDnsLabel(parts[k])) && IsTopLevel(parts[|parts| - 1])
  }

  /** At least two dot-separated parts; all but the last are DNS labels, the last is a top-level part. */
  predicate IsDomainName(s: string)
  {
    var parts := Split(s, '.');
    |parts| >= 2 && LabelsThenTopLevel(parts)
  }

  lemma LabelHasNoDot(t: string)
    requires IsDnsLabel(t) || IsTopLevel(t)
    ensures '.' !in t
  {
    forall k | 0 <= k < |t| ensures t[k] != '.' {
      assert IsAlnumOrHyphen(t[k]) || IsAsciiLetter(t[k]);
    }
  }

  lemma {:induction false} LabelShape(t: string)
    ensures Matches(Label, t) <==> IsDnsLabel(t)
  {
    var inner := Cat(Rep(Class(IsAlnumOrHyphen), 0, 61), Class(IsAsciiAlnum));
    CatClass(IsAsciiAlnum, Opt(inner), t);
    if |t| >= 1 {
      var u := t[1..];
      CatThenClass(Rep(Class(IsAlnumOrHyphen), 0, 61), IsAsciiAlnum, u);
      if |u| >= 1 {
        var mid := u[..|u| - 1];
        ClassRange(IsAlnumOrHyphen, 0, 61, mid);
        assert mid == t[1..|t| - 1];
        assert u[|u| - 1] == t[|t| - 1];
        if IsDnsLabel(t) {
          assert All(mid, IsAlnumOrHyphen) by {
            forall j | 0 <= j < |mid| ensures IsAlnumOrHyphen(mid[j]) { assert mid[j] == t[j + 1]; }
          }
        }
        if Matches(Label, t) {
          assert All(t, IsAlnumOrHyphen) by {
            forall j | 0 <= j < |t| ensures IsAlnumOrHyphen(t[j]) {
              if 0 < j < |t| - 1 { assert t[j] == mid[j - 1]; }
            }
          }
        }
      } else {
        assert |t| == 1;
        if IsDnsLabel(t) {
          assert u == [];
        }
      }
    }
  }

  lemma TopLevelShape(t: string)
    ensures Matches(TopLevel, t) <==> IsTopLevel(t)
  {
    ClassAtLeast(IsAsciiLetter, 2, t);
  }

  /** A label and a top-level part joined by a dot. */
  lemma DomainOfTwo(l: string, t: string)
    requires IsDnsLabel(l) && IsTopLevel(t)
    ensures IsDomainName(l + "." + t)
  {
    LabelHasNoDot(l);
    LabelHasNoDot(t);
    assert l + "." + t == l + ['.'] + t;
    SplitAtSeparator(l, '.', t);
    SplitWithoutSeparator(t, '.');
  }

  /** A label and a dot in front of a domain name. */
  lemma DomainCons(l: string, rest: string)
    requires IsDnsLabel(l) && IsDomainName(rest)
    ensures IsDomainName(l + "." + rest)
  {
    LabelHasNoDot(l);
    SplitAtSeparator(l, '.', rest);
    ConsLabel(l, Split(rest, '.'));
  }

  /** A label in front of labels-then-top-level parts. */
  lemma ConsLabel(l: string, ps: seq<string>)
    requires IsDnsLabel(l) && LabelsThenTopLevel(ps)
    ensures LabelsThenTopLevel([l] + ps)
  {
    var qs := [l] + ps;
    assert forall k :: 1 <= k < |qs| ==> qs[k] == ps[k - 1];
  }

  /** The first `.label` of a non-empty run of them. */
  lemma FirstDotLabel(u: string) returns (l: string, u2: string)
    requires Iterated(DotLabel, u) && u != []
    ensures IsDnsLabel(l) && Iterated(DotLabel, u2) && u == "." + l + u2
  {
    var x;
    x, u2 := IteratedParts(DotLabel, u);
    var p;
    p, l := CatParts(Str("."), Label, x);
    LabelShape(l);
  }

  /** A label, any number of `.label`s, then `.` and a top-level part, splits as IsDomainName demands. */
  lemma {:induction false} ChainSplits(l: string, u: string, t: string)
    requires IsDnsLabel(l) && Iterated(DotLabel, u) && IsTopLevel(t)
    ensures IsDomainName(l + u + "." + t)
    decreases |u|
  {
    if u == [] {
      assert l + u + "." + t == l + "." + t;
      DomainOfTwo(l, t);
    } else {
      var l2, u2 := FirstDotLabel(u);
      ChainSplits(l2, u2, t);
      var rest := l2 + u2 + "." + t;
      assert l + u + "." + t == l + "." + rest;
      DomainCons(l, rest);
    }
  }

  /** A dot and a label match `\.<label>`. */
  lemma DotLabelShape(l: string)
    requires IsDnsLabel(l)
    ensures Matches(DotLabel, "." + l)
  {
    LabelShape(l);
    CatJoin(Str("."), Label, ".", l);
  }

  /** One more `.label` in front of a tail is still a tail. */
  lemma PrependDotLabel(l: string, w: string)
    requires IsDnsLabel(l) && Matches(Tail, w)
    ensures Matches(Tail, "." + l + w)
  {
    DotLabelShape(l);
    StarCatCons(DotLabel, Cat(Str("."), TopLevel), "." + l, w);
  }

  /** Splitting off the first piece of a string with a separator. */
  lemma SplitFirst(s: string) returns (p0: string, s2: string)
    requires |Split(s, '.')| >= 2
    ensures p0 == Split(s, '.')[0] && Split(s2, '.') == Split(s, '.')[1..]
    ensures s == p0 + ("." + s2) && "." + s == "." + p0 + ("." + s2)
  {
    SplitHead(s, '.');
    p0 := Split(s, '.')[0];
    s2 := s[|p0| + 1..];
    assert s == s[..|p0|] + [s[|p0|]] + s2;
    assert s == p0 + ("." + s2);
  }

  /** Dropping the first part keeps labels-then-top-level, and the first part is a label. */
  lemma DropFirstPart(ps: seq<string>)
    requires LabelsThenTopLevel(ps) && |ps| >= 2
    ensures IsDnsLabel(ps[0]) && LabelsThenTopLevel(ps[1..])
  {
    var qs := ps[1..];
    assert forall k :: 0 <= k < |qs| ==> qs[k] == ps[k + 1];
  }

  /** `.` and a top-level part alone form a tail. */
  lemma TopLevelTail(t: string)
    requires IsTopLevel(t)
    ensures Matches(Tail, "." + t)
  {
    TopLevelShape(t);
    CatJoin(Str("."), TopLevel, ".", t);
    StarCatEmpty(DotLabel, Cat(Str("."), TopLevel), "." + t);
  }

  /** Behind a dot, labels then a top-level part, separated by dots, are a tail. */
  lemma {:induction false} TailFromSplit(s: string)
    requires LabelsThenTopLevel(Split(s, '.'))
    ensures Matches(Tail, "." + s)
    decreases |s|
  {
    var ps := Split(s, '.');
    if |ps| == 1 {
      SplitHead(s, '.');
      assert s == ps[0];
      TopLevelTail(s);
    } else {
      var p0, s2 := SplitFirst(s);
      DropFirstPart(ps);
      TailFromSplit(s2);
      PrependDotLabel(p0, "." + s2);
    }
  }

  /** A tail is a run of `.label`s, a dot and a top-level part. */
  lemma TailParts(w: string) returns (u: string, t: string)
    requires Matches(Tail, w)
    ensures Iterated(DotLabel, u) && IsTopLevel(t) && w == u + ("." + t)
  {
    var y;
    u, y := CatParts(Star(DotLabel), Cat(Str("."), TopLevel), w);
    var p;
    p, t := CatParts(Str("."), TopLevel, y);
    TopLevelShape(t);
  }

  /** Regrouping a label, a run of `.label`s, a dot and a top-level part. */
  lemma Regroup(l: string, u: string, t: string)
    ensures l + (u + ("." + t)) == l + u + "." + t
  {
  }

  /** What the pattern accepts is a domain name. */
  lemma PatternGivesDomain(s: string)
    requires Matches(DomainPattern, s)
    ensures IsDomainName(s)
  {
    var l, w := CatParts(Label, Tail, s);
    LabelShape(l);
    var u, t := TailParts(w);
    Regroup(l, u, t);
    ChainSplits(l, u, t);
  }

  /** A domain name is accepted by the pattern. */
  lemma DomainGivesPattern(s: string)
    requires IsDomainName(s)
    ensures Matches(DomainPattern, s)
  {
    var ps := Split(s, '.');
    var p0, s2 := SplitFirst(s);
    DropFirstPart(ps);
    TailFromSplit(s2);
    LabelShape(p0);
    CatJoin(Label, Tail, p0, "." + s2);
  }

  /** `validate_m365_uid`'s pattern accepts exactly the domain names. */
  lemma DomainShape(s: string)
    ensures Matches(DomainPattern, s) <==> IsDomainName(s)
  {
    if Matches(DomainPattern, s) { PatternGivesDomain(s); }
    if IsDomainName(s) { DomainGivesPattern(s); }
  }
}
