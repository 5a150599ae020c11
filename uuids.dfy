/** `uuid.UUID(value, version=4)` followed by `str(...)`, as
    `Provider.validate_azure_uid` (api/src/backend/api/models.py:219-230) uses
    them: the value is parsed as 32 hexadecimal digits, its version and variant
    fields are overwritten (section 4.1.3 and section 4.1.1 of RFC 4122) and the
    result is printed in the canonical lowercase 8-4-4-4-12 form.

    The 128-bit integer is kept as its 32 hexadecimal digits, most significant
    first: the version field is digit 12 and the two variant bits are the top
    bits of digit 16. */
module Uuids {
  import opened Common
  import opened Strings

  type Nibble = x: int | 0 <= x < 16

  predicate IsHexDigit(c: char) { IsAsciiDigit(c) || 'a' <= c <= 'f' || 'A' <= c <= 'F' }
  predicate IsLowerHexDigit(c: char) { IsAsciiDigit(c) || 'a' <= c <= 'f' }

  /** The value of one hexadecimal digit of either case. */
  function HexValue(c: char): (n: Nibble)
    requires IsHexDigit(c)
  {
    if IsAsciiDigit(c) then c as int - '0' as int
    else if 'a' <= c <= 'f' then c as int - 'a' as int + 10
    else c as int - 'A' as int + 10
  }

  /** The lowercase digits `'%x'` prints. */
  const HexDigits: string := "0123456789abcdef"

  lemma HexDigitRoundTrip(c: char)
    requires IsLowerHexDigit(c)
    ensures HexDigits[HexValue(c)] == c
  {
  }

  /** `int(h, 16)` on a string of hexadecimal digits; `None` is the ValueError. */
  function ParseHex(h: string): (r: Option<seq<Nibble>>)
    ensures r.Some? <==> All(h, IsHexDigit)
    ensures r.Some? ==> |r.value| == |h| && forall i :: 0 <= i < |h| ==> r.value[i] == HexValue(h[i])
  {
    if All(h, IsHexDigit) then Some(seq(|h|, i requires 0 <= i < |h| => HexValue(h[i]))) else None
  }

  /** The digits that `UUID(hex=value)` reads: `urn:` and `uuid:` removed, braces
      stripped from both ends, hyphens removed. */
  function HexPart(value: string): (h: string)
    ensures '-' !in h
  {
    var t := Strip(ReplaceAll(ReplaceAll(value, "urn:", ""), "uuid:", ""), {'{', '}'});
    DeleteCharRemoves(t, '-');
    ReplaceAll(t, "-", "")
  }

  /** Parsing; `None` is the ValueError raised for anything but 32 digits. */
  function Parse(value: string): (r: Option<seq<Nibble>>)
    ensures r.Some? <==> |HexPart(value)| == 32 && All(HexPart(value), IsHexDigit)
    ensures r.Some? ==> |r.value| == 32 && forall i :: 0 <= i < 32 ==> r.value[i] == HexValue(HexPart(value)[i])
  {
    var h := HexPart(value);
    if |h| != 32 then None else ParseHex(h)
  }

  /** The `version=4` adjustment: variant bits set to `10`, version field set to 4. */
  function WithVersion4(n: seq<Nibble>): (m: seq<Nibble>)
    requires |n| == 32
    ensures |m| == 32 && m[12] == 4 && 8 <= m[16] < 12
    ensures m[16] % 4 == n[16] % 4
    ensures forall i :: 0 <= i < 32 && i != 12 && i != 16 ==> m[i] == n[i]
  {
    n[12 := 4][16 := n[16] % 4 + 8]
  }

  /** `'%032x' % int`. */
  function HexString(n: seq<Nibble>): (h: string)
    ensures |h| == |n| && All(h, IsLowerHexDigit)
    ensures forall i :: 0 <= i < |n| ==> h[i] == HexDigits[n[i]]
  {
    seq(|n|, i requires 0 <= i < |n| => HexDigits[n[i]])
  }

  /** `UUID.__str__`: the 8-4-4-4-12 grouping. */
  function Format(h: string): (f: string)
    requires |h| == 32
    ensures |f| == 36
    ensures forall i :: 0 <= i < 36 ==> f[i] == if IsHyphenPosition(i) then '-' else h[DigitIndex(i)]
  {
    h[..8] + "-" + h[8..12] + "-" + h[12..16] + "-" + h[16..20] + "-" + h[20..]
  }

  /** `Provider.validate_azure_uid`: the error unless the value parses and prints back unchanged. */
  function ValidateAzureUid(value: string): (r: Outcome)
    ensures r.Rejected? ==> r.error == ModelError("Azure provider ID must be a valid UUID.", "azure-uid", "/data/attributes/uid")
    ensures r.Accepted? <==> IsCanonicalV4(value)
  {
    AzureShape(value);
    match Parse(value)
    case None => Rejected(ModelError("Azure provider ID must be a valid UUID.", "azure-uid", "/data/attributes/uid"))
    case Some(n) =>
      if Format(HexString(WithVersion4(n))) != value
      then Rejected(ModelError("Azure provider ID must be a valid UUID.", "azure-uid", "/data/attributes/uid"))
      else Accepted
  }

  predicate IsHyphenPosition(i: int) { i == 8 || i == 13 || i == 18 || i == 23 }

  /** The canonical form of a version-4 UUID: 36 characters, hyphens at 8, 13,
      18 and 23, lowercase hexadecimal elsewhere, `4` at 14, one of `89ab` at 19. */
  predicate IsCanonicalV4(s: string)
  {
    |s| == 36
    && (forall i :: 0 <= i < 36 ==> if IsHyphenPosition(i) then s[i] == '-' else IsLowerHexDigit(s[i]))
    && s[14] == '4' && s[19] in "89ab"
  }

  /** Where the `i`-th character of the 36-character form comes from in the 32 digits. */
  function DigitIndex(i: int): int
  {
    if i < 8 then i else if i < 13 then i - 1 else if i < 18 then i - 2 else if i < 23 then i - 3 else i - 4
  }

  /** Whatever the adjustment produces prints in canonical version-4 form. */
  lemma PrintedIsCanonical(m: seq<Nibble>)
    requires |m| == 32 && m[12] == 4 && 8 <= m[16] < 12
    ensures IsCanonicalV4(Format(HexString(m)))
  {
    var h := HexString(m);
    assert Format(h)[14] == h[12] == HexDigits[4];
    assert Format(h)[19] == h[16] == HexDigits[m[16]];
  }

  /** What the parse-adjust-print sequence accepts. */
  lemma AzureShape(value: string)
    ensures (match Parse(value)
             case None => false
             case Some(n) => Format(HexString(WithVersion4(n))) == value)
            <==> IsCanonicalV4(value)
  {
    if IsCanonicalV4(value) { CanonicalParses(value); }
    if Parse(value).Some? { PrintedIsCanonical(WithVersion4(Parse(value).value)); }
  }

  /** A canonical version-4 form reads back as its own digits and prints as itself. */
  lemma CanonicalParses(value: string)
    requires IsCanonicalV4(value)
    ensures Parse(value).Some? && Format(HexString(WithVersion4(Parse(value).value))) == value
  {
    var h := Digits(value);
    var n := DigitsParse(value);
    assert Parse(value) == Some(n) by { CanonicalHexPart(value); }
    assert WithVersion4(n) == n by { VersionKept(value, n); }
    assert HexString(n) == h by { PrintsDigits(h, n); }
    assert Format(h) == value by { FormatDigits(value); }
  }

  /** The digits of a canonical form are hexadecimal. */
  lemma DigitsParse(value: string) returns (n: seq<Nibble>)
    requires IsCanonicalV4(value)
    ensures ParseHex(Digits(value)) == Some(n)
  {
    var h := Digits(value);
    assert All(h, IsHexDigit) by {
      forall i | 0 <= i < |h| ensures IsHexDigit(h[i]) { assert IsLowerHexDigit(h[i]); }
    }
    n := ParseHex(h).value;
  }

  /** A canonical form already carries version 4 and the `10` variant bits. */
  lemma VersionKept(value: string, n: seq<Nibble>)
    requires IsCanonicalV4(value) && ParseHex(Digits(value)) == Some(n)
    ensures |n| == 32 && WithVersion4(n) == n
  {
    var h := Digits(value);
    assert DigitIndex(14) == 12 && DigitIndex(19) == 16;
    assert h[12] == '4' && h[16] == value[19];
    assert n[12] == 4 && 8 <= n[16] < 12;
    var m := WithVersion4(n);
    assert forall i :: 0 <= i < 32 ==> m[i] == n[i];
  }

  /** Printing parsed lowercase digits gives them back. */
  lemma PrintsDigits(h: string, n: seq<Nibble>)
    requires All(h, IsLowerHexDigit) && ParseHex(h) == Some(n)
    ensures HexString(n) == h
  {
    forall i | 0 <= i < |h| ensures HexString(n)[i] == h[i] { HexDigitRoundTrip(h[i]); }
  }

  /** Grouping the digits of a canonical form again gives the form. */
  lemma FormatDigits(value: string)
    requires IsCanonicalV4(value)
    ensures Format(Digits(value)) == value
  {
  }

  /** The 32 digits of a 36-character form, hyphens dropped. */
  function Digits(value: string): (h: string)
    requires IsCanonicalV4(value)
    ensures |h| == 32 && All(h, IsLowerHexDigit)
    ensures forall i :: 0 <= i < 36 && !IsHyphenPosition(i) ==> h[DigitIndex(i)] == value[i]
  {
    var h := value[..8] + (value[9..13] + (value[14..18] + (value[19..23] + value[24..])));
    assert forall j :: 0 <= j < 32 ==> h[j] == value[if j < 8 then j else if j < 12 then j + 1 else if j < 16 then j + 2 else if j < 20 then j + 3 else j + 4];
    h
  }

  /** A canonical form has no `u`, so neither `urn:` nor `uuid:` occurs, and no brace to strip. */
  lemma CanonicalKeptAsIs(value: string)
    requires IsCanonicalV4(value)
    ensures Strip(ReplaceAll(ReplaceAll(value, "urn:", ""), "uuid:", ""), {'{', '}'}) == value
  {
    assert 'u' !in value by {
      forall i | 0 <= i < 36 ensures value[i] != 'u' { assert IsHyphenPosition(i) || IsLowerHexDigit(value[i]); }
    }
    assert value[0] !in {'{', '}'} && value[35] !in {'{', '}'};
    assert [] + value + [] == value;
    StripUnique([], value, [], {'{', '}'});
  }

  /** Deleting hyphens from a hyphen-free run, a hyphen and the rest. */
  lemma DropHyphenAfter(a: string, rest: string)
    requires '-' !in a
    ensures ReplaceAll(a + "-" + rest, "-", "") == a + ReplaceAll(rest, "-", "")
  {
    var t := "-" + rest;
    assert ReplaceAll(a + t, "-", "") == ReplaceAll(a, "-", "") + ReplaceAll(t, "-", "") by {
      DeleteCharAppend(a, t, '-');
    }
    assert ReplaceAll(t, "-", "") == ReplaceAll(rest, "-", "") by {
      assert t[..1] == "-" && t[1..] == rest;
    }
    assert a + "-" + rest == a + t;
  }

  /** On a canonical form, `urn:`/`uuid:` removal and brace stripping change nothing and
      hyphen removal leaves the 32 digits. */
  lemma CanonicalHexPart(value: string)
    requires IsCanonicalV4(value)
    ensures HexPart(value) == Digits(value)
  {
    var a, b, c, d, e := SplitCanonical(value);
    assert HexPart(value) == ReplaceAll(value, "-", "") by { CanonicalKeptAsIs(value); }
    assert ReplaceAll(value, "-", "") == a + (b + (c + (d + e))) by { DropHyphens(a, b, c, d, e); }
  }

  /** Deleting the four hyphens between five hyphen-free groups, one group at a time. */
  lemma DropHyphens(a: string, b: string, c: string, d: string, e: string)
    requires '-' !in a && '-' !in b && '-' !in c && '-' !in d && '-' !in e
    ensures ReplaceAll(a + "-" + (b + "-" + (c + "-" + (d + "-" + e))), "-", "") == a + (b + (c + (d + e)))
  {
    DropThreeHyphens(b, c, d, e);
    DropHyphenAfter(a, b + "-" + (c + "-" + (d + "-" + e)));
  }

  lemma DropThreeHyphens(b: string, c: string, d: string, e: string)
    requires '-' !in b && '-' !in c && '-' !in d && '-' !in e
    ensures ReplaceAll(b + "-" + (c + "-" + (d + "-" + e)), "-", "") == b + (c + (d + e))
  {
    DropTwoHyphens(c, d, e);
    DropHyphenAfter(b, c + "-" + (d + "-" + e));
  }

  lemma DropTwoHyphens(c: string, d: string, e: string)
    requires '-' !in c && '-' !in d && '-' !in e
    ensures ReplaceAll(c + "-" + (d + "-" + e), "-", "") == c + (d + e)
  {
    DropHyphenAfter(d, e);
    DropHyphenAfter(c, d + "-" + e);
  }

  /** The five groups of a canonical form and the hyphens between them. */
  lemma SplitCanonical(value: string) returns (a: string, b: string, c: string, d: string, e: string)
    requires IsCanonicalV4(value)
    ensures Digits(value) == a + (b + (c + (d + e)))
    ensures '-' !in a && '-' !in b && '-' !in c && '-' !in d && '-' !in e
    ensures value == a + "-" + (b + "-" + (c + "-" + (d + "-" + e)))
  {
    a, b, c, d, e := value[..8], value[9..13], value[14..18], value[19..23], value[24..];
    NoHyphenBetween(value, 0, 8);
    NoHyphenBetween(value, 9, 13);
    NoHyphenBetween(value, 14, 18);
    NoHyphenBetween(value, 19, 23);
    NoHyphenBetween(value, 24, 36);
    assert value[24..36] == e;
  }

  /** A stretch of a canonical form without hyphen positions holds no hyphen. */
  lemma NoHyphenBetween(value: string, lo: int, hi: int)
    requires IsCanonicalV4(value) && 0 <= lo <= hi <= 36
    requires forall i :: lo <= i < hi ==> !IsHyphenPosition(i)
    ensures '-' !in value[lo..hi]
  {
    forall k | 0 <= k < hi - lo ensures value[lo..hi][k] != '-' {
      assert value[lo..hi][k] == value[lo + k];
      assert IsLowerHexDigit(value[lo + k]);
    }
  }
}
