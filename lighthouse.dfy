/** `LighthouseConfiguration.clean` and the `api_key_decoded` setter's format
    check (api/src/backend/api/models.py:1789-1834). */
module Lighthouse {
  import opened Common
  import opened Strings
  import opened Regex

  const TemperatureError: ValidationError :=
    ModelError("Temperature must be between 0 and 1", "invalid_temperature", "/data/attributes/temperature")
  const MaxTokensError: ValidationError :=
    ModelError("Max tokens must be between 500 and 5000", "invalid_max_tokens", "/data/attributes/max_tokens")

  /** `clean()`: the temperature bound is checked first, then the `max_tokens` bound.
      The temperature is a finite `float`, read as a real number. */
  function Clean(temperature: real, maxTokens: int): (r: Outcome)
    ensures r.Accepted? <==> 0.0 <= temperature <= 1.0 && 500 <= maxTokens <= 5000
    ensures r.Rejected? ==> r.error == (if 0.0 <= temperature <= 1.0 then MaxTokensError else TemperatureError)
  {
    if !(0.0 <= temperature <= 1.0) then Rejected(TemperatureError)
    else if !(500 <= maxTokens <= 5000) then Rejected(MaxTokensError)
    else Accepted
  }

  const ApiKeyRequired: ValidationError :=
    ModelError("API key is required", "invalid_api_key", "/data/attributes/api_key")
  const ApiKeyMalformed: ValidationError :=
    ModelError("Invalid OpenAI API key format.", "invalid_api_key", "/data/attributes/api_key")

  /** `[\w-]`, ASCII only. */
  predicate IsKeyChar(c: char) { IsWordChar(c) || c == '-' }

  /** The marker every OpenAI key carries. */
  const KeyMarker: string := "T3BlbkFJ"

  /** `^sk-[\w-]+T3BlbkFJ[\w-]+$` */
  const ApiKeyPattern: Re := Cat(Str("sk-"), Middle)
  /** `[\w-]+T3BlbkFJ[\w-]+` */
  const Middle: Re := Cat(AtLeast(Class(IsKeyChar), 1), Cat(Str(KeyMarker), AtLeast(Class(IsKeyChar), 1)))

  /** The marker occurs in `s` at position `p`. */
  predicate MarkerAt(s: string, p: int)
  {
    0 <= p && p + 8 <= |s| && s[p..p + 8] == KeyMarker
  }

  /** An OpenAI key on characters: `sk-`, then key characters only, with the marker
      somewhere after at least one of them and before at least one more. */
  predicate IsApiKeyShape(s: string)
  {
    |s| >= 3 && s[..3] == "sk-" && All(s[3..], IsKeyChar)
    && exists p :: 4 <= p && p + 8 < |s| && MarkerAt(s, p)
  }

  /** The setter's checks, before encryption; `None` and `""` are both falsy. */
  function ValidateApiKey(value: Option<string>): (r: Outcome)
    ensures r.Accepted? <==> value.Some? && IsApiKeyShape(value.value)
    ensures r.Rejected? ==> r.error == (if value.None? || value.value == "" then ApiKeyRequired else ApiKeyMalformed)
  {
    if value.None? || value.value == "" then Rejected(ApiKeyRequired)
    else
      ApiKeyShape(value.value);
      if !Matches(ApiKeyPattern, value.value) then Rejected(ApiKeyMalformed) else Accepted
  }

  /** The marker is made of key characters. */
  lemma MarkerIsKeyChars()
    ensures All(KeyMarker, IsKeyChar)
  {
    assert forall i :: 0 <= i < 8 ==> IsAsciiAlnum(KeyMarker[i]);
  }

  /** Key characters on both sides of a marker, on characters. */
  predicate IsMiddleShape(m: string)
  {
    All(m, IsKeyChar) && exists p :: 1 <= p && p + 8 < |m| && MarkerAt(m, p)
  }

  lemma MiddleMatched(m: string)
    requires Matches(Middle, m)
    ensures IsMiddleShape(m)
  {
    var head := AtLeast(Class(IsKeyChar), 1);
    var tail := Cat(Str(KeyMarker), AtLeast(Class(IsKeyChar), 1));
    CatSplit(head, tail, m);
    var p :| 0 <= p <= |m| && Matches(head, m[..p]) && Matches(tail, m[p..]);
    var rest := m[p..];
    ClassAtLeast(IsKeyChar, 1, m[..p]);
    CatStr(KeyMarker, AtLeast(Class(IsKeyChar), 1), rest);
    ClassAtLeast(IsKeyChar, 1, rest[8..]);
    MarkerIsKeyChars();
    assert m[p..p + 8] == rest[..8];
    assert MarkerAt(m, p);
    AllJoin(m[..p], rest[..8], rest[8..]);
    assert m == m[..p] + rest[..8] + rest[8..];
  }

  lemma MiddleBuilt(m: string, p: int)
    requires All(m, IsKeyChar) && 1 <= p && p + 8 < |m| && MarkerAt(m, p)
    ensures Matches(Middle, m)
  {
    var head := AtLeast(Class(IsKeyChar), 1);
    var tail := Cat(Str(KeyMarker), AtLeast(Class(IsKeyChar), 1));
    var rest := m[p..];
    AllSlice(m, 0, p);
    AllSlice(m, p + 8, |m|);
    ClassAtLeast(IsKeyChar, 1, m[..p]);
    assert rest[..8] == KeyMarker && rest[8..] == m[p + 8..];
    ClassAtLeast(IsKeyChar, 1, m[p + 8..]);
    CatStr(KeyMarker, AtLeast(Class(IsKeyChar), 1), rest);
    assert Matches(head, m[..p]) && Matches(tail, m[p..]);
  }

  /** What the key pattern accepts. */
  lemma ApiKeyShape(s: string)
    ensures Matches(ApiKeyPattern, s) <==> IsApiKeyShape(s)
  {
    CatStr("sk-", Middle, s);
    if |s| >= 3 {
      var m := s[3..];
      if Matches(Middle, m) {
        MiddleMatched(m);
        var p :| 1 <= p && p + 8 < |m| && MarkerAt(m, p);
        assert s[p + 3..p + 3 + 8] == m[p..p + 8];
        assert MarkerAt(s, p + 3);
      }
      if IsApiKeyShape(s) {
        var p :| 4 <= p && p + 8 < |s| && MarkerAt(s, p);
        assert m[p - 3..p - 3 + 8] == s[p..p + 8];
        MiddleBuilt(m, p - 3);
      }
    }
  }

  lemma AllSlice(s: string, i: int, j: int)
    requires 0 <= i <= j <= |s| && All(s, IsKeyChar)
    ensures All(s[i..j], IsKeyChar)
  {
    forall k | 0 <= k < j - i ensures IsKeyChar(s[i..j][k]) { assert s[i..j][k] == s[i + k]; }
  }

  lemma AllJoin(a: string, b: string, c: string)
    requires All(a, IsKeyChar) && All(b, IsKeyChar) && All(c, IsKeyChar)
    ensures All(a + b + c, IsKeyChar)
  {
    var s := a + b + c;
    forall k | 0 <= k < |s| ensures IsKeyChar(s[k]) {
      if k < |a| { assert s[k] == a[k]; }
      else if k < |a| + |b| { assert s[k] == b[k - |a|]; }
      else { assert s[k] == c[k - |a| - |b|]; }
    }
  }
}
