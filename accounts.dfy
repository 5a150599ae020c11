/** E-mail normalisation in `User.save` and `Invitation.save`
    (api/src/backend/api/models.py:140-143, 990-993): a non-empty address is
    stored as `email.strip().lower()`. */
module Accounts {
  import opened Strings

  /** `value.strip().lower()`: surrounding whitespace removed, ASCII letters lowered. */
  function StripLower(value: string): (r: string)
    ensures |r| <= |value|
    ensures r != [] ==> r[0] !in PyWhitespace && r[|r| - 1] !in PyWhitespace
    ensures forall i :: 0 <= i < |r| ==> !IsAsciiUpper(r[i])
  {
    var stripped := Strip(value, PyWhitespace);
    WhitespaceLowerStable();
    Lower(stripped)
  }

  /** Normalising twice is normalising once. */
  lemma StripLowerIdempotent(value: string)
    ensures StripLower(StripLower(value)) == StripLower(value)
  {
    var s := Strip(value, PyWhitespace);
    WhitespaceLowerStable();
    StripLowerCommute(Lower(s), PyWhitespace);
    StripLowerCommute(s, PyWhitespace);
    StripIdempotent(s, PyWhitespace);
    LowerIdempotent(s);
  }

  /** Addresses that differ only in the case of ASCII letters are stored alike. */
  lemma StripLowerIgnoresCase(a: string, b: string)
    requires Lower(a) == Lower(b)
    ensures StripLower(a) == StripLower(b)
  {
    WhitespaceLowerStable();
    StripLowerCommute(a, PyWhitespace);
    StripLowerCommute(b, PyWhitespace);
  }

  /** Whitespace typed around an address does not reach the stored value. */
  lemma StripLowerIgnoresPadding(pre: string, value: string, post: string)
    requires AllIn(pre, PyWhitespace) && AllIn(post, PyWhitespace)
    ensures StripLower(pre + value + post) == StripLower(value)
  {
    StripAbsorbs(pre, value, post, PyWhitespace);
  }

  /** An address with surrounding whitespace is stored as the address itself, lowered. */
  lemma StripLowerKeepsAddress(pre: string, address: string, post: string)
    requires AllIn(pre, PyWhitespace) && AllIn(post, PyWhitespace)
    requires address != [] ==> address[0] !in PyWhitespace && address[|address| - 1] !in PyWhitespace
    ensures StripLower(pre + address + post) == Lower(address)
  {
    StripUnique(pre, address, post, PyWhitespace);
  }

  /** The `email` field of a `User`. */
  class User {
    var email: string

    constructor(email: string)
      ensures this.email == email
    {
      this.email := email;
    }

    /** `User.save`: only a non-empty address is rewritten before the row is written. */
    method Save()
      modifies this
      ensures old(email) != "" ==> email == StripLower(old(email))
      ensures old(email) == "" ==> email == ""
    {
      if email != "" {
        email := StripLower(email);
      }
    }
  }

  /** The `email` field of an `Invitation`. */
  class Invitation {
    var email: string

    constructor(email: string)
      ensures this.email == email
    {
      this.email := email;
    }

    /** `Invitation.save`: the same rewriting as `User.save`. */
    method Save()
      modifies this
      ensures old(email) != "" ==> email == StripLower(old(email))
      ensures old(email) == "" ==> email == ""
    {
      if email != "" {
        email := StripLower(email);
      }
    }
  }
}
