/** The parts of `SAMLConfiguration` that compute on strings
    (api/src/backend/api/models.py:1520-1523, 1563-1577, 1654-1687): the
    e-mail domain is normalised on save and must not contain `@`, and the
    matching allauth `SocialApp` is looked up by its client id and created or
    updated with a truncated client id and name. */
module Saml {
  import opened Common
  import opened Strings
  import opened Accounts

  const DomainError: ValidationError := FieldError("email_domain", "Domain must not contain @")

  /** The `@` check at the start of `SAMLConfiguration.clean`. */
  function CleanEmailDomain(domain: string): (r: Outcome)
    ensures r.Accepted? <==> '@' !in domain
    ensures r.Rejected? ==> r.error == DomainError
  {
    if '@' in domain then Rejected(DomainError) else Accepted
  }

  /** Normalising a domain neither creates nor removes an `@`, so `save` rejects
      exactly the domains typed with one. */
  lemma SaveRejectsAt(domain: string)
    ensures CleanEmailDomain(StripLower(domain)).Accepted? <==> '@' !in domain
  {
    StripKeepsOthers(domain, PyWhitespace, '@');
    LowerKeepsNonLetters(Strip(domain, PyWhitespace), '@');
  }

  /** `self.email_domain[:191]`, the `SocialApp.client_id`. */
  function SocialAppClientId(domain: string): (c: string)
    ensures c <= domain && |c| == if |domain| <= 191 then |domain| else 191
    ensures c == domain <==> |domain| <= 191
  {
    Truncate(domain, 191)
  }

  /** `f"SAML-{self.email_domain}"[:40]`, the `SocialApp.name`. */
  function SocialAppName(domain: string): (n: string)
    ensures n <= "SAML-" + domain && |n| == if |domain| <= 35 then 5 + |domain| else 40
    ensures n[..5] == "SAML-"
    ensures n == "SAML-" + domain <==> |domain| <= 35
  {
    Truncate("SAML-" + domain, 40)
  }

  /** `previous_email_domain or self.email_domain`: the client id the existing app is looked up by. */
  function LookupClientId(previous: Option<string>, domain: string): (c: string)
    ensures previous.Some? && previous.value != "" ==> c == previous.value
    ensures previous.None? || previous.value == "" ==> c == domain
  {
    if previous.Some? && previous.value != "" then previous.value else domain
  }

  /** The app written for a domain is found again by that domain only when no
      truncation happened: a domain longer than 191 characters is looked up
      by a client id no app carries. */
  lemma SyncedAppFoundAgain(domain: string)
    ensures SocialAppClientId(domain) == LookupClientId(None, domain) <==> |domain| <= 191
    ensures SocialAppClientId(domain) == LookupClientId(Some(domain), "") <==> |domain| <= 191
  {
  }

  /** A 192-character domain, which the 254-character `email_domain` field admits:
      the app synced for it is stored under a client id that neither the next
      sync's lookup nor `delete` uses. */
  lemma LongDomainNotFoundAgain() returns (domain: string)
    ensures |domain| == 192 && '@' !in domain
    ensures SocialAppClientId(domain) != LookupClientId(None, domain)
    ensures SocialAppClientId(domain) != LookupClientId(Some(domain), "")
  {
    domain := seq(192, _ => 'a');
    SyncedAppFoundAgain(domain);
  }

  /** The lookup key truncated as the stored client id is. */
  function SyncLookupClientId(previous: Option<string>, domain: string): (c: string)
    ensures previous.Some? && previous.value != "" ==> c == SocialAppClientId(previous.value)
    ensures previous.None? || previous.value == "" ==> c == SocialAppClientId(domain)
  {
    SocialAppClientId(LookupClientId(previous, domain))
  }

  /** With the truncated lookup, the app synced for a domain is found again,
      whether that domain is the current one or the previous one. */
  lemma SyncedAppAlwaysFoundAgain(domain: string, next: string)
    ensures SyncLookupClientId(None, domain) == SocialAppClientId(domain)
    ensures domain != "" ==> SyncLookupClientId(Some(domain), next) == SocialAppClientId(domain)
  {
  }

  /** The fields of an allauth `SocialApp` that the sync writes. */
  class SocialApp {
    var provider: string
    var clientId: string
    var name: string
    var providerId: string

    constructor(provider: string, clientId: string, name: string, providerId: string)
      ensures this.provider == provider && this.clientId == clientId
      ensures this.name == name && this.providerId == providerId
    {
      this.provider := provider;
      this.clientId := clientId;
      this.name := name;
      this.providerId := providerId;
    }
  }

  /** The position of `SocialApp.objects.filter(provider="saml", client_id=clientId).first()`
      among the apps, listed in primary-key order. */
  function FirstSamlApp(apps: seq<SocialApp>, clientId: string): (r: Option<nat>)
    reads apps
    ensures r.Some? ==> r.value < |apps| && apps[r.value].provider == "saml" && apps[r.value].clientId == clientId
    ensures r.Some? ==> forall j :: 0 <= j < r.value ==> !(apps[j].provider == "saml" && apps[j].clientId == clientId)
    ensures r.None? ==> forall j :: 0 <= j < |apps| ==> !(apps[j].provider == "saml" && apps[j].clientId == clientId)
  {
    if apps == [] then None
    else if apps[0].provider == "saml" && apps[0].clientId == clientId then Some(0)
    else
      match FirstSamlApp(apps[1..], clientId)
      case None => None
      case Some(k) => Some(k + 1)
  }

  class SamlConfiguration {
    var emailDomain: string

    constructor(emailDomain: string)
      ensures this.emailDomain == emailDomain
    {
      this.emailDomain := emailDomain;
    }

    /** The first steps of `SAMLConfiguration.save`: normalise the domain, parse
        the metadata (`metadata` is the outcome of `_parse_metadata`, whose
        `metadata_xml` error is raised first), then run the `@` check of `clean`. */
    method Save(metadata: Outcome) returns (r: Outcome)
      modifies this
      ensures emailDomain == StripLower(old(emailDomain))
      ensures metadata.Rejected? ==> r == metadata
      ensures metadata.Accepted? ==> r == CleanEmailDomain(emailDomain)
    {
      emailDomain := StripLower(emailDomain);
      if metadata.Rejected? {
        r := metadata;
      } else {
        r := CleanEmailDomain(emailDomain);
      }
    }

    /** `_sync_social_app(previous_email_domain)`: update the first matching app,
        or create one. */
    method SyncSocialApp(apps: seq<SocialApp>, previous: Option<string>, entityId: string) returns (app: SocialApp)
      modifies set k | 0 <= k < |apps| :: apps[k]
      ensures match old(FirstSamlApp(apps, LookupClientId(previous, emailDomain)))
              case Some(k) => app == apps[k]
              case None => fresh(app) && app.provider == "saml"
      ensures app.clientId == SocialAppClientId(emailDomain) && app.name == SocialAppName(emailDomain)
      ensures app.providerId == entityId
      ensures forall j :: 0 <= j < |apps| && apps[j] != app ==>
        apps[j].provider == old(apps[j].provider) && apps[j].clientId == old(apps[j].clientId)
        && apps[j].name == old(apps[j].name) && apps[j].providerId == old(apps[j].providerId)
      ensures forall j :: 0 <= j < |apps| ==> apps[j].provider == old(apps[j].provider)
    {
      var lookup := LookupClientId(previous, emailDomain);
      var clientId := SocialAppClientId(emailDomain);
      var name := SocialAppName(emailDomain);
      var i := 0;
      while i < |apps| && !(apps[i].provider == "saml" && apps[i].clientId == lookup)
        invariant 0 <= i <= |apps|
        invariant forall j :: 0 <= j < i ==> !(apps[j].provider == "saml" && apps[j].clientId == lookup)
      {
        i := i + 1;
      }
      FirstIsFound(apps, lookup, i);
      if i < |apps| {
        app := apps[i];
        app.clientId := clientId;
        app.name := name;
        app.providerId := entityId;
      } else {
        app := new SocialApp("saml", clientId, name, entityId);
      }
    }
  }

  /** The first position where the query matches is the one FirstSamlApp names. */
  lemma FirstIsFound(apps: seq<SocialApp>, clientId: string, i: nat)
    requires i <= |apps|
    requires forall j :: 0 <= j < i ==> !(apps[j].provider == "saml" && apps[j].clientId == clientId)
    requires i < |apps| ==> apps[i].provider == "saml" && apps[i].clientId == clientId
    ensures FirstSamlApp(apps, clientId) == if i < |apps| then Some(i) else None
  {
  }
}
