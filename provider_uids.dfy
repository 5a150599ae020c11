/** `Provider.validate_<kind>_uid` and the dispatch in `Provider.clean`
    (api/src/backend/api/models.py:198-302). Each regular-expression
    validator is written as `Matches(<pattern>, value)` over the pattern's
    transcription, and a lemma states, without regular expressions, which
    strings it accepts. */
module ProviderUids {
  import opened Common
  import opened Strings
  import opened Regex
  import DomainNames
  import Uuids

  /** `Provider.ProviderChoices`. */
  datatype ProviderKind = Aws | Azure | Gcp | Kubernetes | M365 | Github

  /** The stored value of each choice, which names its validator. */
  function KindValue(k: ProviderKind): string
  {
    match k
    case Aws => "aws"
    case Azure => "azure"
    case Gcp => "gcp"
    case Kubernetes => "kubernetes"
    case M365 => "m365"
    case Github => "github"
  }

  /** The record being cleaned: its kind and its `uid` field. */
  datatype Provider = Provider(provider: ProviderKind, uid: string)

  const UidPointer: string := "/data/attributes/uid"

  /** `^\d{12}$` */
  const AwsUidPattern: Re := Rep(Class(IsAsciiDigit), 12, 12)

  predicate IsGcpUidChar(c: char) { IsAsciiLower(c) || IsAsciiDigit(c) || c == '-' }
  /** `^[a-z][a-z0-9-]{5,29}$` */
  const GcpUidPattern: Re := Cat(Class(IsAsciiLower), Rep(Class(IsGcpUidChar), 5, 29))

  predicate IsKubernetesUidChar(c: char)
  {
    IsAsciiAlnum(c) || c == '.' || c == '_' || c == '@' || c == ':' || c == '/' || c == '-'
  }
  /** `^[a-zA-Z0-9][a-zA-Z0-9._@:\/-]{1,250}$` */
  const KubernetesUidPattern: Re := Cat(Class(IsAsciiAlnum), Rep(Class(IsKubernetesUidChar), 1, 250))

  /** `^[a-zA-Z0-9][a-zA-Z0-9-]{0,38}$` */
  const GithubUidPattern: Re := Cat(Class(IsAsciiAlnum), Rep(Class(DomainNames.IsAlnumOrHyphen), 0, 38))

  /** A leading class and a bounded run of a second class. */
  lemma HeadThenRange(p: char -> bool, q: char -> bool, lo: nat, hi: nat, s: string)
    ensures Matches(Cat(Class(p), Rep(Class(q), lo, hi)), s)
            <==> lo + 1 <= |s| <= hi + 1 && p(s[0]) && All(s[1..], q)
  {
    CatClass(p, Rep(Class(q), lo, hi), s);
    if |s| >= 1 {
      ClassRange(q, lo, hi, s[1..]);
    }
  }

  const AwsUidDetail: string := "AWS provider ID must be exactly 12 digits."
  const GcpUidDetail: string :=
    "GCP provider ID must be 6 to 30 characters, start with a letter, and contain only lowercase "
    + "letters, numbers, and hyphens."
  const KubernetesUidDetail: string :=
    "The value must either be a valid Kubernetes UID (up to 63 characters, "
    + "starting and ending with a lowercase letter or number, containing only "
    + "lowercase alphanumeric characters and hyphens) or a valid AWS EKS Cluster ARN, GCP GKE Context Name or Azure AKS Cluster Name."
  const M365UidDetail: string := "M365 domain ID must be a valid domain."
  const GithubUidDetail: string :=
    "GitHub provider ID must be a valid GitHub username or organization name (1-39 characters, "
    + "starting with alphanumeric, containing only alphanumeric characters and hyphens)."

  /** `validate_aws_uid`: exactly twelve decimal digits. */
  function ValidateAwsUid(value: string): (r: Outcome)
    ensures r.Accepted? <==> |value| == 12 && All(value, IsAsciiDigit)
    ensures r.Rejected? ==> r.error == ModelError(AwsUidDetail, "aws-uid", UidPointer)
  {
    ClassRange(IsAsciiDigit, 12, 12, value);
    if Matches(AwsUidPattern, value) then Accepted else Rejected(ModelError(AwsUidDetail, "aws-uid", UidPointer))
  }

  /** `validate_gcp_uid`: 6 to 30 characters, a lowercase letter first, then lowercase letters, digits and hyphens. */
  function ValidateGcpUid(value: string): (r: Outcome)
    ensures r.Accepted? <==> 6 <= |value| <= 30 && IsAsciiLower(value[0]) && All(value[1..], IsGcpUidChar)
    ensures r.Rejected? ==> r.error == ModelError(GcpUidDetail, "gcp-uid", UidPointer)
  {
    HeadThenRange(IsAsciiLower, IsGcpUidChar, 5, 29, value);
    if Matches(GcpUidPattern, value) then Accepted else Rejected(ModelError(GcpUidDetail, "gcp-uid", UidPointer))
  }

  /** `validate_kubernetes_uid`: 2 to 251 characters, a letter or digit first, then letters, digits and `._@:/-`. */
  function ValidateKubernetesUid(value: string): (r: Outcome)
    ensures r.Accepted? <==> 2 <= |value| <= 251 && IsAsciiAlnum(value[0]) && All(value[1..], IsKubernetesUidChar)
    ensures r.Rejected? ==> r.error == ModelError(KubernetesUidDetail, "kubernetes-uid", UidPointer)
  {
    HeadThenRange(IsAsciiAlnum, IsKubernetesUidChar, 1, 250, value);
    if Matches(KubernetesUidPattern, value) then Accepted
    else Rejected(ModelError(KubernetesUidDetail, "kubernetes-uid", UidPointer))
  }

  /** `validate_github_uid`: 1 to 39 characters, a letter or digit first, then letters, digits and hyphens. */
  function ValidateGithubUid(value: string): (r: Outcome)
    ensures r.Accepted? <==> 1 <= |value| <= 39 && IsAsciiAlnum(value[0]) && All(value[1..], DomainNames.IsAlnumOrHyphen)
    ensures r.Rejected? ==> r.error == ModelError(GithubUidDetail, "github-uid", UidPointer)
  {
    HeadThenRange(IsAsciiAlnum, DomainNames.IsAlnumOrHyphen, 0, 38, value);
    if Matches(GithubUidPattern, value) then Accepted else Rejected(ModelError(GithubUidDetail, "github-uid", UidPointer))
  }

  /** `validate_m365_uid`: dot-separated DNS labels ending in an alphabetic top-level part. */
  function ValidateM365Uid(value: string): (r: Outcome)
    ensures r.Accepted? <==> DomainNames.IsDomainName(value)
    ensures r.Rejected? ==> r.error == ModelError(M365UidDetail, "m365-uid", UidPointer)
  {
    DomainNames.DomainShape(value);
    if Matches(DomainNames.DomainPattern, value) then Accepted else Rejected(ModelError(M365UidDetail, "m365-uid", UidPointer))
  }

  /** What each kind accepts, stated on characters. */
  predicate IsValidUid(kind: ProviderKind, uid: string)
  {
    match kind
    case Aws => |uid| == 12 && All(uid, IsAsciiDigit)
    case Azure => Uuids.IsCanonicalV4(uid)
    case Gcp => 6 <= |uid| <= 30 && IsAsciiLower(uid[0]) && All(uid[1..], IsGcpUidChar)
    case Kubernetes => 2 <= |uid| <= 251 && IsAsciiAlnum(uid[0]) && All(uid[1..], IsKubernetesUidChar)
    case M365 => DomainNames.IsDomainName(uid)
    case Github => 1 <= |uid| <= 39 && IsAsciiAlnum(uid[0]) && All(uid[1..], DomainNames.IsAlnumOrHyphen)
  }

  /** `Provider.clean`: the validator named after the provider kind. */
  function Clean(p: Provider): (r: Outcome)
    ensures r.Accepted? <==> IsValidUid(p.provider, p.uid)
    ensures r.Rejected? ==> (r.error.ModelError? && r.error.code == KindValue(p.provider) + "-uid"
                             && r.error.pointer == UidPointer)
  {
    match p.provider
    case Aws => ValidateAwsUid(p.uid)
    case Azure => Uuids.ValidateAzureUid(p.uid)
    case Gcp => ValidateGcpUid(p.uid)
    case Kubernetes => ValidateKubernetesUid(p.uid)
    case M365 => ValidateM365Uid(p.uid)
    case Github => ValidateGithubUid(p.uid)
  }

  /** `validate_aws_uid` under Python's reading of `$`, which also matches
      before one final newline. */
  function ValidateAwsUidAsWritten(value: string): (r: Outcome)
    ensures r.Accepted? <==> (ValidateAwsUid(value).Accepted?
                              || (|value| == 13 && value[12] == '\n' && All(value[..12], IsAsciiDigit)))
  {
    AwsAsWrittenShape(value);
    if MatchesAsWritten(AwsUidPattern, value) then Accepted else Rejected(ModelError(AwsUidDetail, "aws-uid", UidPointer))
  }

  lemma AwsAsWrittenShape(value: string)
    ensures MatchesAsWritten(AwsUidPattern, value)
            <==> (|value| == 12 && All(value, IsAsciiDigit))
                 || (|value| == 13 && value[12] == '\n' && All(value[..12], IsAsciiDigit))
  {
    ClassRange(IsAsciiDigit, 12, 12, value);
    if |value| > 0 { ClassRange(IsAsciiDigit, 12, 12, value[..|value| - 1]); }
  }

  /** Twelve digits and a newline pass the validator as written, though they
      are not twelve digits. */
  lemma AwsTrailingNewline()
    ensures ValidateAwsUidAsWritten("123456789012\n").Accepted?
    ensures ValidateAwsUid("123456789012\n").Rejected?
  {
    assert All("123456789012\n"[..12], IsAsciiDigit);
  }

  /** The same holds for every regular-expression validator: whatever it
      accepts, it also accepts with a newline appended when `$` is read as Python does. */
  lemma {:induction false} TrailingNewlineAccepted(re: Re, s: string)
    requires Matches(re, s)
    ensures MatchesAsWritten(re, s + "\n")
  {
    assert (s + "\n")[..|s + "\n"| - 1] == s;
  }
}
