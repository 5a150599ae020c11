# Prowler: verified model of the API validators and two security checks

This project models three parts of Prowler, a cloud security scanner, each with proved contracts.

- **Two checks.** Each walks cached provider state and emits one PASS/FAIL report per resource:
  - `vm_ensure_using_managed_disks` (Azure): a VM passes when its OS disk and every data disk are managed disks.
  - `iam_policy_no_full_access_to_kms` (AWS): every customer-managed ("Custom") IAM policy is reported, and it fails when its document grants `kms:*`.
- **The API's model-level validation.** This covers:
  - the provider UID validators behind `Provider.clean`: AWS account ids, Azure subscription UUIDs, GCP project ids, Kubernetes contexts, M365 domains and GitHub accounts;
  - a role's three-valued permission state and the query that filters roles by it;
  - email normalisation on save;
  - the SAML configuration's `@` check and the truncated SocialApp client id and name;
  - the Lighthouse configuration's `temperature` and `max_tokens` bounds and the OpenAI API-key format check.
- **`Finding.add_resources`.** It merges the regions, services and types of a finding's resources into the finding's three arrays, without duplicates.

## How the model is organised

- `common.dfy`:
  - `Option`; the two error shapes (`ModelError(detail, code, pointer)` and the field-keyed `FieldError`);
  - decoded JSON with Python truthiness;
  - an insertion-ordered dictionary seen as `seq<(K, V)>`, with `Values` and `Filter`.
- `strings.dfy`: the Python string operations used, on `seq<char>`:
  - `str.strip()`, over the full `str.isspace` set;
  - `str.lower()`, ASCII only;
  - `str.split(c)`, `str.replace` and slicing `[:n]`.
- `regex.dfy`: a small regular-expression syntax and `Matches`, the full-match meaning of `re.match(r"^P$", s)`. `MatchesAsWritten` is Python's reading of `$`.
- `domain_names.dfy`: the M365 domain pattern, proved equal to a description without regular expressions: dot-separated DNS labels, then an alphabetic top-level part.
- `uuids.dfy`: `uuid.UUID(value, version=4)` and `str()` over 32 hex digits, proved to accept exactly the canonical lowercase version-4 form.
- `provider_uids.dfy`: the six `validate_*_uid` validators and `Provider.clean`.
- `roles.dfy`, `accounts.dfy`, `saml.dfy`, `lighthouse.dfy`, `findings.dfy`: the remaining model code.
- `vm_managed_disks.dfy`, `iam_kms.dfy`: the two checks as imperative methods. Each is proved equal to a specification function, and lemmas state the check's properties about that function.

Models of stateful code:

- `User.save`, `Invitation.save` and `SAMLConfiguration.save` are methods on classes with the mutated field.
- `add_resources` is a method on a `Finding` class.
- `_sync_social_app` is a method that updates the first matching `SocialApp` object in place, or creates a new one.

Inputs that come from outside:

- The check's client state is a parameter: `vm_client.virtual_machines` and `iam_client.policies`/`region`.
- The predicate `check_full_service_access` is a parameter, `fullAccess`. Its source is not part of this model.
- The SocialApp table that `_sync_social_app` queries is a sequence of objects passed in.

## Model

| member | source | states |
|---|---|---|
| ProviderUids.ValidateAwsUid | api/src/backend/api/models.py:210-217 | accepts exactly 12 ASCII digits; otherwise the AWS error with code `aws-uid` and pointer `/data/attributes/uid` |
| ProviderUids.ValidateGcpUid | api/src/backend/api/models.py:245-253 | accepts exactly 6-30 characters starting with `a-z`, rest in `a-z0-9-`; otherwise the GCP error |
| ProviderUids.ValidateKubernetesUid | api/src/backend/api/models.py:255-267 | accepts exactly 2-251 characters starting alphanumeric, rest in `a-zA-Z0-9._@:/-`; otherwise the Kubernetes error |
| ProviderUids.ValidateGithubUid | api/src/backend/api/models.py:269-277 | accepts exactly 1-39 characters starting alphanumeric, rest alphanumeric or `-`; otherwise the GitHub error |
| ProviderUids.ValidateM365Uid | api/src/backend/api/models.py:232-243 | accepts exactly the domain names (at least two dot-separated parts, DNS labels then a top-level part of 2+ letters); otherwise the M365 error |
| ProviderUids.HeadThenRange | api/src/backend/api/models.py:247 | a pattern `[p][q]{lo,hi}` matches iff length is lo+1..hi+1, first char in p, the rest in q |
| ProviderUids.Clean | api/src/backend/api/models.py:300-302 | dispatch on the provider kind: accepted iff the uid is valid for that kind; a rejection has code `<kind>-uid` and the uid pointer |
| Regex.Matches | api/src/backend/api/models.py:212 | the meaning of `re.match(r"^P$", s)` with `$` as end of string: `P` matches all of `s` (a definition, without a contract) |
| Regex.MatchesAsWritten | api/src/backend/api/models.py:212 | Python's reading of `$` accepts whatever the full match accepts, and agrees with it on every string not ending in a newline |
| ProviderUids.ValidateAwsUidAsWritten | api/src/backend/api/models.py:210-217 | with Python's `$`, the AWS validator also accepts 12 digits followed by one newline |
| ProviderUids.AwsAsWrittenShape | api/src/backend/api/models.py:212 | what `^\d{12}$` accepts under Python's `$`: 12 digits, or 12 digits and a final newline |
| ProviderUids.AwsTrailingNewline | api/src/backend/api/models.py:212 | `"123456789012\n"` is accepted as written and rejected by the intended validator |
| ProviderUids.TrailingNewlineAccepted | api/src/backend/api/models.py:212 | any string a pattern matches is accepted by `re.match(^P$)` with one newline appended |
| Uuids.ValidateAzureUid | api/src/backend/api/models.py:219-230 | accepted iff the value is the canonical version-4 form (36 chars, hyphens at 8/13/18/23, lowercase hex, `4` at 14, `89ab` at 19); otherwise the Azure error |
| Uuids.AzureShape | api/src/backend/api/models.py:221-223 | parse, force version 4, print and compare succeeds exactly on canonical version-4 strings |
| Uuids.ParseHex | api/src/backend/api/models.py:221 | `int(h, 16)` succeeds iff every char is a hex digit, with each digit's value |
| Uuids.HexPart | api/src/backend/api/models.py:221 | removing the `urn:`/`uuid:` prefixes, the braces and the hyphens leaves no hyphen |
| Uuids.Parse | api/src/backend/api/models.py:221 | succeeds iff the cleaned value is exactly 32 hex digits; the result is those digits' values, in order |
| Uuids.WithVersion4 | api/src/backend/api/models.py:221 | `version=4` sets digit 12 to 4 and the variant bits of digit 16 to `10`, keeping its two low bits; other digits unchanged |
| Uuids.HexString | api/src/backend/api/models.py:222 | printing gives one lowercase hex digit per nibble: digit i is the character for nibble i |
| Uuids.Format | api/src/backend/api/models.py:222-223 | `str(uuid)` is 36 characters: hyphens at 8, 13, 18 and 23, the 32 digits in order elsewhere |
| Uuids.HexDigitRoundTrip | api/src/backend/api/models.py:221-222 | printing a parsed lowercase hex digit gives it back |
| Uuids.PrintedIsCanonical | api/src/backend/api/models.py:222 | whatever the version-4 adjustment yields prints in canonical version-4 form |
| Uuids.CanonicalParses | api/src/backend/api/models.py:221-222 | a canonical version-4 form parses and prints back unchanged |
| Uuids.CanonicalHexPart | api/src/backend/api/models.py:221 | on a canonical form, prefix removal, brace stripping and hyphen removal leave exactly its 32 digits |
| Uuids.VersionKept | api/src/backend/api/models.py:221 | the version-4 adjustment leaves a canonical form's digits unchanged |
| DomainNames.DomainShape | api/src/backend/api/models.py:234-237 | the M365 pattern matches a string iff it is a domain name (both directions) |
| DomainNames.PatternGivesDomain | api/src/backend/api/models.py:234-237 | every string the pattern matches is a domain name |
| DomainNames.DomainGivesPattern | api/src/backend/api/models.py:234-237 | every domain name is matched by the pattern |
| DomainNames.LabelShape | api/src/backend/api/models.py:235 | `[A-Za-z0-9](?:[A-Za-z0-9-]{0,61}[A-Za-z0-9])?` matches exactly the DNS labels |
| DomainNames.TopLevelShape | api/src/backend/api/models.py:236 | `[A-Za-z]{2,}` matches exactly two or more ASCII letters |
| DomainNames.TailFromSplit | api/src/backend/api/models.py:235-236 | a dot followed by labels and a top-level part matches the pattern's tail |
| DomainNames.ChainSplits | api/src/backend/api/models.py:235-236 | a label, `.label`s, a dot and a top-level part split into a domain name's parts |
| Roles.PermissionStateOf | api/src/backend/api/models.py:1037-1054 | UNLIMITED iff all six permission flags, NONE iff none of them, LIMITED iff some but not all |
| Roles.FilterByPermissionState | api/src/backend/api/models.py:1056-1066 | the filter equals selecting, in order, the roles whose permission state is the requested one (any other value means LIMITED) |
| Roles.FilterSelectsState | api/src/backend/api/models.py:1056-1066 | a role is in the filtered result for a state iff it is in the input and has that state |
| Roles.FiltersPartition | api/src/backend/api/models.py:1046-1066 | every role is selected by exactly one of the three filters |
| Accounts.StripLower | api/src/backend/api/models.py:142 | `strip().lower()` leaves no surrounding whitespace and no ASCII capital and never lengthens |
| Accounts.StripLowerIdempotent | api/src/backend/api/models.py:142 | normalising twice is the same as once |
| Accounts.StripLowerIgnoresCase | api/src/backend/api/models.py:142 | emails differing only in ASCII case normalise to the same value |
| Accounts.StripLowerKeepsAddress | api/src/backend/api/models.py:142 | whitespace around an address with non-whitespace ends normalises to the lowered address |
| Accounts.StripLowerIgnoresPadding | api/src/backend/api/models.py:142 | surrounding whitespace does not change the normalised value |
| Accounts.User.Save | api/src/backend/api/models.py:140-143 | a non-empty email is replaced by its normalisation; an empty one is kept |
| Accounts.Invitation.Save | api/src/backend/api/models.py:990-993 | a non-empty email is replaced by its normalisation; an empty one is kept |
| Strings.Strip | api/src/backend/api/models.py:142 | `str.strip()` result: no longer than the input, neither end is whitespace |
| Strings.StripUnique | api/src/backend/api/models.py:142 | whitespace around a string with non-whitespace ends strips to that string |
| Strings.StripIdempotent | api/src/backend/api/models.py:142 | stripping twice is the same as once |
| Strings.StripKeepsOthers | api/src/backend/api/models.py:1564 | stripping keeps or drops no non-whitespace character such as `@` |
| Strings.StripLowerCommute | api/src/backend/api/models.py:142 | lowering and stripping commute |
| Strings.Lower | api/src/backend/api/models.py:142 | `str.lower()` maps each character: same length, pointwise |
| Strings.LowerIdempotent | api/src/backend/api/models.py:142 | lowering twice is the same as once |
| Strings.LowerKeepsNonLetters | api/src/backend/api/models.py:1564 | lowering keeps or adds no non-letter such as `@` |
| Strings.DeleteCharRemoves | api/src/backend/api/models.py:221 | `s.replace(c, "")` leaves no `c` and never lengthens |
| Strings.Truncate | api/src/backend/api/models.py:1668-1669 | `s[:n]` is a prefix of length min(\|s\|, n) |
| Saml.CleanEmailDomain | api/src/backend/api/models.py:1520-1523 | accepted iff the domain has no `@`; otherwise the `email_domain` field error |
| Saml.SaveRejectsAt | api/src/backend/api/models.py:1564-1576 | after normalisation, the `@` check accepts iff the original domain had no `@` |
| Saml.SamlConfiguration.Save | api/src/backend/api/models.py:1563-1576 | the email domain becomes its `strip().lower()`; a metadata error is raised first; otherwise the outcome is the `@` check on the normalised domain |
| Saml.SocialAppClientId | api/src/backend/api/models.py:1668 | a prefix of the domain of length min(\|domain\|, 191), equal to it iff the domain has at most 191 chars |
| Saml.SocialAppName | api/src/backend/api/models.py:1669 | starts with `SAML-`, a prefix of `SAML-<domain>` of length min(5 + \|domain\|, 40), complete iff the domain has at most 35 chars |
| Saml.LookupClientId | api/src/backend/api/models.py:1664-1666 | the lookup key is the previous domain when one is given and non-empty; otherwise (none, or empty) it is the current domain |
| Saml.SyncedAppFoundAgain | api/src/backend/api/models.py:1664-1668 | with no previous domain, or with the domain itself as the previous one, the stored client id is the lookup key again iff the domain has at most 191 chars |
| Saml.LongDomainNotFoundAgain | api/src/backend/api/models.py:1664-1668 | a 192-character domain without `@` gets a client id that the next lookup does not find |
| Saml.SyncLookupClientId | api/src/backend/api/models.py:1664-1668 | the lookup key truncated like the stored client id: the previous domain's client id when one is given and non-empty, else the current domain's |
| Saml.SyncedAppAlwaysFoundAgain | api/src/backend/api/models.py:1664-1668 | with the truncated lookup, the stored client id is found again for every domain, with or without a previous domain |
| Saml.FirstSamlApp | api/src/backend/api/models.py:1671-1672 | `.first()`: the least index of a `saml` app with the client id, or none when there is no such app |
| Saml.FirstIsFound | api/src/backend/api/models.py:1671-1672 | a scan that stops at the first matching app finds what `FirstSamlApp` names |
| Saml.SamlConfiguration.SyncSocialApp | api/src/backend/api/models.py:1654-1687 | updates the first matching app, or else creates a new `saml` app; either way client id, name and provider id are set; no other app changes |
| Lighthouse.Clean | api/src/backend/api/models.py:1789-1806 | accepted iff 0 <= temperature <= 1 and 500 <= max_tokens <= 5000; temperature is checked first, each with its own error |
| Lighthouse.ValidateApiKey | api/src/backend/api/models.py:1823-1841 | a missing or empty key is "API key is required"; otherwise accepted iff `sk-`, key chars (`\w` or `-`), and `T3BlbkFJ` with at least one key char on each side |
| Lighthouse.ApiKeyShape | api/src/backend/api/models.py:1834-1835 | `^sk-[\w-]+T3BlbkFJ[\w-]+$` matches exactly the key shape described without regexes |
| Lighthouse.MiddleMatched | api/src/backend/api/models.py:1834 | what `[\w-]+T3BlbkFJ[\w-]+` matches is key chars with the marker strictly inside |
| Lighthouse.MiddleBuilt | api/src/backend/api/models.py:1834 | key chars with the marker strictly inside are matched by `[\w-]+T3BlbkFJ[\w-]+` |
| Findings.Regions | api/src/backend/api/models.py:834-838 | the set of the resources' regions |
| Findings.SetToList | api/src/backend/api/models.py:840-842 | `list(set)`: no duplicates, exactly the set's elements |
| Findings.AttributesSnoc | api/src/backend/api/models.py:834-838 | one more resource adds its region, service and type to the sets |
| Findings.Finding.AddResources | api/src/backend/api/models.py:819-843 | None or `[]` changes nothing; otherwise each array is duplicate-free and, as a set, the old array (None as empty) united with the resources' values |
| VmManagedDisks.ManagedDiskFlag | prowler/providers/azure/services/vm/vm_ensure_using_managed_disks/vm_ensure_using_managed_disks.py:16-30 | the flag loop with its `break` computes exactly whether the OS disk and all data disks are managed |
| VmManagedDisks.Execute | prowler/providers/azure/services/vm/vm_ensure_using_managed_disks/vm_ensure_using_managed_disks.py:6-38 | the findings are the reports for every (subscription, VM) pair, in subscription then VM order |
| VmManagedDisks.Pairs | prowler/providers/azure/services/vm/vm_ensure_using_managed_disks/vm_ensure_using_managed_disks.py:10-13 | each VM of a subscription is paired with that subscription's key |
| VmManagedDisks.Reports | prowler/providers/azure/services/vm/vm_ensure_using_managed_disks/vm_ensure_using_managed_disks.py:11-36 | one report per pair, in the pairs' order |
| VmManagedDisks.FlattenLength | prowler/providers/azure/services/vm/vm_ensure_using_managed_disks/vm_ensure_using_managed_disks.py:9-13 | one (subscription, VM) pair per VM over all subscriptions |
| VmManagedDisks.ReportCount | prowler/providers/azure/services/vm/vm_ensure_using_managed_disks/vm_ensure_using_managed_disks.py:9-38 | as many findings as VMs over all subscriptions; none exactly when there is no VM |
| VmManagedDisks.TotalVmsSnoc | prowler/providers/azure/services/vm/vm_ensure_using_managed_disks/vm_ensure_using_managed_disks.py:9-10 | one more subscription adds its VM count |
| VmManagedDisks.PairsSnoc | prowler/providers/azure/services/vm/vm_ensure_using_managed_disks/vm_ensure_using_managed_disks.py:10-36 | appending one VM's report extends the reports of the pairs so far |
| VmManagedDisks.FindingPosition | prowler/providers/azure/services/vm/vm_ensure_using_managed_disks/vm_ensure_using_managed_disks.py:9-36 | the j-th VM of the i-th subscription is reported at position (VMs before subscription i) + j, under its own subscription key |
| VmManagedDisks.ReportFor | prowler/providers/azure/services/vm/vm_ensure_using_managed_disks/vm_ensure_using_managed_disks.py:11-34 | PASS iff managed disks are used; the message is `VM <name> is using` (or `is not using`) `managed disks in subscription <key>`; subscription and resource kept |
| VmManagedDisks.MissingOsDiskFails | prowler/providers/azure/services/vm/vm_ensure_using_managed_disks/vm_ensure_using_managed_disks.py:16-34 | no storage profile, or no OS disk, means FAIL |
| VmManagedDisks.UnmanagedDataDiskFails | prowler/providers/azure/services/vm/vm_ensure_using_managed_disks/vm_ensure_using_managed_disks.py:26-34 | one unmanaged data disk at any index means FAIL |
| IamKms.Execute | prowler/providers/aws/services/iam/iam_policy_no_full_access_to_kms/iam_policy_no_full_access_to_kms.py:9-25 | the findings are the reports of the Custom policies, in dictionary order |
| IamKms.Reports | prowler/providers/aws/services/iam/iam_policy_no_full_access_to_kms/iam_policy_no_full_access_to_kms.py:14-24 | one report per policy, in order |
| IamKms.ReportsSnoc | prowler/providers/aws/services/iam/iam_policy_no_full_access_to_kms/iam_policy_no_full_access_to_kms.py:11-24 | reporting one more policy appends its report |
| IamKms.ReportsCoverCustomPolicies | prowler/providers/aws/services/iam/iam_policy_no_full_access_to_kms/iam_policy_no_full_access_to_kms.py:11-24 | every report is about a Custom policy of the map, in the client's region; every Custom policy is reported |
| IamKms.ReportCount | prowler/providers/aws/services/iam/iam_policy_no_full_access_to_kms/iam_policy_no_full_access_to_kms.py:11-24 | as many reports as Custom policies |
| IamKms.GrantsFullAccess | prowler/providers/aws/services/iam/iam_policy_no_full_access_to_kms/iam_policy_no_full_access_to_kms.py:18-20 | the full-access predicate is consulted only for a present, truthy document, and then decides alone |
| IamKms.ReportFor | prowler/providers/aws/services/iam/iam_policy_no_full_access_to_kms/iam_policy_no_full_access_to_kms.py:5-22 | FAIL iff the document is present, truthy and grants `kms:*`; the message is `Custom Policy <name> allows` (or `does not allow`) `'kms:*' privileges.`; region and resource kept |
| IamKms.EmptyDocumentPasses | prowler/providers/aws/services/iam/iam_policy_no_full_access_to_kms/iam_policy_no_full_access_to_kms.py:18 | an absent or empty document is PASS, whatever the full-access predicate says |
| Common.Values | prowler/providers/aws/services/iam/iam_policy_no_full_access_to_kms/iam_policy_no_full_access_to_kms.py:11 | `dict.values()` in insertion order |
| Common.Filter | prowler/providers/aws/services/iam/iam_policy_no_full_access_to_kms/iam_policy_no_full_access_to_kms.py:11-13 | the elements satisfying the predicate, no more than the input |
| Common.FilterSnoc | prowler/providers/aws/services/iam/iam_policy_no_full_access_to_kms/iam_policy_no_full_access_to_kms.py:11-13 | filtering one more element appends it iff it satisfies the predicate |

## Left out

- Django persistence. This covers `super().save()`, `full_clean()`, querysets and managers, `update_or_create` of `ResourceFindingMapping`, `social_app.save()` and `sites.set`, constraints and row-level security. It has no local semantics; the methods model only the field updates.
- `SAMLConfiguration.clean`'s per-tenant, email-domain and entity-id uniqueness checks. They are database queries; only the `@` check is modelled.
- `_parse_metadata` (XML parsing) and the `settings` dictionary given to the SocialApp. The entity id is a parameter.
- Saml.SamlConfiguration.Save: the outcome of `_parse_metadata` is a parameter, whose rejection surfaces before `clean`. The update of the email domain and the `@` check are modelled. Left out are the existence query for `is_create`, the old values, `clean`'s uniqueness queries, `super().save()`, the conditional `_sync_social_app` call and the `SAMLDomainIndex` updates.
- `SAMLConfiguration.delete`. It removes the SocialApp by the full email domain, which is persistence only; the second finding below covers its key.
- Fernet encryption of the API key and its decoding. These are library calls; only the format check before encryption is modelled.
- `check_full_service_access`. Its source is not part of this model; it is a parameter.
- VmManagedDisks: `storage_profile.data_disks` is a sequence, so `None` cannot be represented. The source would raise `TypeError` when iterating it at line 27. The VM record's source is not part of this model.
- `metadata()`, the `Check_Report_*` constructors and other report fields. A report is a record holding status, message, subscription or region, and resource.
- The `vm_client` and `iam_client` singletons. Their state is passed in.
- `Provider.save`/`full_clean`, the uid's `max_length=250` and `MinLengthValidator(3)` field validators, and the `AttributeError` that `getattr` raises for a provider kind without a validator. The kind is a closed datatype, so that case cannot arise.
- `Lighthouse.Clean`: temperatures are real numbers. NaN and infinities are not modelled; a NaN would fail both comparisons in Python and be rejected.
- Unicode. `\d`, `\w` and `str.lower()` are ASCII only here; Python also accepts non-ASCII digits and letters and lowers non-ASCII capitals.
- `Regex.Matches` reads `$` as end of string. Python's `$` also matches before one final newline; `MatchesAsWritten` states Python's reading, and the finding below shows its effect.
- `Uuids.ParseHex`: `int(h, 16)` also tolerates a sign, a `0x` prefix, underscores and surrounding whitespace. These are not modelled; a value carrying any of them can never equal the printed canonical form, so the validator's outcome is the same.
- `Findings.SetToList`: `list(set)` order is arbitrary in Python. The model picks any order, and the contract states only the elements and the absence of duplicates.
- `Findings.Finding.AddResources`: `self.save()` and the resource-to-finding mapping rows are left out.
- `Saml.SamlConfiguration.SyncSocialApp`: the new app's `settings`, `sites` and its insertion into the SocialApp table are left out. The contract states the fields it sets and that no other app changes. It looks up by the key as written (`LookupClientId`); the second finding below gives the corrected key.
- The monitor storage-account test file. The check it exercises is not part of this model.

## Findings

| source | as written | input that shows it | evidently intended | confidence | as-written member | corrected member |
|---|---|---|---|---|---|---|
| api/src/backend/api/models.py:212 | `re.match(r"^\d{12}$", value)` accepts 12 digits followed by a newline, since Python's `$` matches before a final newline | `"123456789012\n"` | exactly 12 digits (`re.fullmatch` or `\Z`); the other `^...$` validators share the behaviour | low, not executed; serializers may strip whitespace before the model sees the value | ProviderUids.ValidateAwsUidAsWritten | ProviderUids.ValidateAwsUid |
| api/src/backend/api/models.py:1664-1668 | the SocialApp is stored with `client_id = email_domain[:191]`, but looked up (and deleted, line 1597) by the full domain, while the field allows 254 characters | a 192-character domain: each sync finds no app and creates another one | look up by the key as stored, `(previous_email_domain or email_domain)[:191]` | low, not executed; assumes domains longer than 191 characters reach `save` | Saml.LongDomainNotFoundAgain | Saml.SyncedAppAlwaysFoundAgain |
