/** The AWS check `iam_policy_no_full_access_to_kms`
    (prowler/providers/aws/services/iam/iam_policy_no_full_access_to_kms/iam_policy_no_full_access_to_kms.py):
    one report per customer-managed policy, FAIL when its document grants
    `kms:*`. The policies come in as the `policies` dictionary of the IAM
    client, the client's region as a parameter, and
    `check_full_service_access` as the predicate `fullAccess`. */
module IamKms {
  import opened Common

  /** A cached IAM policy; `document` is the decoded policy document, if any. */
  datatype Policy = Policy(name: string, arn: string, policyType: string, document: Option<Json>)

  datatype Status = Pass | Fail

  /** The fields of a `Check_Report_AWS` the check sets; `resource` is the policy it was built from. */
  datatype Report = Report(status: Status, statusExtended: string, region: string, resource: Policy)

  const CriticalService: string := "kms"

  predicate IsCustom(p: Policy) { p.policyType == "Custom" }

  /** `policy.document and check_full_service_access("kms", policy.document)`. */
  predicate GrantsFullAccess(p: Policy, fullAccess: (string, Json) -> bool): (b: bool)
    ensures b ==> p.document.Some? && Truthy(p.document.value)
    ensures p.document.Some? && Truthy(p.document.value) ==> (b <==> fullAccess("kms", p.document.value))
  {
    p.document.Some? && Truthy(p.document.value) && fullAccess(CriticalService, p.document.value)
  }

  function PassMessage(p: Policy): string
  {
    "Custom Policy " + p.name + " does not allow" + " '" + CriticalService + ":*' privileges."
  }

  function FailMessage(p: Policy): string
  {
    "Custom Policy " + p.name + " allows" + " '" + CriticalService + ":*' privileges."
  }

  /** The report the check owes one custom policy: FAIL exactly when its
      document is present, non-empty and grants `kms:*`, with the message for
      that status. */
  function ReportFor(p: Policy, region: string, fullAccess: (string, Json) -> bool): (r: Report)
    ensures r.region == region && r.resource == p
    ensures r.status == Fail <==> p.document.Some? && Truthy(p.document.value) && fullAccess("kms", p.document.value)
    ensures r.statusExtended
            == "Custom Policy " + p.name + (if r.status == Fail then " allows" else " does not allow")
               + " '" + CriticalService + ":*' privileges."
  {
    if GrantsFullAccess(p, fullAccess) then Report(Fail, FailMessage(p), region, p)
    else Report(Pass, PassMessage(p), region, p)
  }

  function Reports(ps: seq<Policy>, region: string, fullAccess: (string, Json) -> bool): (rs: seq<Report>)
    ensures |rs| == |ps| && forall k :: 0 <= k < |ps| ==> rs[k] == ReportFor(ps[k], region, fullAccess)
  {
    seq(|ps|, k requires 0 <= k < |ps| => ReportFor(ps[k], region, fullAccess))
  }

  /** `execute()`. */
  method Execute(policies: Items<string, Policy>, region: string, fullAccess: (string, Json) -> bool)
    returns (findings: seq<Report>)
    ensures findings == Reports(Filter(Values(policies), IsCustom), region, fullAccess)
  {
    var values := Values(policies);
    findings := [];
    var i := 0;
    while i < |values|
      invariant 0 <= i <= |values|
      invariant findings == Reports(Filter(values[..i], IsCustom), region, fullAccess)
    {
      var policy := values[i];
      ghost var before := Filter(values[..i], IsCustom);
      assert Filter(values[..i + 1], IsCustom) == before + (if IsCustom(policy) then [policy] else []) by {
        assert values[..i + 1] == values[..i] + [policy];
        FilterSnoc(values[..i], policy, IsCustom);
      }
      if policy.policyType == "Custom" {
        var report := Report(Pass, PassMessage(policy), region, policy);
        if policy.document.Some? && Truthy(policy.document.value) && fullAccess(CriticalService, policy.document.value) {
          report := report.(status := Fail, statusExtended := FailMessage(policy));
        }
        ReportsSnoc(before, policy, region, fullAccess);
        findings := findings + [report];
      }
      i := i + 1;
    }
    assert values[..i] == values;
  }

  lemma ReportsSnoc(ps: seq<Policy>, p: Policy, region: string, fullAccess: (string, Json) -> bool)
    ensures Reports(ps + [p], region, fullAccess) == Reports(ps, region, fullAccess) + [ReportFor(p, region, fullAccess)]
  {
  }

  /** Only custom policies are reported, every custom policy is, and all reports carry the client's region. */
  lemma ReportsCoverCustomPolicies(policies: Items<string, Policy>, region: string, fullAccess: (string, Json) -> bool)
    ensures var findings := Reports(Filter(Values(policies), IsCustom), region, fullAccess);
      && (forall r :: r in findings ==> IsCustom(r.resource) && r.resource in Values(policies) && r.region == region)
      && (forall p :: p in Values(policies) && IsCustom(p) ==> exists r :: r in findings && r.resource == p)
  {
    var custom := Filter(Values(policies), IsCustom);
    var findings := Reports(custom, region, fullAccess);
    forall r | r in findings ensures IsCustom(r.resource) && r.resource in Values(policies) && r.region == region {
      var k :| 0 <= k < |findings| && findings[k] == r;
      assert custom[k] in custom;
    }
    forall p | p in Values(policies) && IsCustom(p) ensures exists r :: r in findings && r.resource == p {
      var k :| 0 <= k < |custom| && custom[k] == p;
      assert findings[k].resource == p;
    }
  }

  /** A policy without a document, or with an empty one, passes whatever
      `check_full_service_access` would say: the predicate is not consulted. */
  lemma EmptyDocumentPasses(p: Policy, region: string, f: (string, Json) -> bool, g: (string, Json) -> bool)
    requires p.document.None? || !Truthy(p.document.value)
    ensures ReportFor(p, region, f).status == Pass && ReportFor(p, region, f) == ReportFor(p, region, g)
  {
  }

  /** The number of custom policies in the dictionary. */
  function CountCustom(policies: Items<string, Policy>): nat
  {
    if policies == [] then 0 else (if IsCustom(policies[0].1) then 1 else 0) + CountCustom(policies[1..])
  }

  /** One report per custom policy. */
  lemma {:induction false} ReportCount(policies: Items<string, Policy>)
    ensures |Filter(Values(policies), IsCustom)| == CountCustom(policies)
  {
    if policies != [] {
      ReportCount(policies[1..]);
      assert Values(policies)[1..] == Values(policies[1..]);
    }
  }
}
