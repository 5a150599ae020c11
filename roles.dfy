/** `Role.permission_state` and `Role.filter_by_permission_state`
    (api/src/backend/api/models.py:86-98, 1014-1066): a role's six management
    flags make it unlimited, limited or without permissions, and the query
    that filters roles by that state. */
module Roles {
  import opened Common

  /** `PermissionChoices`. */
  datatype PermissionState = Unlimited | Limited | NoPermissions

  function StateValue(p: PermissionState): string
  {
    match p
    case Unlimited => "unlimited"
    case Limited => "limited"
    case NoPermissions => "none"
  }

  /** The flags of a role; `unlimitedVisibility` is not one of its `PERMISSION_FIELDS`. */
  datatype Role = Role(
    name: string,
    manageUsers: bool,
    manageAccount: bool,
    manageBilling: bool,
    manageProviders: bool,
    manageIntegrations: bool,
    manageScans: bool,
    unlimitedVisibility: bool)

  /** `[getattr(self, field) for field in self.PERMISSION_FIELDS]`. */
  function PermissionValues(r: Role): seq<bool>
  {
    [r.manageUsers, r.manageAccount, r.manageBilling, r.manageProviders, r.manageIntegrations, r.manageScans]
  }

  /** Python's `all`. */
  predicate AllOf(vs: seq<bool>) { forall k :: 0 <= k < |vs| ==> vs[k] }
  /** Python's `any`. */
  predicate AnyOf(vs: seq<bool>) { exists k :: 0 <= k < |vs| && vs[k] }

  /** `permission_state`. */
  function PermissionStateOf(r: Role): (s: PermissionState)
    ensures s == Unlimited <==>
      r.manageUsers && r.manageAccount && r.manageBilling && r.manageProviders && r.manageIntegrations && r.manageScans
    ensures s == NoPermissions <==>
      !r.manageUsers && !r.manageAccount && !r.manageBilling && !r.manageProviders && !r.manageIntegrations && !r.manageScans
    ensures s == Limited <==>
      (r.manageUsers || r.manageAccount || r.manageBilling || r.manageProviders || r.manageIntegrations || r.manageScans)
      && !(r.manageUsers && r.manageAccount && r.manageBilling && r.manageProviders && r.manageIntegrations && r.manageScans)
  {
    var values := PermissionValues(r);
    assert values[0] == r.manageUsers && values[1] == r.manageAccount && values[2] == r.manageBilling;
    assert values[3] == r.manageProviders && values[4] == r.manageIntegrations && values[5] == r.manageScans;
    assert AnyOf(values) <== values[0] || values[1] || values[2] || values[3] || values[4] || values[5];
    if AllOf(values) then Unlimited
    else if !AnyOf(values) then NoPermissions
    else Limited
  }

  /** `Q(**{field: b for field in PERMISSION_FIELDS})`: every flag equals `b`. */
  predicate AllFieldsAre(r: Role, b: bool)
  {
    r.manageUsers == b && r.manageAccount == b && r.manageBilling == b
    && r.manageProviders == b && r.manageIntegrations == b && r.manageScans == b
  }

  /** The state a filter value asks for: anything but `unlimited` and `none` asks for limited. */
  function Requested(value: string): PermissionState
  {
    if value == StateValue(Unlimited) then Unlimited
    else if value == StateValue(NoPermissions) then NoPermissions
    else Limited
  }

  /** `filter_by_permission_state(queryset, value)` on the roles of a queryset, in order. */
  function FilterByPermissionState(roles: seq<Role>, value: string): (r: seq<Role>)
    ensures r == Filter(roles, (x: Role) => PermissionStateOf(x) == Requested(value))
  {
    var selected :=
      if value == StateValue(Unlimited) then Filter(roles, (x: Role) => AllFieldsAre(x, true))
      else if value == StateValue(NoPermissions) then Filter(roles, (x: Role) => AllFieldsAre(x, false))
      else Filter(roles, (x: Role) => !(AllFieldsAre(x, true) || AllFieldsAre(x, false)));
    FilterCongruent(roles,
      if value == StateValue(Unlimited) then (x: Role) => AllFieldsAre(x, true)
      else if value == StateValue(NoPermissions) then (x: Role) => AllFieldsAre(x, false)
      else (x: Role) => !(AllFieldsAre(x, true) || AllFieldsAre(x, false)),
      (x: Role) => PermissionStateOf(x) == Requested(value));
    selected
  }

  /** Asked for one of the three state values, the filter keeps exactly the roles in that state. */
  lemma FilterSelectsState(roles: seq<Role>, p: PermissionState)
    ensures forall x :: x in FilterByPermissionState(roles, StateValue(p)) <==> x in roles && PermissionStateOf(x) == p
  {
    assert Requested(StateValue(p)) == p;
  }

  /** The three filters partition any sequence of roles. */
  lemma FiltersPartition(roles: seq<Role>, x: Role)
    requires x in roles
    ensures var u, l, n := FilterByPermissionState(roles, "unlimited"),
                           FilterByPermissionState(roles, "limited"),
                           FilterByPermissionState(roles, "none");
            (x in u || x in l || x in n) && !(x in u && x in l) && !(x in u && x in n) && !(x in l && x in n)
  {
    FilterSelectsState(roles, Unlimited);
    FilterSelectsState(roles, Limited);
    FilterSelectsState(roles, NoPermissions);
  }
}
