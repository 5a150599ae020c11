/** `Finding.add_resources` (api/src/backend/api/models.py:819-843): the
    finding's denormalised `resource_regions`, `resource_services` and
    `resource_types` arrays become the de-duplicated union of their old
    contents and the attributes of the resources being attached. */
module Findings {
  import opened Common

  /** The attributes of a `Resource` that the finding copies. */
  datatype Resource = Resource(uid: string, name: string, region: string, service: string, resourceType: string)

  /** `xs or []` for a nullable array field. */
  function OrEmpty(xs: Option<seq<string>>): seq<string>
  {
    if xs.Some? then xs.value else []
  }

  function Regions(rs: seq<Resource>): set<string> { set k | 0 <= k < |rs| :: rs[k].region }
  function Services(rs: seq<Resource>): set<string> { set k | 0 <= k < |rs| :: rs[k].service }
  function Types(rs: seq<Resource>): set<string> { set k | 0 <= k < |rs| :: rs[k].resourceType }

  /** `list(s)`: every element of the set once, in an order the model leaves open. */
  method SetToList(s: set<string>) returns (xs: seq<string>)
    ensures NoDuplicates(xs) && ToSet(xs) == s && |xs| == |s|
  {
    xs := [];
    var rest := s;
    while rest != {}
      invariant rest <= s && ToSet(xs) == s - rest && NoDuplicates(xs) && |xs| + |rest| == |s|
      decreases |rest|
    {
      var x :| x in rest;
      assert x !in xs;
      xs := xs + [x];
      rest := rest - {x};
    }
  }

  class Finding {
    var resourceRegions: Option<seq<string>>
    var resourceServices: Option<seq<string>>
    var resourceTypes: Option<seq<string>>

    constructor(regions: Option<seq<string>>, services: Option<seq<string>>, types: Option<seq<string>>)
      ensures resourceRegions == regions && resourceServices == services && resourceTypes == types
    {
      resourceRegions := regions;
      resourceServices := services;
      resourceTypes := types;
    }

    /** `add_resources(resources)`; the `ResourceFindingMapping` rows and the final `save()` are not modelled. */
    method AddResources(resources: Option<seq<Resource>>)
      modifies this
      ensures resources == None || resources == Some([]) ==>
        resourceRegions == old(resourceRegions) && resourceServices == old(resourceServices)
        && resourceTypes == old(resourceTypes)
      ensures resources.Some? && resources.value != [] ==>
        && resourceRegions.Some? && NoDuplicates(resourceRegions.value)
        && ToSet(resourceRegions.value) == ToSet(OrEmpty(old(resourceRegions))) + Regions(resources.value)
        && resourceServices.Some? && NoDuplicates(resourceServices.value)
        && ToSet(resourceServices.value) == ToSet(OrEmpty(old(resourceServices))) + Services(resources.value)
        && resourceTypes.Some? && NoDuplicates(resourceTypes.value)
        && ToSet(resourceTypes.value) == ToSet(OrEmpty(old(resourceTypes))) + Types(resources.value)
    {
      if resources.None? || resources.value == [] {
        return;
      }
      var rs := resources.value;
      resourceRegions := Some(OrEmpty(resourceRegions));
      resourceServices := Some(OrEmpty(resourceServices));
      resourceTypes := Some(OrEmpty(resourceTypes));

      var regions := ToSet(resourceRegions.value);
      var services := ToSet(resourceServices.value);
      var types := ToSet(resourceTypes.value);
      var i := 0;
      while i < |rs|
        invariant 0 <= i <= |rs|
        invariant regions == ToSet(OrEmpty(old(resourceRegions))) + Regions(rs[..i])
        invariant services == ToSet(OrEmpty(old(resourceServices))) + Services(rs[..i])
        invariant types == ToSet(OrEmpty(old(resourceTypes))) + Types(rs[..i])
      {
        AttributesSnoc(rs, i);
        regions := regions + {rs[i].region};
        services := services + {rs[i].service};
        types := types + {rs[i].resourceType};
        i := i + 1;
      }
      assert rs[..i] == rs;

      var regionList := SetToList(regions);
      var serviceList := SetToList(services);
      var typeList := SetToList(types);
      resourceRegions := Some(regionList);
      resourceServices := Some(serviceList);
      resourceTypes := Some(typeList);
    }
  }

  /** One more resource adds its own attributes to the sets. */
  lemma AttributesSnoc(rs: seq<Resource>, i: int)
    requires 0 <= i < |rs|
    ensures Regions(rs[..i + 1]) == Regions(rs[..i]) + {rs[i].region}
    ensures Services(rs[..i + 1]) == Services(rs[..i]) + {rs[i].service}
    ensures Types(rs[..i + 1]) == Types(rs[..i]) + {rs[i].resourceType}
  {
    var p, q := rs[..i], rs[..i + 1];
    assert forall k :: 0 <= k < i ==> q[k] == p[k];
    assert q[i] == rs[i];
  }
}
