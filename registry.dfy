/** server/routers/routers.go: the global table of router types, filled
    once per driver at start-up, and the construction of the router map
    from the configured devices. */
module Registry {
  import opened Wrappers
  import opened Errs
  import opened Config
  import opened Drivers
  import opened Instances

  /** The devices whose type is registered, in configuration order: the
      devices the router map is built from. */
  function Accepted(routers: map<string, Driver>, devices: seq<RouterConfig>): (r: seq<RouterConfig>)
    ensures |r| <= |devices|
    decreases |devices|
  {
    if |devices| == 0 then []
    else
      var last := devices[|devices| - 1];
      Accepted(routers, devices[..|devices| - 1]) + (if last.driverType in routers then [last] else [])
  }

  /** Exactly the devices of a registered type are accepted. */
  lemma {:induction false} AcceptedMembers(routers: map<string, Driver>, devices: seq<RouterConfig>)
    ensures forall c :: c in Accepted(routers, devices) ==> c in devices && c.driverType in routers
    ensures forall d :: d in devices && d.driverType in routers ==> d in Accepted(routers, devices)
    decreases |devices|
  {
    if |devices| > 0 {
      var init := devices[..|devices| - 1];
      AcceptedMembers(routers, init);
      assert devices == init + [devices[|devices| - 1]];
    }
  }

  /** Accepting a longer list extends the shorter one's result. */
  lemma {:induction false} AcceptedPrefix(routers: map<string, Driver>, devices: seq<RouterConfig>, j: nat)
    requires j <= |devices|
    ensures Accepted(routers, devices[..j]) <= Accepted(routers, devices)
    decreases |devices|
  {
    if j < |devices| {
      var init := devices[..|devices| - 1];
      assert init[..j] == devices[..j];
      AcceptedPrefix(routers, init, j);
    } else {
      assert devices[..j] == devices;
    }
  }

  /** Ids are dense over the accepted devices: an accepted device sits at
      the position given by the number of accepted devices before it, so
      every skipped device moves the later ones down by one. */
  lemma AcceptedDense(routers: map<string, Driver>, devices: seq<RouterConfig>, j: nat)
    requires j < |devices| && devices[j].driverType in routers
    ensures |Accepted(routers, devices[..j])| < |Accepted(routers, devices)|
    ensures Accepted(routers, devices)[|Accepted(routers, devices[..j])|] == devices[j]
  {
    var pre := devices[..j + 1];
    assert pre[..j] == devices[..j];
    assert Accepted(routers, pre) == Accepted(routers, devices[..j]) + [devices[j]];
    AcceptedPrefix(routers, devices, j + 1);
  }

  /** One more device extends the accepted prefix by that device exactly
      when its type is registered. */
  lemma AcceptedStep(routers: map<string, Driver>, devices: seq<RouterConfig>, k: nat)
    requires k < |devices|
    ensures Accepted(routers, devices[..k + 1]) ==
              Accepted(routers, devices[..k]) + (if devices[k].driverType in routers then [devices[k]] else [])
  {
    assert devices[..k + 1][..k] == devices[..k];
  }

  class Registry {
    /** `_routers`: router type name to driver. */
    var routers: map<string, Driver>

    constructor()
      ensures routers == map[]
    {
      routers := map[];
    }

    /** Get: the driver registered under the name, nil when there is
        none. */
    function Get(name: string): (r: Option<Driver>)
      reads this
      ensures r.Some? <==> name in routers
      ensures r.Some? ==> r.value == routers[name]
    {
      if name in routers then Some(routers[name]) else None
    }

    /** register: an empty or already taken name is a panic and leaves the
        table as it was; otherwise the name now maps to the driver and
        every other name maps as before. */
    method Register(name: string, rt: Driver) returns (crash: Option<Crash>)
      modifies this
      ensures name == "" ==> crash == Some(EmptyRouterName) && routers == old(routers)
      ensures name != "" && name in old(routers) ==>
                crash == Some(DuplicateRouterName(name)) && routers == old(routers)
      ensures name != "" && name !in old(routers) ==>
                crash == None && routers == old(routers)[name := rt]
      ensures crash == None ==> Get(name) == Some(rt)
      ensures crash == None ==> forall n :: n != name ==> Get(n) == old(Get(n))
    {
      if name == "" {
        return Some(EmptyRouterName);
      }
      if name in routers {
        return Some(DuplicateRouterName(name));
      }
      routers := routers[name := rt];
      crash := None;
    }

    /** CreateRouterMap: one new instance per device whose type is
        registered, in configuration order, bound to that type's driver,
        each with its own zero health record; other devices are skipped. */
    method CreateRouterMap(devices: seq<RouterConfig>) returns (rm: seq<RouterInstance>)
      ensures |rm| == |Accepted(routers, devices)|
      ensures forall i :: 0 <= i < |rm| ==>
                rm[i].config == Accepted(routers, devices)[i] &&
                Get(rm[i].config.driverType) == Some(rm[i].router)
      ensures forall i :: 0 <= i < |rm| ==>
                fresh(rm[i].health) && rm[i].health.checked == 0 && !rm[i].health.healthy
      ensures forall i, j :: 0 <= i < j < |rm| ==> rm[i].health != rm[j].health
    {
      rm := [];
      ghost var acc: seq<RouterConfig> := [];
      var k := 0;
      while k < |devices|
        invariant 0 <= k <= |devices|
        invariant acc == Accepted(routers, devices[..k])
        invariant |rm| == |acc|
        invariant forall i :: 0 <= i < |rm| ==>
                    rm[i].config == acc[i] && Get(rm[i].config.driverType) == Some(rm[i].router)
        invariant forall i :: 0 <= i < |rm| ==>
                    fresh(rm[i].health) && rm[i].health.checked == 0 && !rm[i].health.healthy
        invariant forall i, j :: 0 <= i < j < |rm| ==> rm[i].health != rm[j].health
      {
        var v := devices[k];
        AcceptedStep(routers, devices, k);
        var rt := Get(v.driverType);
        if rt.Some? {
          var ri := new RouterInstance(rt.value, v);
          rm := rm + [ri];
          acc := acc + [v];
        }
        k := k + 1;
      }
      assert devices[..k] == devices;
    }
  }
}
