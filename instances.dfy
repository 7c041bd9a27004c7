/** server/utils/interface.go: a router instance binds one configured
    device to its driver and to a health record; the router map is the
    ordered list of instances, addressed by name or by 1-based id. */
module Instances {
  import opened Wrappers
  import opened Errs
  import opened IpNet
  import opened Config
  import opened Exec
  import opened Drivers
  import YamlDriver

  /** The health record: when the device was last probed (0 for the zero
      time) and whether that probe succeeded. */
  class HealthCheck {
    var checked: int
    var healthy: bool

    /** `&HealthCheck{}`: never checked, not healthy. */
    constructor()
      ensures checked == 0 && !healthy
    {
      checked := 0;
      healthy := false;
    }
  }

  /** What the operation wrappers run against: the remote executor and
      the template renderer. */
  datatype Env = Env(exec: Executor, render: YamlDriver.Renderer)

  class RouterInstance {
    const router: Driver
    const config: RouterConfig
    const health: HealthCheck

    /** A new instance with its own zero health record. */
    constructor(router: Driver, config: RouterConfig)
      ensures this.router == router && this.config == config
      ensures fresh(health) && health.checked == 0 && !health.healthy
    {
      this.router := router;
      this.config := config;
      health := new HealthCheck();
    }

    /** Healthcheck: `outcome` is the error of running no commands on the
        device (None when it succeeded), `now` the clock. The time is
        always recorded, the flag follows the outcome, and the outcome is
        returned. */
    method Healthcheck(outcome: Option<Error>, now: int) returns (err: Option<Error>)
      modifies health
      ensures err == outcome
      ensures health.checked == now && health.healthy == outcome.None?
    {
      health.checked := now;
      if outcome.None? {
        health.healthy := true;
      } else {
        health.healthy := false;
      }
      err := outcome;
    }

    /** The five operation wrappers: ask the driver for the commands and
        run them on the device only when the driver succeeded. A result has
        one output per driver command. */
    function Run(op: Operation, env: Env): (r: Result<seq<string>, Error>)
      ensures r.Success? ==>
        Commands(router, config, op, env.render).Success? &&
        |r.value| == |Commands(router, config, op, env.render).value|
      ensures r.Failure? ==>
        DriverError(r.error) || r.error in {AuthFailed, ConnectionFailed, ExecFailed}
    {
      match Commands(router, config, op, env.render)
      case Failure(e) => Failure(e)
      case Success(cmds) => env.exec(config, cmds)
    }
  }

  /** A driver error is returned as it is, whatever the executor would
      have done; otherwise the result is the executor's, for exactly the
      driver's commands. */
  lemma DriverBeforeExecutor(ri: RouterInstance, op: Operation, e1: Env, e2: Env)
    requires e1.render == e2.render
    ensures var cmds := Commands(ri.router, ri.config, op, e1.render);
            && (cmds.Failure? ==> ri.Run(op, e1) == ri.Run(op, e2) == Failure(cmds.error))
            && (cmds.Success? ==> ri.Run(op, e1) == e1.exec(ri.config, cmds.value))
  {
  }

  /** RouterMap.Get: the first instance whose device has the name. */
  method Get(rm: seq<RouterInstance>, name: string) returns (r: Option<RouterInstance>)
    ensures r.None? <==> forall i :: 0 <= i < |rm| ==> rm[i].config.name != name
    ensures r.Some? ==>
      exists i :: 0 <= i < |rm| && rm[i] == r.value && rm[i].config.name == name &&
                  forall j :: 0 <= j < i ==> rm[j].config.name != name
  {
    var i := 0;
    while i < |rm|
      invariant 0 <= i <= |rm|
      invariant forall j :: 0 <= j < i ==> rm[j].config.name != name
    {
      if rm[i].config.name == name {
        return Some(rm[i]);
      }
      i := i + 1;
    }
    return None;
  }

  /** RouterMap.GetByID: ids count from 1. */
  function GetByID(rm: seq<RouterInstance>, id: int): (r: Option<RouterInstance>)
    ensures r.Some? <==> 1 <= id <= |rm|
    ensures r.Some? ==> r.value == rm[id - 1]
  {
    var k := id - 1;
    if k < 0 || k >= |rm| then None else Some(rm[k])
  }

  /** Ids 1 to the map's length reach every instance, each from exactly
      one id when the instances are distinct; 0 and length + 1 reach
      none. */
  lemma GetByIDBijection(rm: seq<RouterInstance>)
    ensures GetByID(rm, 0).None? && GetByID(rm, |rm| + 1).None?
    ensures forall k :: 0 <= k < |rm| ==> GetByID(rm, k + 1) == Some(rm[k])
    ensures (forall i, j :: 0 <= i < j < |rm| ==> rm[i] != rm[j]) ==>
              forall a, b :: GetByID(rm, a).Some? && GetByID(rm, a) == GetByID(rm, b) ==> a == b
  {
  }
}
