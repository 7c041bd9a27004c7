/** The `Router` interface of server/utils/interface.go and its two
    implementations: the compiled FRRouting driver and the template
    driver. A driver turns one operation on one device into the command
    lines to run there. */
module Drivers {
  import opened Wrappers
  import opened Errs
  import opened IpNet
  import opened Config
  import FRRouting
  import YamlDriver

  datatype Driver = FRR | Templates(y: YamlDriver.Yaml)

  /** The five operations of the interface with their parameter. */
  datatype Operation =
    | PingOp(ip: IPNet)
    | TracerouteOp(ip: IPNet)
    | BGPRouteOp(ip: IPNet)
    | BGPCommunityOp(community: string)
    | BGPASPathOp(aspath: string)

  /** The errors a driver itself can produce. */
  predicate DriverError(e: Error) {
    e in {FamilyInvalid, OperationUnknown, Panic(NilDereference)} || e.TemplateFailed?
  }

  /** Dispatch an operation to the driver's method. */
  function Commands(d: Driver, cfg: RouterConfig, op: Operation, render: YamlDriver.Renderer): (r: Result<seq<string>, Error>)
    ensures r.Failure? ==> DriverError(r.error)
    ensures d.FRR? && r.Success? ==> 1 <= |r.value| <= 2
    ensures d.FRR? && !op.PingOp? && !op.TracerouteOp? ==> r.Success?
  {
    match (d, op)
    case (FRR, PingOp(ip)) => FRRouting.Ping(cfg, ip)
    case (FRR, TracerouteOp(ip)) => FRRouting.Traceroute(cfg, ip)
    case (FRR, BGPRouteOp(ip)) => FRRouting.BGPRoute(cfg, ip)
    case (FRR, BGPCommunityOp(c)) => FRRouting.BGPCommunity(cfg, c)
    case (FRR, BGPASPathOp(p)) => FRRouting.BGPASPath(cfg, p)
    case (Templates(y), PingOp(ip)) => YamlDriver.Ping(y, cfg, ip, render)
    case (Templates(y), TracerouteOp(ip)) => YamlDriver.Traceroute(y, cfg, ip, render)
    case (Templates(y), BGPRouteOp(ip)) => YamlDriver.BGPRoute(y, cfg, ip, render)
    case (Templates(y), BGPCommunityOp(c)) => YamlDriver.BGPCommunity(y, cfg, c, render)
    case (Templates(y), BGPASPathOp(p)) => YamlDriver.BGPASPath(y, cfg, p, render)
  }
}
