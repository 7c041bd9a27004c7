/** server/routers/frrouting.go: the compiled driver for FRRouting. It keeps
    no state; each operation formats fixed command text from the device's
    source addresses or VRF and the call's parameter. */
module FRRouting {
  import opened Wrappers
  import opened Errs
  import opened Text
  import opened IpNet
  import opened Config

  /** The format strings below are spaces between fixed words and `%s`
      slots, so each is written as the words joined by single spaces, which
      is the same text. */

  /** `ping -n %s -c 5 -I %s %s`. */
  function PingCommand(flag: string, src: string, dst: string): string {
    Join(["ping", "-n", flag, "-c", "5", "-I", src, dst], ' ')
  }

  /** `traceroute %s -w 1 -q 1 -I --back --mtu -e -s %s %s`. */
  function TracerouteCommand(flag: string, src: string, dst: string): string {
    Join(["traceroute", flag, "-w", "1", "-q", "1", "-I", "--back", "--mtu", "-e", "-s", src, dst], ' ')
  }

  /** `vtysh -c 'show bgp vrf %s %s unicast %s'`. */
  function RouteCommand(vrf: string, family: string, dst: string): string {
    Join(["vtysh", "-c", "'show", "bgp", "vrf", vrf, family, "unicast", dst + "'"], ' ')
  }

  /** `vtysh -c 'show bgp vrf %s <family> unicast <what> %s'`. */
  function LookupCommand(vrf: string, family: string, what: string, arg: string): string {
    Join(["vtysh", "-c", "'show", "bgp", "vrf", vrf, family, "unicast", what, arg + "'"], ' ')
  }

  /** The source address the device uses for a family, read through the
      config's pointer. */
  function SourceFor(cfg: RouterConfig, ip: IPNet): Option<IPNet>
    requires IsIPv4(ip) || IsIPv6(ip)
  {
    if IsIPv4(ip) then cfg.source4 else cfg.source6
  }

  /** Ping. */
  function Ping(cfg: RouterConfig, ip: IPNet): (r: Result<seq<string>, Error>)
    ensures !IsIPv4(ip) && !IsIPv6(ip) ==> r == Failure(FamilyInvalid)
    ensures (IsIPv4(ip) || IsIPv6(ip)) && SourceFor(cfg, ip).None? ==> r == Failure(Panic(NilDereference))
    ensures (IsIPv4(ip) || IsIPv6(ip)) && SourceFor(cfg, ip).Some? ==> r.Success?
    ensures r.Success? ==> |r.value| == 1
  {
    if IsIPv4(ip) then
      if cfg.source4.None? then Failure(Panic(NilDereference))
      else Success([PingCommand("-4", cfg.source4.value.ip, ip.ip)])
    else if IsIPv6(ip) then
      if cfg.source6.None? then Failure(Panic(NilDereference))
      else Success([PingCommand("-6", cfg.source6.value.ip, ip.ip)])
    else Failure(FamilyInvalid)
  }

  /** Traceroute. */
  function Traceroute(cfg: RouterConfig, ip: IPNet): (r: Result<seq<string>, Error>)
    ensures !IsIPv4(ip) && !IsIPv6(ip) ==> r == Failure(FamilyInvalid)
    ensures (IsIPv4(ip) || IsIPv6(ip)) && SourceFor(cfg, ip).None? ==> r == Failure(Panic(NilDereference))
    ensures (IsIPv4(ip) || IsIPv6(ip)) && SourceFor(cfg, ip).Some? ==> r.Success?
    ensures r.Success? ==> |r.value| == 1
  {
    if IsIPv4(ip) then
      if cfg.source4.None? then Failure(Panic(NilDereference))
      else Success([TracerouteCommand("-4", cfg.source4.value.ip, ip.ip)])
    else if IsIPv6(ip) then
      if cfg.source6.None? then Failure(Panic(NilDereference))
      else Success([TracerouteCommand("-6", cfg.source6.value.ip, ip.ip)])
    else Failure(FamilyInvalid)
  }

  /** BGPRoute: never fails. */
  function BGPRoute(cfg: RouterConfig, ip: IPNet): (r: Result<seq<string>, Error>)
    ensures r.Success? && |r.value| == 1
  {
    Success([RouteCommand(cfg.vrf, FamilyString(ip.family), ip.ip)])
  }

  /** BGPCommunity: the ipv4 table first, then the ipv6 table. */
  function BGPCommunity(cfg: RouterConfig, community: string): (r: Result<seq<string>, Error>)
    ensures r.Success? && |r.value| == 2
  {
    Success([LookupCommand(cfg.vrf, "ipv4", "community", community),
             LookupCommand(cfg.vrf, "ipv6", "community", community)])
  }

  /** BGPASPath: the ipv4 table first, then the ipv6 table. */
  function BGPASPath(cfg: RouterConfig, aspath: string): (r: Result<seq<string>, Error>)
    ensures r.Success? && |r.value| == 2
  {
    Success([LookupCommand(cfg.vrf, "ipv4", "regexp", aspath),
             LookupCommand(cfg.vrf, "ipv6", "regexp", aspath)])
  }

  /** Text that is one shell word. */
  predicate OneWord(s: string) { ' ' !in s }

  /** Ping from a device with a source address for the target's family:
      one command, whose words are `ping -n <-4|-6> -c 5 -I <source>
      <target>`. Each parameter lands in its own word, in that order, as
      long as the source and target text are single words. */
  lemma PingArguments(cfg: RouterConfig, ip: IPNet)
    requires IsIPv4(ip) || IsIPv6(ip)
    requires SourceFor(cfg, ip).Some?
    requires OneWord(SourceFor(cfg, ip).value.ip) && OneWord(ip.ip)
    ensures Ping(cfg, ip).Success? && |Ping(cfg, ip).value| == 1
    ensures Split(Ping(cfg, ip).value[0], ' ') ==
              ["ping", "-n", if IsIPv4(ip) then "-4" else "-6", "-c", "5", "-I",
               SourceFor(cfg, ip).value.ip, ip.ip]
  {
    var w := ["ping", "-n", if IsIPv4(ip) then "-4" else "-6", "-c", "5", "-I",
              SourceFor(cfg, ip).value.ip, ip.ip];
    assert forall i :: 0 <= i < |w| ==> OneWord(w[i]);
    SplitJoin(w, ' ');
  }

  /** Traceroute, likewise: `traceroute <-4|-6> -w 1 -q 1 -I --back --mtu
      -e -s <source> <target>`. */
  lemma TracerouteArguments(cfg: RouterConfig, ip: IPNet)
    requires IsIPv4(ip) || IsIPv6(ip)
    requires SourceFor(cfg, ip).Some?
    requires OneWord(SourceFor(cfg, ip).value.ip) && OneWord(ip.ip)
    ensures Traceroute(cfg, ip).Success? && |Traceroute(cfg, ip).value| == 1
    ensures Split(Traceroute(cfg, ip).value[0], ' ') ==
              ["traceroute", if IsIPv4(ip) then "-4" else "-6", "-w", "1", "-q", "1", "-I",
               "--back", "--mtu", "-e", "-s", SourceFor(cfg, ip).value.ip, ip.ip]
  {
    var w := ["traceroute", if IsIPv4(ip) then "-4" else "-6", "-w", "1", "-q", "1", "-I",
              "--back", "--mtu", "-e", "-s", SourceFor(cfg, ip).value.ip, ip.ip];
    assert forall i :: 0 <= i < |w| ==> OneWord(w[i]);
    SplitJoin(w, ' ');
  }

  /** BGPRoute embeds the VRF, the family text and the address, in that
      order, each in its own word. */
  lemma BGPRouteArguments(cfg: RouterConfig, ip: IPNet)
    requires ip.family != Unset
    requires OneWord(cfg.vrf) && OneWord(ip.ip)
    ensures Split(BGPRoute(cfg, ip).value[0], ' ') ==
              ["vtysh", "-c", "'show", "bgp", "vrf", cfg.vrf,
               if IsIPv4(ip) then "ipv4" else "ipv6", "unicast", ip.ip + "'"]
  {
    var w := ["vtysh", "-c", "'show", "bgp", "vrf", cfg.vrf,
              if IsIPv4(ip) then "ipv4" else "ipv6", "unicast", ip.ip + "'"];
    assert ' ' !in ip.ip + "'";
    assert forall i :: 0 <= i < |w| ==> OneWord(w[i]);
    SplitJoin(w, ' ');
  }

  /** The fixed text of a lookup command before its argument. */
  function LookupHead(vrf: string, family: string, what: string): string {
    Join(["vtysh", "-c", "'show", "bgp", "vrf", vrf, family, "unicast", what], ' ') + " "
  }

  /** A lookup command is its head, which the argument does not affect,
      then the argument verbatim, whatever it holds, then the closing
      quote. */
  lemma LookupText(vrf: string, family: string, what: string, arg: string)
    ensures LookupCommand(vrf, family, what, arg) == LookupHead(vrf, family, what) + arg + "'"
  {
    var w := ["vtysh", "-c", "'show", "bgp", "vrf", vrf, family, "unicast", what, arg + "'"];
    JoinSnoc(w, ' ');
    assert w[..9] == ["vtysh", "-c", "'show", "bgp", "vrf", vrf, family, "unicast", what];
  }

  /** The community and AS-path lookups: the ipv4 table first, then the
      ipv6 table, the argument put in verbatim at the end of each, spaces,
      `;` and quotes included. When the VRF and the argument are single
      words, each parameter is its own word of the command. */
  lemma LookupArguments(cfg: RouterConfig, arg: string, family: nat)
    requires family < 2
    ensures var fam := ["ipv4", "ipv6"][family];
      && BGPCommunity(cfg, arg).value[family] == LookupHead(cfg.vrf, fam, "community") + arg + "'"
      && BGPASPath(cfg, arg).value[family] == LookupHead(cfg.vrf, fam, "regexp") + arg + "'"
    ensures OneWord(cfg.vrf) && OneWord(arg) ==>
      && Split(BGPCommunity(cfg, arg).value[family], ' ') ==
           ["vtysh", "-c", "'show", "bgp", "vrf", cfg.vrf, ["ipv4", "ipv6"][family],
            "unicast", "community", arg + "'"]
      && Split(BGPASPath(cfg, arg).value[family], ' ') ==
           ["vtysh", "-c", "'show", "bgp", "vrf", cfg.vrf, ["ipv4", "ipv6"][family],
            "unicast", "regexp", arg + "'"]
  {
    var fam := ["ipv4", "ipv6"][family];
    LookupText(cfg.vrf, fam, "community", arg);
    LookupText(cfg.vrf, fam, "regexp", arg);
    if OneWord(cfg.vrf) && OneWord(arg) {
      assert ' ' !in arg + "'";
      var c := ["vtysh", "-c", "'show", "bgp", "vrf", cfg.vrf, fam, "unicast", "community", arg + "'"];
      var p := ["vtysh", "-c", "'show", "bgp", "vrf", cfg.vrf, fam, "unicast", "regexp", arg + "'"];
      assert forall i :: 0 <= i < |c| ==> OneWord(c[i]);
      assert forall i :: 0 <= i < |p| ==> OneWord(p[i]);
      SplitJoin(c, ' ');
      SplitJoin(p, ' ');
    }
  }

  /** The driver reads nothing of the device but its two source addresses
      and its VRF. */
  lemma ReadsOnlySourcesAndVrf(c1: RouterConfig, c2: RouterConfig, ip: IPNet, arg: string)
    requires c1.source4 == c2.source4 && c1.source6 == c2.source6 && c1.vrf == c2.vrf
    ensures Ping(c1, ip) == Ping(c2, ip) && Traceroute(c1, ip) == Traceroute(c2, ip)
    ensures BGPRoute(c1, ip) == BGPRoute(c2, ip)
    ensures BGPCommunity(c1, arg) == BGPCommunity(c2, arg) && BGPASPath(c1, arg) == BGPASPath(c2, arg)
  {
  }
}
