/** server/routers/yaml.go: the template-driven driver. A router type is a
    YAML file of command templates, per operation and, for ping and
    traceroute, per address family. An absent list is nil; `[]` is a
    declared, empty list. Template parsing and execution (`text/template`)
    are not part of this model: a `Renderer` stands for both. */
module YamlDriver {
  import opened Wrappers
  import opened Errs
  import opened IpNet
  import opened Config

  /** `_tpl_data`: what a template can refer to. The community and
      AS-path operations leave `ip` nil. */
  datatype TplData = TplData(cfg: RouterConfig, ip: Option<IPNet>, community: string, aspath: string)

  /** Parse then execute one template against the data. Whatever goes
      wrong in either step is a template error. */
  type Renderer = f: (string, TplData) -> Result<string, Error> |
    forall t, d :: f(t, d).Failure? ==> f(t, d).error.TemplateFailed?
    witness (t: string, d: TplData) => Success(t)

  datatype FamilyTemplates = FamilyTemplates(any: Option<seq<string>>, ipv4: Option<seq<string>>, ipv6: Option<seq<string>>)
  datatype BGPTemplates = BGPTemplates(route: Option<seq<string>>, community: Option<seq<string>>, aspath: Option<seq<string>>)
  datatype Template = Template(name: string, ping: FamilyTemplates, traceroute: FamilyTemplates, bgp: BGPTemplates)

  /** A `Yaml` router: the file it came from and its templates. */
  datatype Yaml = Yaml(path: string, template: Template)

  /** The list used for ping or traceroute: a declared `any` list wins;
      otherwise the address family picks its own list, and an address of
      neither family picks none. The family test dereferences the address. */
  function SelectFamily(f: FamilyTemplates, ip: Option<IPNet>): (r: Result<Option<seq<string>>, Error>)
    ensures f.any.Some? ==> r == Success(f.any)
    ensures f.any.None? && ip.None? ==> r == Failure(Panic(NilDereference))
    ensures f.any.None? && ip.Some? ==> r.Success?
    ensures r.Success? && r.value.Some? ==> r.value in {f.any, f.ipv4, f.ipv6}
  {
    if f.any.Some? then Success(f.any)
    else if ip.None? then Failure(Panic(NilDereference))
    else if IsIPv4(ip.value) then Success(f.ipv4)
    else if IsIPv6(ip.value) then Success(f.ipv6)
    else Success(None)
  }

  /** The list an operation name selects; names outside the five select
      none. */
  function Select(t: Template, name: string, data: TplData): (r: Result<Option<seq<string>>, Error>)
    ensures name !in {"ping", "traceroute"} ==> r.Success?
    ensures name !in {"ping", "traceroute", "bgp.route", "bgp.community", "bgp.aspath"} ==> r == Success(None)
  {
    if name == "ping" then SelectFamily(t.ping, data.ip)
    else if name == "traceroute" then SelectFamily(t.traceroute, data.ip)
    else if name == "bgp.route" then Success(t.bgp.route)
    else if name == "bgp.community" then Success(t.bgp.community)
    else if name == "bgp.aspath" then Success(t.bgp.aspath)
    else Success(None)
  }

  /** Render every template of the list in order, stopping at the first
      error. */
  function RenderAll(tpl: seq<string>, data: TplData, render: Renderer): (r: Result<seq<string>, Error>)
    ensures r.Success? ==> |r.value| == |tpl|
    ensures r.Failure? ==> r.error.TemplateFailed?
    decreases |tpl|
  {
    if |tpl| == 0 then Success([])
    else
      match render(tpl[0], data)
      case Failure(e) => Failure(e)
      case Success(out) =>
        match RenderAll(tpl[1..], data, render)
        case Failure(e) => Failure(e)
        case Success(rest) => Success([out] + rest)
  }

  /** One output per template, in template order, or the first failing
      template's error and no output. */
  lemma {:induction false} RenderAllMeaning(tpl: seq<string>, data: TplData, render: Renderer)
    ensures var r := RenderAll(tpl, data, render);
            && (r.Success? ==> forall i :: 0 <= i < |tpl| ==> render(tpl[i], data) == Success(r.value[i]))
            && (r.Failure? ==>
                  exists i :: 0 <= i < |tpl| && render(tpl[i], data) == Failure(r.error)
                              && forall j :: 0 <= j < i ==> render(tpl[j], data).Success?)
    decreases |tpl|
  {
    if |tpl| > 0 && render(tpl[0], data).Success? {
      var rest := tpl[1..];
      RenderAllMeaning(rest, data, render);
      var r := RenderAll(tpl, data, render);
      if r.Success? {
        forall i | 0 <= i < |tpl| ensures render(tpl[i], data) == Success(r.value[i]) {
          if i > 0 { assert tpl[i] == rest[i - 1]; }
        }
      } else {
        var i :| 0 <= i < |rest| && render(rest[i], data) == Failure(r.error)
                 && forall j :: 0 <= j < i ==> render(rest[j], data).Success?;
        assert render(tpl[i + 1], data) == Failure(r.error);
        forall j | 0 <= j < i + 1 ensures render(tpl[j], data).Success? {
          if j > 0 { assert tpl[j] == rest[j - 1]; }
        }
      }
    }
  }

  /** The outputs already rendered, put in front of the rest's result. */
  function Prepend(done: seq<string>, rest: Result<seq<string>, Error>): Result<seq<string>, Error> {
    if rest.Failure? then rest else Success(done + rest.value)
  }

  /** The render loop as written: append each rendered template to `ret`,
      returning at the first error. */
  method RenderLoop(tpl: seq<string>, data: TplData, render: Renderer) returns (r: Result<seq<string>, Error>)
    ensures r == RenderAll(tpl, data, render)
  {
    var ret: seq<string> := [];
    var i := 0;
    assert tpl[0..] == tpl;
    assert RenderAll(tpl, data, render).Success? ==> [] + RenderAll(tpl, data, render).value == RenderAll(tpl, data, render).value;
    while i < |tpl|
      invariant 0 <= i <= |tpl|
      invariant RenderAll(tpl, data, render) == Prepend(ret, RenderAll(tpl[i..], data, render))
    {
      assert tpl[i..][1..] == tpl[i + 1..];
      var out := render(tpl[i], data);
      if out.Failure? {
        return Failure(out.error);
      }
      assert RenderAll(tpl[i + 1..], data, render).Success? ==>
               ret + ([out.value] + RenderAll(tpl[i + 1..], data, render).value)
               == (ret + [out.value]) + RenderAll(tpl[i + 1..], data, render).value;
      ret := ret + [out.value];
      i := i + 1;
    }
    assert tpl[i..] == [];
    assert ret + [] == ret;
    r := Success(ret);
  }

  /** `_tpl`: select the list, fail with `OperationUnknown` when it is nil,
      else render it. */
  function Tpl(y: Yaml, name: string, data: TplData, render: Renderer): (r: Result<seq<string>, Error>)
    ensures Select(y.template, name, data) == Success(None) ==> r == Failure(OperationUnknown)
    ensures Select(y.template, name, data) == Success(Some([])) ==> r == Success([])
    ensures r.Failure? ==>
      || r.error == OperationUnknown
      || r.error.TemplateFailed?
      || r.error == Panic(NilDereference)
  {
    match Select(y.template, name, data)
    case Failure(e) => Failure(e)
    case Success(None) => Failure(OperationUnknown)
    case Success(Some(tpl)) => RenderAll(tpl, data, render)
  }

  /** The five operations: ping, traceroute and route carry the address,
      community and AS-path lookups carry their text and no address. */
  function Ping(y: Yaml, cfg: RouterConfig, ip: IPNet, render: Renderer): Result<seq<string>, Error> {
    Tpl(y, "ping", TplData(cfg, Some(ip), "", ""), render)
  }

  function Traceroute(y: Yaml, cfg: RouterConfig, ip: IPNet, render: Renderer): Result<seq<string>, Error> {
    Tpl(y, "traceroute", TplData(cfg, Some(ip), "", ""), render)
  }

  function BGPRoute(y: Yaml, cfg: RouterConfig, ip: IPNet, render: Renderer): Result<seq<string>, Error> {
    Tpl(y, "bgp.route", TplData(cfg, Some(ip), "", ""), render)
  }

  function BGPCommunity(y: Yaml, cfg: RouterConfig, community: string, render: Renderer): Result<seq<string>, Error> {
    Tpl(y, "bgp.community", TplData(cfg, None, community, ""), render)
  }

  function BGPASPath(y: Yaml, cfg: RouterConfig, aspath: string, render: Renderer): Result<seq<string>, Error> {
    Tpl(y, "bgp.aspath", TplData(cfg, None, "", aspath), render)
  }

  /** A declared `any` list is rendered whatever the address family. */
  lemma AnyOverridesFamily(y: Yaml, cfg: RouterConfig, ip: IPNet, render: Renderer)
    requires y.template.ping.any.Some? && y.template.traceroute.any.Some?
    ensures Ping(y, cfg, ip, render) == RenderAll(y.template.ping.any.value, TplData(cfg, Some(ip), "", ""), render)
    ensures Traceroute(y, cfg, ip, render) ==
              RenderAll(y.template.traceroute.any.value, TplData(cfg, Some(ip), "", ""), render)
  {
  }

  /** Without an `any` list the address family picks its list; the other
      family's list is never looked at, and a nil list for the family is
      `OperationUnknown` with nothing rendered. */
  lemma FamilyPicksList(y: Yaml, cfg: RouterConfig, ip: IPNet, render: Renderer, other: Option<seq<string>>)
    requires y.template.ping.any.None?
    requires IsIPv4(ip) || IsIPv6(ip)
    ensures var mine := if IsIPv4(ip) then y.template.ping.ipv4 else y.template.ping.ipv6;
            && (mine.None? ==> Ping(y, cfg, ip, render) == Failure(OperationUnknown))
            && (mine.Some? ==> Ping(y, cfg, ip, render) == RenderAll(mine.value, TplData(cfg, Some(ip), "", ""), render))
    ensures var p := y.template.ping;
            var y' := y.(template := y.template.(ping := if IsIPv4(ip) then p.(ipv6 := other) else p.(ipv4 := other)));
            Ping(y', cfg, ip, render) == Ping(y, cfg, ip, render)
  {
  }

  /** Ping to an address of neither family, with no `any` list, selects
      nothing. */
  lemma UnsetFamilyUnknown(y: Yaml, cfg: RouterConfig, ip: IPNet, render: Renderer)
    requires y.template.ping.any.None? && ip.family == Unset
    ensures Ping(y, cfg, ip, render) == Failure(OperationUnknown)
  {
  }

  /** A nil list is `OperationUnknown` for every renderer: nothing is
      rendered. */
  lemma NilListIgnoresRenderer(y: Yaml, name: string, data: TplData, r1: Renderer, r2: Renderer)
    requires Select(y.template, name, data) == Success(None)
    ensures Tpl(y, name, data, r1) == Tpl(y, name, data, r2) == Failure(OperationUnknown)
  {
  }

  /** An operation name outside the five is `OperationUnknown`. */
  lemma UnknownOperation(y: Yaml, name: string, data: TplData, render: Renderer)
    requires name !in {"ping", "traceroute", "bgp.route", "bgp.community", "bgp.aspath"}
    ensures Tpl(y, name, data, render) == Failure(OperationUnknown)
  {
  }

  /** A declared but empty list renders to no commands and no error. */
  lemma EmptyListNoCommands(y: Yaml, cfg: RouterConfig, community: string, render: Renderer)
    requires y.template.bgp.community == Some([])
    ensures BGPCommunity(y, cfg, community, render) == Success([])
  {
  }

  /** The BGP operations use their single list whatever the address, and
      the community and AS-path lookups render with no address at all. */
  lemma BGPListsIgnoreFamily(y: Yaml, cfg: RouterConfig, ip: IPNet, arg: string, render: Renderer)
    requires y.template.bgp.route.Some? && y.template.bgp.community.Some? && y.template.bgp.aspath.Some?
    ensures BGPRoute(y, cfg, ip, render) ==
              RenderAll(y.template.bgp.route.value, TplData(cfg, Some(ip), "", ""), render)
    ensures BGPCommunity(y, cfg, arg, render) ==
              RenderAll(y.template.bgp.community.value, TplData(cfg, None, arg, ""), render)
    ensures BGPASPath(y, cfg, arg, render) ==
              RenderAll(y.template.bgp.aspath.value, TplData(cfg, None, "", arg), render)
  {
  }

  /** A router file with only IPv4 ping templates cannot ping an IPv6
      address. */
  lemma OnlyIPv4PingExample(cfg: RouterConfig, render: Renderer)
    ensures var y := Yaml("only4.yml", Template("only4",
                      FamilyTemplates(None, Some(["ping -c 5 {{.IP.IP}}"]), None),
                      FamilyTemplates(None, None, None),
                      BGPTemplates(None, None, None)));
            Ping(y, cfg, IPNet("2001:db8::1", "128", IPv6), render) == Failure(OperationUnknown)
  {
  }
}
