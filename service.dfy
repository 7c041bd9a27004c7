/** The RPC handlers of pkg/http/grpc/service.go and of the older
    server/http/grpc/service.go. Both page through the router map with
    uint32 arithmetic and check a request in the same order: router id,
    then parameter, then driver and executor. The newer one also reports
    each router's health and stamps responses with the time. */
module Service {
  import opened Wrappers
  import opened Errs
  import opened Text
  import opened Sanitize
  import opened IpNet
  import opened Drivers
  import opened Instances

  /** uint32 arithmetic: results are reduced modulo 2^32. */
  const U32: nat := 0x1_0000_0000

  function Wrap(x: int): (r: nat)
    ensures r < U32
    ensures 0 <= x < U32 ==> r == x
  {
    x % U32
  }

  /** A zero limit means 10; a zero page token means page 1. */
  function Limit(limit: nat): (lim: nat)
    ensures lim >= 1 && (limit != 0 ==> lim == limit)
  {
    if limit == 0 then 10 else limit
  }

  function Page(token: nat): (page: nat)
    ensures page >= 1 && (token != 0 ==> page == token)
  {
    if token == 0 then 1 else token
  }

  /** The part of the router map a request asks for: nothing (`start`
      past the end), the slice `[lo, hi)` with the next page token (0 for
      none), or bounds the slice expression rejects, which panics. */
  datatype Window = NoRouters | Slice(lo: nat, hi: nat, next: nat) | Inverted(lo: nat, hi: nat)

  /** The window as the handlers compute it, every step in uint32. */
  function PageWindow(count: nat, limit: nat, token: nat): (w: Window)
    requires limit < U32 && token < U32
    ensures w.Slice? ==> w.lo <= w.hi <= count && w.hi - w.lo <= Limit(limit) && w.next < U32
    ensures w.Slice? && w.next != 0 ==> w.hi < count
    ensures w.Inverted? ==> w.hi < w.lo <= count
  {
    var n := Wrap(count);
    var lim := Limit(limit);
    var page := Page(token);
    var start := Wrap((page - 1) * lim);
    var end := if Wrap(start + lim) > n then n else Wrap(start + lim);
    if start > n then NoRouters
    else if start > end then Inverted(start, end)
    else Slice(start, end, if end < n then Wrap(page + 1) else 0)
  }

  function Min(a: nat, b: nat): nat { if a <= b then a else b }

  /** The window with unbounded arithmetic: full pages of `limit` routers
      until the last, a next token exactly when routers remain, and no
      bounds the slice expression rejects. */
  function IdealWindow(count: nat, limit: nat, token: nat): (w: Window)
    ensures !w.Inverted?
    ensures w.NoRouters? <==> (Page(token) - 1) * Limit(limit) > count
    ensures w.Slice? ==>
      && w.lo == (Page(token) - 1) * Limit(limit)
      && w.hi == w.lo + Min(Limit(limit), count - w.lo)
      && (w.next != 0 <==> w.hi < count)
  {
    var lim := Limit(limit);
    var page := Page(token);
    var start := (page - 1) * lim;
    var end := Min(start + lim, count);
    if start > count then NoRouters
    else Slice(start, end, if end < count then page + 1 else 0)
  }

  /** While `page * limit` fits in 32 bits the handlers compute the ideal
      window. */
  lemma NoWrap(count: nat, limit: nat, token: nat)
    requires limit < U32 && token < U32 && count < U32
    requires Page(token) * Limit(limit) < U32
    ensures PageWindow(count, limit, token) == IdealWindow(count, limit, token)
  {
    var lim := Limit(limit);
    var page := Page(token);
    var start := (page - 1) * lim;
    assert page * lim == start + lim;
    assert page <= page * lim;
    assert Wrap(start) == start && Wrap(start + lim) == start + lim;
    assert Wrap(count) == count;
  }

  /** With limit 2^32 - 1 and page token 2^32 - 2 over five routers,
      `start` wraps to 3 and `end` to 2: the slice `[3:2]` panics. */
  lemma WrapCrashExample()
    ensures PageWindow(5, U32 - 1, U32 - 2) == Inverted(3, 2)
    ensures IdealWindow(5, U32 - 1, U32 - 2) == NoRouters
  {
    assert (U32 - 3) * (U32 - 1) == (U32 - 4) * U32 + 3;
    assert Wrap((U32 - 3) * (U32 - 1)) == 3;
  }

  /** The indices lo, lo + 1, ..., hi - 1. */
  function Range(lo: nat, hi: nat): (r: seq<nat>)
    requires lo <= hi
    ensures |r| == hi - lo && forall i :: 0 <= i < |r| ==> r[i] == lo + i
    decreases hi - lo
  {
    if lo == hi then [] else [lo] + Range(lo + 1, hi)
  }

  /** The router indices a client sees following the next page tokens from
      `page` on, with a fixed limit, over the ideal window (the handlers'
      window wherever `page * limit` fits in 32 bits, by `NoWrap`). */
  function Collect(count: nat, limit: nat, page: nat): seq<nat>
    requires 1 <= limit && 1 <= page
    requires (page - 1) * limit <= count
    decreases count - (page - 1) * limit
  {
    match IdealWindow(count, limit, page)
    case Slice(lo, hi, next) =>
      if next == 0 then Range(lo, hi)
      else
        assert page * limit == (page - 1) * limit + limit;
        Range(lo, hi) + Collect(count, limit, next)
    case _ => []
  }

  /** One step of `Collect`: the page's routers, then the rest when the
      page was not the last. */
  lemma CollectStep(count: nat, limit: nat, page: nat)
    requires 1 <= limit && 1 <= page
    requires (page - 1) * limit <= count
    ensures page * limit == (page - 1) * limit + limit
    ensures var lo := (page - 1) * limit;
            var hi := Min(lo + limit, count);
            && (hi < count ==>
                  page * limit <= count &&
                  Collect(count, limit, page) == Range(lo, hi) + Collect(count, limit, page + 1))
            && (hi == count ==> Collect(count, limit, page) == Range(lo, count))
  {
    assert page * limit == (page - 1) * limit + limit;
  }

  /** From any reachable page on, the client sees every later router once,
      in order. */
  lemma {:induction false} CollectFrom(count: nat, limit: nat, page: nat)
    requires 1 <= limit && 1 <= page
    requires (page - 1) * limit <= count
    ensures Collect(count, limit, page) == Range((page - 1) * limit, count)
    decreases count - (page - 1) * limit
  {
    CollectStep(count, limit, page);
    var lo := (page - 1) * limit;
    var hi := Min(lo + limit, count);
    if hi < count {
      CollectFrom(count, limit, page + 1);
      RangeConcat(lo, hi, count);
    }
  }

  lemma RangeConcat(lo: nat, mid: nat, hi: nat)
    requires lo <= mid <= hi
    ensures Range(lo, mid) + Range(mid, hi) == Range(lo, hi)
  {
    var a := Range(lo, mid) + Range(mid, hi);
    assert |a| == hi - lo;
    forall i | 0 <= i < hi - lo ensures a[i] == lo + i {
      if i >= mid - lo {
        assert a[i] == Range(mid, hi)[i - (mid - lo)];
      }
    }
  }

  /** Paging from page 1 with a fixed limit returns every router exactly
      once, in map order, and stops. */
  lemma PagingExhaustive(count: nat, limit: nat)
    requires 1 <= limit
    ensures Collect(count, limit, 1) == Range(0, count)
  {
    CollectFrom(count, limit, 1);
  }

  /** One router of a GetRouters response. `id` is the position within
      the page plus 1. */
  datatype RouterEntry = RouterEntry(name: string, location: string, id: int, healthy: bool, checked: int)

  datatype RoutersPage = RoutersPage(routers: seq<RouterEntry>, nextPage: nat)

  function Entry(ri: RouterInstance, k: nat): RouterEntry
    reads ri.health
  {
    RouterEntry(ri.config.name, ri.config.location, k + 1, ri.health.healthy, ri.health.checked)
  }

  /** The first steps of both GetRouters handlers: the defaults, then
      `start` and `end` in uint32, `end` capped at the map's length. */
  method Bounds(count: nat, limit: nat, token: nat) returns (start: nat, end: nat, page: nat, n: nat)
    requires limit < U32 && token < U32
    ensures n == Wrap(count) && n <= count && page == Page(token) && end <= n
    ensures start > n ==> PageWindow(count, limit, token) == NoRouters
    ensures start <= n && start > end ==> PageWindow(count, limit, token) == Inverted(start, end)
    ensures start <= n && start <= end ==>
              PageWindow(count, limit, token) == Slice(start, end, if end < n then Wrap(page + 1) else 0)
  {
    n := Wrap(count);
    var lim := limit;
    if lim == 0 {
      lim := 10;
    }
    page := token;
    if page == 0 {
      page := 1;
    }
    start := Wrap((page - 1) * lim);
    end := Wrap(start + lim);
    if end > n {
      end := n;
    }
  }

  /** GetRouters (pkg snapshot). */
  method GetRouters(rts: seq<RouterInstance>, limit: nat, token: nat) returns (r: Result<RoutersPage, Crash>)
    requires limit < U32 && token < U32
    ensures var w := PageWindow(|rts|, limit, token);
      && (w.NoRouters? ==> r == Success(RoutersPage([], 0)))
      && (w.Inverted? ==> r == Failure(SliceBoundsOutOfRange))
      && (w.Slice? ==>
            && r.Success? && r.value.nextPage == w.next
            && |r.value.routers| == w.hi - w.lo
            && forall k :: 0 <= k < w.hi - w.lo ==> r.value.routers[k] == Entry(rts[w.lo + k], k))
  {
    var start, end, page, n := Bounds(|rts|, limit, token);
    if start > n {
      return Success(RoutersPage([], 0));
    }
    if start > end {
      return Failure(SliceBoundsOutOfRange);
    }
    var ret: seq<RouterEntry> := [];
    var k := 0;
    while k < end - start
      invariant 0 <= k <= end - start
      invariant |ret| == k
      invariant forall j :: 0 <= j < k ==> ret[j] == Entry(rts[start + j], j)
    {
      ret := ret + [Entry(rts[start + k], k)];
      k := k + 1;
    }
    var nextPage := 0;
    if end < n {
      nextPage := Wrap(page + 1);
    }
    return Success(RoutersPage(ret, nextPage));
  }

  /** A router of the older snapshot's response: no health. */
  datatype LegacyEntry = LegacyEntry(name: string, location: string, id: int)

  datatype LegacyPage = LegacyPage(routers: seq<LegacyEntry>, nextPage: nat)

  /** GetRouters (server snapshot): the same window and the same ids. */
  method GetRoutersLegacy(rts: seq<RouterInstance>, limit: nat, token: nat) returns (r: Result<LegacyPage, Crash>)
    requires limit < U32 && token < U32
    ensures var w := PageWindow(|rts|, limit, token);
      && (w.NoRouters? ==> r == Success(LegacyPage([], 0)))
      && (w.Inverted? ==> r == Failure(SliceBoundsOutOfRange))
      && (w.Slice? ==>
            && r.Success? && r.value.nextPage == w.next
            && |r.value.routers| == w.hi - w.lo
            && forall k :: 0 <= k < w.hi - w.lo ==>
                 r.value.routers[k] ==
                   LegacyEntry(rts[w.lo + k].config.name, rts[w.lo + k].config.location, k + 1))
  {
    var start, end, page, n := Bounds(|rts|, limit, token);
    if start > n {
      return Success(LegacyPage([], 0));
    }
    if start > end {
      return Failure(SliceBoundsOutOfRange);
    }
    var ret: seq<LegacyEntry> := [];
    var k := 0;
    while k < end - start
      invariant 0 <= k <= end - start
      invariant |ret| == k
      invariant forall j :: 0 <= j < k ==>
                  ret[j] == LegacyEntry(rts[start + j].config.name, rts[start + j].config.location, j + 1)
    {
      ret := ret + [LegacyEntry(rts[start + k].config.name, rts[start + k].config.location, k + 1)];
      k := k + 1;
    }
    var nextPage := 0;
    if end < n {
      nextPage := Wrap(page + 1);
    }
    return Success(LegacyPage(ret, nextPage));
  }

  /** Ids in a response restart at 1 on every page: on a page after the
      first, the entry with id `i` is not the router `GetByID(i)` reaches
      but the one `limit * (page - 1)` places further on. */
  lemma PageRelativeIds(rts: seq<RouterInstance>, limit: nat, token: nat, k: nat)
    requires limit < U32 && token < U32 && |rts| < U32
    requires Page(token) * Limit(limit) < U32
    requires PageWindow(|rts|, limit, token).Slice?
    requires k < PageWindow(|rts|, limit, token).hi - PageWindow(|rts|, limit, token).lo
    ensures Entry(rts[PageWindow(|rts|, limit, token).lo + k], k).id == k + 1
    ensures GetByID(rts, (Page(token) - 1) * Limit(limit) + k + 1) ==
              Some(rts[PageWindow(|rts|, limit, token).lo + k])
  {
    NoWrap(|rts|, limit, token);
  }

  /** A BGP community: two unsigned 32-bit numbers. */
  datatype Community = Community(asn: nat, value: nat)

  /** The requests of the five operation handlers. The community is a
      message field, so a request may come without one (a nil pointer). */
  datatype Request =
    | PingRequest(target: string)
    | TracerouteRequest(target: string)
    | BGPRouteRequest(target: string)
    | BGPCommunityRequest(community: Option<Community>)
    | BGPASPathRequest(pattern: string)

  /** Everything a handler relies on besides the router map: address
      parsing, the resolver, the executor and the renderer. */
  datatype Backend = Backend(net: NetLib, lookup: string -> Result<seq<string>, Error>, env: Env)

  /** The community argument: `strconv.Itoa(asn) + ":" + strconv.Itoa(value)`. */
  function CommunityText(asn: nat, value: nat): string {
    Decimal(asn) + ":" + Decimal(value)
  }

  /** The community text is two decimal fields around one colon, and
      reading them back gives the request's numbers. */
  lemma CommunityTextRoundTrip(asn: nat, value: nat)
    ensures Split(CommunityText(asn, value), ':') == [Decimal(asn), Decimal(value)]
    ensures DecimalValue(Split(CommunityText(asn, value), ':')[0]) == asn
    ensures DecimalValue(Split(CommunityText(asn, value), ':')[1]) == value
  {
    var a := Decimal(asn);
    var v := Decimal(value);
    assert ':' !in a && ':' !in v;
    assert CommunityText(asn, value) == a + [':'] + v;
    SplitAfterPiece(a, v, ':');
    SplitNoSep(v, ':');
    DecimalRoundTrip(asn);
    DecimalRoundTrip(value);
  }

  /** The handler's parameter step: the target is parsed, the community
      formatted (reading its fields through a nil pointer when the request
      has none), the AS-path pattern sanitised. */
  function Parameter(req: Request, b: Backend): (r: Result<Operation, Error>)
    ensures req.BGPCommunityRequest? && req.community.None? ==> r == Failure(Panic(NilDereference))
    ensures req.BGPCommunityRequest? && req.community.Some? ==>
      r == Success(BGPCommunityOp(CommunityText(req.community.value.asn, req.community.value.value)))
    ensures req.BGPASPathRequest? ==>
      && (r.Failure? <==> SanitizeASPathRegex(req.pattern).Failure?)
      && (r.Failure? ==> r.error in {ASPathEmpty, ASPathTooLong, ASPathMalformed})
      && (r.Success? ==> r.value == BGPASPathOp(SanitizeASPathRegex(req.pattern).value))
    ensures req.PingRequest? || req.TracerouteRequest? || req.BGPRouteRequest? ==>
      (r.Failure? <==> NewIPNetFromProtobuf(b.net, b.lookup, req.target).Failure?)
    ensures req.PingRequest? && r.Success? ==> r.value == PingOp(NewIPNetFromProtobuf(b.net, b.lookup, req.target).value)
    ensures req.TracerouteRequest? && r.Success? ==>
      r.value == TracerouteOp(NewIPNetFromProtobuf(b.net, b.lookup, req.target).value)
    ensures req.BGPRouteRequest? && r.Success? ==>
      r.value == BGPRouteOp(NewIPNetFromProtobuf(b.net, b.lookup, req.target).value)
  {
    match req
    case PingRequest(t) =>
      (match NewIPNetFromProtobuf(b.net, b.lookup, t)
       case Failure(e) => Failure(e)
       case Success(ip) => Success(PingOp(ip)))
    case TracerouteRequest(t) =>
      (match NewIPNetFromProtobuf(b.net, b.lookup, t)
       case Failure(e) => Failure(e)
       case Success(ip) => Success(TracerouteOp(ip)))
    case BGPRouteRequest(t) =>
      (match NewIPNetFromProtobuf(b.net, b.lookup, t)
       case Failure(e) => Failure(e)
       case Success(ip) => Success(BGPRouteOp(ip)))
    case BGPCommunityRequest(None) => Failure(Panic(NilDereference))
    case BGPCommunityRequest(Some(c)) => Success(BGPCommunityOp(CommunityText(c.asn, c.value)))
    case BGPASPathRequest(p) =>
      (match SanitizeASPathRegex(p)
       case Failure(e) => Failure(e)
       case Success(s) => Success(BGPASPathOp(s)))
  }

  /** A handler: look the router up by id, then build the parameter, then
      run the operation; the outputs are joined by newlines. */
  function Handle(rts: seq<RouterInstance>, id: int, req: Request, b: Backend): (r: Result<string, Error>)
    ensures GetByID(rts, id).None? ==> r == Failure(UnknownRouter)
    ensures GetByID(rts, id).Some? && Parameter(req, b).Failure? ==> r == Failure(Parameter(req, b).error)
    ensures r.Success? ==> GetByID(rts, id).Some? && Parameter(req, b).Success?
  {
    match GetByID(rts, id)
    case None => Failure(UnknownRouter)
    case Some(ri) =>
      match Parameter(req, b)
      case Failure(e) => Failure(e)
      case Success(op) =>
        match ri.Run(op, b.env)
        case Failure(e) => Failure(e)
        case Success(outs) => Success(Join(outs, '\n'))
  }

  /** An unknown router id is reported before anything else is looked at:
      the request and the backend make no difference. */
  lemma UnknownRouterFirst(rts: seq<RouterInstance>, id: int, r1: Request, r2: Request, b1: Backend, b2: Backend)
    requires id < 1 || id > |rts|
    ensures Handle(rts, id, r1, b1) == Handle(rts, id, r2, b2) == Failure(UnknownRouter)
  {
  }

  /** A bad parameter is reported before the driver or the executor is
      consulted: they make no difference. */
  lemma ParameterBeforeDriver(rts: seq<RouterInstance>, id: int, req: Request, b1: Backend, b2: Backend)
    requires 1 <= id <= |rts|
    requires b1.net == b2.net && b1.lookup == b2.lookup
    requires Parameter(req, b1).Failure?
    ensures Handle(rts, id, req, b1) == Handle(rts, id, req, b2) == Failure(Parameter(req, b1).error)
  {
  }

  /** When router and parameter are good, the response is the operation's
      outputs, one per line, or the operation's error. */
  lemma ResponseIsJoinedOutput(rts: seq<RouterInstance>, id: int, req: Request, b: Backend)
    requires 1 <= id <= |rts| && Parameter(req, b).Success?
    ensures var run := rts[id - 1].Run(Parameter(req, b).value, b.env);
            && (run.Failure? ==> Handle(rts, id, req, b) == Failure(run.error))
            && (run.Success? ==> Handle(rts, id, req, b) == Success(Join(run.value, '\n')))
            && (run.Success? && |run.value| >= 1 && (forall i :: 0 <= i < |run.value| ==> '\n' !in run.value[i]) ==>
                  Split(Handle(rts, id, req, b).value, '\n') == run.value)
  {
    var run := rts[id - 1].Run(Parameter(req, b).value, b.env);
    if run.Success? && |run.value| >= 1 && (forall i :: 0 <= i < |run.value| ==> '\n' !in run.value[i]) {
      SplitJoin(run.value, '\n');
    }
  }

  /** An AS-path pattern the sanitiser rejects is reported with the
      sanitiser's error; an accepted one reaches the driver in its
      sanitised, anchored form. */
  lemma ASPathSanitisedFirst(rts: seq<RouterInstance>, id: int, pattern: string, b: Backend)
    requires 1 <= id <= |rts|
    ensures SanitizeASPathRegex(pattern).Failure? ==>
              Handle(rts, id, BGPASPathRequest(pattern), b) == Failure(SanitizeASPathRegex(pattern).error)
    ensures SanitizeASPathRegex(pattern).Success? ==>
              var s := SanitizeASPathRegex(pattern).value;
              && s[0] == '_'
              && Parameter(BGPASPathRequest(pattern), b) == Success(BGPASPathOp(s))
  {
  }
}
