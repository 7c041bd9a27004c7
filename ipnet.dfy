/** pkg/utils/ipnet.go: parsing `ip[/prefix]` text into an address record.
    Go's `net.ParseIP`, `net.ParseCIDR` and `net.LookupHost` are outside
    the model; the first two are the two predicates of a `NetLib`, the
    resolver is a function parameter. */
module IpNet {
  import opened Wrappers
  import opened Errs
  import opened Text

  /** `IPFamily` is a Go string type; a record built field by field starts
      with the empty string, written `Unset` here. */
  datatype IPFamily = Unset | IPv4 | IPv6

  /** `FamilyString`: the text that `%s` prints for a family. */
  function FamilyString(f: IPFamily): (s: string)
    ensures f == IPv4 <==> s == "ipv4"
    ensures f == IPv6 <==> s == "ipv6"
    ensures f == Unset <==> s == ""
  {
    match f
    case Unset => ""
    case IPv4 => "ipv4"
    case IPv6 => "ipv6"
  }

  datatype IPNet = IPNet(ip: string, cidr: string, family: IPFamily)

  predicate IsIPv4(n: IPNet) { n.family == IPv4 }

  predicate IsIPv6(n: IPNet) { n.family == IPv6 }

  /** `IPNet.String`: the address in `ip/prefix` form. */
  function String(n: IPNet): (s: string)
    ensures |s| == |n.ip| + 1 + |n.cidr| && s[|n.ip|] == '/'
    ensures s[..|n.ip|] == n.ip && s[|n.ip| + 1..] == n.cidr
  {
    n.ip + "/" + n.cidr
  }

  /** Two dots in a row: an empty octet. */
  predicate HasEmptyOctet(s: string) {
    exists i :: 0 <= i < |s| - 1 && s[i] == '.' && s[i + 1] == '.'
  }

  /** The answers of Go's `net.ParseIP(s) != nil` and `net.ParseCIDR(s)`
      succeeding. */
  datatype NetOracle = NetOracle(parseIP: string -> bool, parseCIDR: string -> bool)

  /** What the model relies on about Go's parsers: a CIDR has exactly one
      `/` and a valid address before it; a dotted (colon-free) address has
      no empty octet; the IPv6 loopback `::1` is an address. */
  ghost predicate Sound(o: NetOracle) {
    && (forall s :: o.parseCIDR(s) ==> Count(s, '/') == 1 && o.parseIP(Split(s, '/')[0]))
    && (forall s :: o.parseIP(s) && ':' !in s ==> !HasEmptyOctet(s))
    && o.parseIP("::1")
  }

  type NetLib = o: NetOracle | Sound(o) witness NetOracle(s => s == "::1", s => false)

  /** NewIPNET. The record starts with every field at its zero value, so the
      family test that picks the default prefix always sees `Unset`: every
      bare address, IPv4 included, gets prefix "128". */
  function NewIPNET(net: NetLib, ip: string): (r: Result<IPNet, Error>)
    ensures r.Success? ==> net.parseIP(r.value.ip) && r.value.family != Unset
    ensures r.Success? ==> (r.value.family == IPv6 <==> ':' in r.value.ip)
    ensures r.Failure? ==> r.error in {NetInvalid, IPInvalid}
  {
    var zero := IPNet(ip, "", Unset);
    var ret :=
      if '/' in ip then
        var parts := Split(ip, '/');
        zero.(ip := parts[0], cidr := parts[1])
      else
        zero.(cidr := if zero.family == IPv4 then "32" else "128");
    if '/' in ip && !net.parseCIDR(ip) then Failure(NetInvalid)
    else if !net.parseIP(ret.ip) then Failure(IPInvalid)
    else Success(ret.(family := if ':' in ret.ip then IPv6 else IPv4))
  }

  /** Text with a `/`: rejected as a network unless it is a CIDR; a CIDR is
      split at its `/`, so printing the record gives the input back. */
  lemma {:induction false} CidrRoundTrip(net: NetLib, ip: string)
    requires '/' in ip
    ensures !net.parseCIDR(ip) ==> NewIPNET(net, ip) == Failure(NetInvalid)
    ensures net.parseCIDR(ip) ==> NewIPNET(net, ip).Success? && String(NewIPNET(net, ip).value) == ip
  {
    if net.parseCIDR(ip) {
      var parts := Split(ip, '/');
      assert |parts| == 2;
      JoinSplit(ip, '/');
      assert Join(parts, '/') == parts[0] + ['/'] + Join(parts[1..], '/');
      assert NewIPNET(net, ip).value.ip == parts[0];
    }
  }

  /** Text without a `/`: accepted exactly when it is an address, kept as
      the IP text, always with prefix "128". */
  lemma BareAddress(net: NetLib, ip: string)
    requires '/' !in ip
    ensures NewIPNET(net, ip).Success? <==> net.parseIP(ip)
    ensures !net.parseIP(ip) ==> NewIPNET(net, ip) == Failure(IPInvalid)
    ensures NewIPNET(net, ip).Success? ==>
              NewIPNET(net, ip).value.ip == ip && NewIPNET(net, ip).value.cidr == "128"
  {
  }

  /** `1.1.1.1` parses to family ipv4 with prefix "128", not "32". */
  lemma IPv4DefaultPrefixExample(net: NetLib)
    requires net.parseIP("1.1.1.1")
    ensures NewIPNET(net, "1.1.1.1") == Success(IPNet("1.1.1.1", "128", IPv4))
  {
  }

  /** A parsed address is IPv4 or IPv6, never both, never neither. */
  lemma ParsedFamilyExclusive(net: NetLib, ip: string)
    requires NewIPNET(net, ip).Success?
    ensures IsIPv4(NewIPNET(net, ip).value) != IsIPv6(NewIPNET(net, ip).value)
  {
  }

  /** NewIPNetFromProtobuf: empty text fails at once; text that parses is
      used as is; otherwise the name is resolved and its first address is
      parsed. `lookup` stands for `net.LookupHost`. */
  function NewIPNetFromProtobuf(net: NetLib, lookup: string -> Result<seq<string>, Error>,
                                target: string): (r: Result<IPNet, Error>)
    ensures |target| == 0 ==> r == Failure(IPInvalid)
    ensures |target| > 0 && NewIPNET(net, target).Success? ==> r == NewIPNET(net, target)
    ensures r.Success? ==> net.parseIP(r.value.ip) && r.value.family != Unset
  {
    if |target| == 0 then Failure(IPInvalid)
    else if NewIPNET(net, target).Success? then NewIPNET(net, target)
    else
      match lookup(target)
      case Failure(e) => Failure(e)
      case Success(addrs) =>
        if |addrs| != 0 then NewIPNET(net, addrs[0]) else Failure(IPInvalid)
  }

  /** UnmarshalYAML: on a decoding error the receiver is untouched and the
      error returned; on success the receiver becomes the parsed record.
      The parse result is dereferenced before its error is looked at, so
      text that does not parse is a nil dereference, never a returned
      `IPInvalid`/`NetInvalid`. */
  function UnmarshalYAML(net: NetLib, decoded: Result<string, Error>): (r: Result<IPNet, Error>)
    ensures decoded.Failure? ==> r == Failure(decoded.error)
    ensures decoded.Success? && r.Failure? ==> r.error == Panic(NilDereference)
    ensures decoded.Success? ==> (r.Success? <==> NewIPNET(net, decoded.value).Success?)
  {
    match decoded
    case Failure(e) => Failure(e)
    case Success(text) =>
      match NewIPNET(net, text)
      case Failure(_) => Failure(Panic(NilDereference))
      case Success(i) => Success(IPNet(i.ip, i.cidr, i.family))
  }
}
