/** pkg/utils/config.go: the device list's defaulting pass and the two
    string builders used by the web front end. Only the configuration
    fields these operations read are modelled. */
module Config {
  import opened Wrappers
  import opened Errs
  import opened Text
  import opened IpNet

  datatype Link = Link(text: string, url: string)

  /** A header or footer block of the web UI. */
  datatype HFBlock = HFBlock(text: string, logo: string, links: seq<Link>)

  function LinkEntry(l: Link): string { l.text + "|" + l.url }

  function LinkEntries(links: seq<Link>): (es: seq<string>)
    ensures |es| == |links|
    ensures forall i :: 0 <= i < |links| ==> es[i] == LinkEntry(links[i])
  {
    seq(|links|, i requires 0 <= i < |links| => LinkEntry(links[i]))
  }

  /** HFBlock.LinksString: `text|url` per link, comma separated. */
  function LinksString(hf: HFBlock): (r: string)
    ensures hf.links == [] ==> r == ""
    ensures |hf.links| == 1 ==> r == hf.links[0].text + "|" + hf.links[0].url
  {
    Join(LinkEntries(hf.links), ',')
  }

  /** When no link text or URL holds a comma, the string splits back into
      one `text|url` entry per link, in link order. */
  lemma LinksStringEntries(hf: HFBlock)
    requires |hf.links| >= 1
    requires forall i :: 0 <= i < |hf.links| ==> ',' !in hf.links[i].text && ',' !in hf.links[i].url
    ensures Split(LinksString(hf), ',') == LinkEntries(hf.links)
    ensures forall i :: 0 <= i < |hf.links| ==>
              Split(LinksString(hf), ',')[i] == hf.links[i].text + "|" + hf.links[i].url
  {
    var es := LinkEntries(hf.links);
    forall i | 0 <= i < |es| ensures ',' !in es[i] {
      assert es[i] == hf.links[i].text + "|" + hf.links[i].url;
    }
    SplitJoin(es, ',');
  }

  datatype SecurityTxtConfig = SecurityTxtConfig(
    enabled: bool, contact: string, canonical: string, encryption: string,
    acknowledgements: string, preferredLanguages: string, policy: string,
    hiring: string, csaf: string, expires: string)

  /** The nine `Key: value` lines of security.txt, in file order. An empty
      `expires` is replaced by `defaultExpires`, the caller's "one year from
      now" in RFC 3339 form. */
  function SecurityTxtLines(s: SecurityTxtConfig, defaultExpires: string): (lines: seq<string>)
    ensures |lines| == 9
  {
    var exp := if s.expires == "" then defaultExpires else s.expires;
    [ "Contact: " + s.contact,
      "Expires: " + exp,
      "Encryption: " + s.encryption,
      "Acknowledgements: " + s.acknowledgements,
      "Preferred-Languages: " + s.preferredLanguages,
      "Canonical: " + s.canonical,
      "Policy: " + s.policy,
      "Hiring: " + s.hiring,
      "CSAF: " + s.csaf ]
  }

  /** SecurityTxtConfig.String. */
  function SecurityTxtString(s: SecurityTxtConfig, defaultExpires: string): (r: string)
  {
    Join(SecurityTxtLines(s, defaultExpires), '\n')
  }

  predicate NoNewline(t: string) { '\n' !in t }

  /** With single-line field values, the text is exactly nine lines in the
      order Contact, Expires, Encryption, Acknowledgements,
      Preferred-Languages, Canonical, Policy, Hiring, CSAF; a set `expires`
      is printed as given, an empty one as the default. */
  lemma SecurityTxtNineLines(s: SecurityTxtConfig, defaultExpires: string)
    requires NoNewline(s.contact) && NoNewline(s.expires) && NoNewline(s.encryption)
    requires NoNewline(s.acknowledgements) && NoNewline(s.preferredLanguages)
    requires NoNewline(s.canonical) && NoNewline(s.policy) && NoNewline(s.hiring) && NoNewline(s.csaf)
    requires NoNewline(defaultExpires)
    ensures Split(SecurityTxtString(s, defaultExpires), '\n') ==
      [ "Contact: " + s.contact,
        "Expires: " + (if s.expires == "" then defaultExpires else s.expires),
        "Encryption: " + s.encryption,
        "Acknowledgements: " + s.acknowledgements,
        "Preferred-Languages: " + s.preferredLanguages, "Canonical: " + s.canonical,
        "Policy: " + s.policy, "Hiring: " + s.hiring, "CSAF: " + s.csaf ]
  {
    var lines := SecurityTxtLines(s, defaultExpires);
    forall i | 0 <= i < 9 ensures '\n' !in lines[i] {
    }
    SplitJoin(lines, '\n');
  }

  /** One `devices:` entry. `source4`/`source6` are pointers that may be nil. */
  datatype RouterConfig = RouterConfig(
    name: string, hostname: string, username: string, password: string,
    sshKey: string, vrf: string, location: string,
    source4: Option<IPNet>, source6: Option<IPNet>, driverType: string)

  /** The literals written into missing source addresses. The IPv4 one has
      a doubled dot. */
  const DefaultSource4 := "127.0.0..1"
  const DefaultSource6 := "::1"

  /** `p, _ := NewIPNET(...)`: the pointer, nil when parsing failed. */
  function Pointer(r: Result<IPNet, Error>): (p: Option<IPNet>)
    ensures p.Some? <==> r.Success?
  {
    if r.Success? then Some(r.value) else None
  }

  /** The IPv4 default is not an address, so it leaves `source4` nil. */
  lemma DefaultSource4Invalid(net: NetLib)
    ensures NewIPNET(net, DefaultSource4) == Failure(IPInvalid)
  {
    var s := DefaultSource4;
    assert s == ['1', '2', '7', '.', '0', '.', '0', '.', '.', '1'];
    assert '/' !in s && ':' !in s;
    assert s[7] == '.' && s[8] == '.';
    assert HasEmptyOctet(s);
    BareAddress(net, s);
  }

  /** The IPv6 default is the loopback with prefix 128. */
  lemma DefaultSource6Loopback(net: NetLib)
    ensures NewIPNET(net, DefaultSource6) == Success(IPNet("::1", "128", IPv6))
  {
    assert DefaultSource6[0] == ':';
  }

  /** A Go slice of devices seen through its header: the shared backing
      array's contents and the slice length. */
  datatype SliceState = SliceState(backing: seq<RouterConfig>, len: nat)

  predicate WellFormed(st: SliceState) { st.len <= |st.backing| }

  /** Where the pass stands: still running, or stopped by a panic. */
  datatype Progress = Running(st: SliceState) | Crashed(st: SliceState, crash: Crash)

  /** `append(s[:k], s[k+1:]...)` on a slice of length `len`: the
      elements after `k` move one place left inside the same backing array,
      the last old slot keeps its stale value. */
  function Spliced(b: seq<RouterConfig>, k: nat, len: nat): (r: seq<RouterConfig>)
    requires k < len <= |b|
    ensures |r| == |b|
    ensures forall i :: 0 <= i < k ==> r[i] == b[i]
    ensures forall i :: k <= i < len - 1 ==> r[i] == b[i + 1]
    ensures forall i :: len - 1 <= i < |b| ==> r[i] == b[i]
  {
    b[..k] + b[k + 1..len] + b[len - 1..]
  }

  function SetSource4(st: SliceState, k: nat, p: Option<IPNet>): SliceState
    requires k < |st.backing|
  {
    st.(backing := st.backing[k := st.backing[k].(source4 := p)])
  }

  function SetSource6(st: SliceState, k: nat, p: Option<IPNet>): SliceState
    requires k < |st.backing|
  {
    st.(backing := st.backing[k := st.backing[k].(source6 := p)])
  }

  /** The splice of an iteration whose `v` has no hostname:
      `append(c.Devices[:k], c.Devices[k+1:]...)`, which panics when `k+1`
      is past the current length. */
  function RemovePhase(st: SliceState, k: nat, v: RouterConfig): (p: Progress)
    requires WellFormed(st) && k < |st.backing|
    ensures WellFormed(p.st) && |p.st.backing| == |st.backing|
  {
    if v.hostname != "" then Running(st)
    else if k + 1 > st.len then Crashed(st, SliceBoundsOutOfRange)
    else Running(SliceState(Spliced(st.backing, k, st.len), st.len - 1))
  }

  /** `c.Devices[k].Source4, _ = NewIPNET(...)` when `v.Source4` is nil,
      which panics when `k` is outside the current length. */
  function Source4Phase(net: NetLib, st: SliceState, k: nat, v: RouterConfig): (p: Progress)
    requires WellFormed(st) && k < |st.backing|
    ensures WellFormed(p.st) && |p.st.backing| == |st.backing|
  {
    if v.source4.Some? then Running(st)
    else if k >= st.len then Crashed(st, IndexOutOfRange)
    else Running(SetSource4(st, k, Pointer(NewIPNET(net, DefaultSource4))))
  }

  /** The same for `Source6`. */
  function Source6Phase(net: NetLib, st: SliceState, k: nat, v: RouterConfig): (p: Progress)
    requires WellFormed(st) && k < |st.backing|
    ensures WellFormed(p.st) && |p.st.backing| == |st.backing|
  {
    if v.source6.Some? then Running(st)
    else if k >= st.len then Crashed(st, IndexOutOfRange)
    else Running(SetSource6(st, k, Pointer(NewIPNET(net, DefaultSource6))))
  }

  /** Iteration `k` of `for k, v := range c.Devices`: `v` is read from the
      backing array at the start of the iteration, then the three phases run
      in order, each on the state the previous one left. */
  function ValidateStep(net: NetLib, st: SliceState, k: nat): (p: Progress)
    requires WellFormed(st) && k < |st.backing|
    ensures WellFormed(p.st) && |p.st.backing| == |st.backing|
  {
    var v := st.backing[k];
    match RemovePhase(st, k, v)
    case Crashed(s1, c1) => Crashed(s1, c1)
    case Running(s1) =>
      match Source4Phase(net, s1, k, v)
      case Crashed(s2, c2) => Crashed(s2, c2)
      case Running(s2) => Source6Phase(net, s2, k, v)
  }

  /** The method state `st` with outcome `crash` is the one `p` describes. */
  predicate Reached(p: Progress, st: SliceState, crash: Option<Crash>) {
    && p.st == st
    && (crash.None? <==> p.Running?)
    && (crash.Some? ==> p.crash == crash.value)
  }

  /** Iterations `k` to `n - 1` of the pass, `n` being the slice length when
      the loop started. */
  function ValidateFrom(net: NetLib, st: SliceState, k: nat, n: nat): (p: Progress)
    requires WellFormed(st) && k <= n <= |st.backing|
    ensures WellFormed(p.st) && |p.st.backing| == |st.backing|
    decreases n - k
  {
    if k == n then Running(st)
    else
      match ValidateStep(net, st, k)
      case Crashed(s, c) => Crashed(s, c)
      case Running(s) => ValidateFrom(net, s, k + 1, n)
  }

  /** One device after defaulting: what the pass leaves when it does not
      remove anything. */
  function DefaultSources(net: NetLib, d: RouterConfig): RouterConfig
  {
    d.(source4 := if d.source4.None? then Pointer(NewIPNET(net, DefaultSource4)) else d.source4,
       source6 := if d.source6.None? then Pointer(NewIPNET(net, DefaultSource6)) else d.source6)
  }

  /** The defaulting's effect: `source4` never changes (its default does not
      parse), a missing `source6` becomes `::1/128` ipv6, nothing else moves. */
  lemma DefaultSourcesEffect(net: NetLib, d: RouterConfig)
    ensures DefaultSources(net, d).source4 == d.source4
    ensures DefaultSources(net, d).source6 ==
              (if d.source6.None? then Some(IPNet("::1", "128", IPv6)) else d.source6)
    ensures DefaultSources(net, d).(source4 := d.source4, source6 := d.source6) == d
  {
    DefaultSource4Invalid(net);
    DefaultSource6Loopback(net);
  }

  /** The first `k` devices defaulted, the rest as they were. */
  function PartlyDefaulted(net: NetLib, b: seq<RouterConfig>, k: nat): (r: seq<RouterConfig>)
    ensures |r| == |b|
  {
    seq(|b|, i requires 0 <= i < |b| => if i < k then DefaultSources(net, b[i]) else b[i])
  }

  lemma {:induction false} NoRemovalFrom(net: NetLib, b: seq<RouterConfig>, k: nat, n: nat)
    requires k <= n <= |b|
    requires forall i :: 0 <= i < n ==> b[i].hostname != ""
    ensures ValidateFrom(net, SliceState(PartlyDefaulted(net, b, k), n), k, n)
            == Running(SliceState(PartlyDefaulted(net, b, n), n))
    decreases n - k
  {
    if k < n {
      var st := SliceState(PartlyDefaulted(net, b, k), n);
      var next := SliceState(PartlyDefaulted(net, b, k + 1), n);
      assert st.backing[k] == b[k];
      assert ValidateStep(net, st, k) == Running(next) by {
        var v := b[k];
        var st2 := if v.source4.None? then SetSource4(st, k, Pointer(NewIPNET(net, DefaultSource4))) else st;
        var st3 := if v.source6.None? then SetSource6(st2, k, Pointer(NewIPNET(net, DefaultSource6))) else st2;
        assert st3.backing == next.backing;
      }
      NoRemovalFrom(net, b, k + 1, n);
    }
  }

  /** With every hostname set, the pass keeps the device count and order
      and only fills in missing source addresses. */
  lemma NoRemovalKeepsDevices(net: NetLib, b: seq<RouterConfig>)
    requires forall i :: 0 <= i < |b| ==> b[i].hostname != ""
    ensures ValidateFrom(net, SliceState(b, |b|), 0, |b|)
            == Running(SliceState(seq(|b|, i requires 0 <= i < |b| => DefaultSources(net, b[i])), |b|))
  {
    assert PartlyDefaulted(net, b, 0) == b;
    NoRemovalFrom(net, b, 0, |b|);
  }

  /** Two devices without hostname in a row: the first is spliced out, the
      second slides into its slot after that slot was checked, so it is never
      checked and stays; the stale copy of the last device sits past the new
      length. */
  lemma SkipAfterRemovalExample(net: NetLib, x: RouterConfig, y: RouterConfig, z: RouterConfig)
    requires x.hostname == "" && y.hostname == "" && z.hostname != ""
    requires x.source4.Some? && x.source6.Some? && z.source4.Some? && z.source6.Some?
    ensures ValidateFrom(net, SliceState([x, y, z], 3), 0, 3) == Running(SliceState([y, z, z], 2))
  {
    var s0 := SliceState([x, y, z], 3);
    var s1 := SliceState([y, z, z], 2);
    assert Spliced([x, y, z], 0, 3) == [y, z, z];
    assert ValidateStep(net, s0, 0) == Running(s1);
    assert ValidateStep(net, s1, 1) == Running(s1);
    assert ValidateStep(net, s1, 2) == Running(s1);
    assert ValidateFrom(net, s1, 2, 3) == Running(s1);
  }

  /** Removing the last device and then writing its missing `source4` into
      the shortened slice is an index-out-of-range panic. */
  lemma RemoveLastPanicsExample(net: NetLib, x: RouterConfig)
    requires x.hostname == "" && x.source4.None?
    ensures ValidateFrom(net, SliceState([x], 1), 0, 1) == Crashed(SliceState([x], 0), IndexOutOfRange)
  {
    assert Spliced([x], 0, 1) == [x];
  }

  /** `Config.Devices` as a Go slice: `devices` is the backing array, `count`
      the slice length. The other configuration sections are not modelled. */
  class Config {
    var devices: array<RouterConfig>
    var count: nat

    ghost predicate Valid()
      reads this
    {
      count <= devices.Length
    }

    constructor (ds: seq<RouterConfig>)
      ensures Valid() && fresh(devices)
      ensures devices[..] == ds && count == |ds|
    {
      devices := new RouterConfig[|ds|](i requires 0 <= i < |ds| => ds[i]);
      count := |ds|;
    }

    /** ValidateConfig. Returns the panic, if any, that stopped the pass;
        the state is then the state at the panic. */
    method ValidateConfig(net: NetLib) returns (crash: Option<Crash>)
      requires Valid()
      modifies this, devices
      ensures Valid() && devices == old(devices)
      ensures Reached(ValidateFrom(net, SliceState(old(devices[..]), old(count)), 0, old(count)),
                      SliceState(devices[..], count), crash)
    {
      ghost var goal := ValidateFrom(net, SliceState(devices[..], count), 0, count);
      var n := count;
      var k := 0;
      while k < n
        invariant Valid() && k <= n <= devices.Length && devices == old(devices)
        invariant ValidateFrom(net, SliceState(devices[..], count), k, n) == goal
      {
        ghost var st := SliceState(devices[..], count);
        var v := devices[k];
        crash := RemoveAt(k, v);
        if crash.Some? { return; }
        crash := FillSource4(net, k, v);
        if crash.Some? { return; }
        crash := FillSource6(net, k, v);
        if crash.Some? { return; }
        k := k + 1;
      }
      crash := None;
    }

    /** The copy `append` performs in place: the elements after `k` move
        one place left, the last old slot keeps its value. */
    method ShiftLeft(k: nat)
      requires Valid() && k < count
      modifies devices
      ensures devices[..] == Spliced(old(devices[..]), k, count)
    {
      ghost var b := devices[..];
      var j := k;
      while j < count - 1
        invariant k <= j <= count - 1 && |b| == devices.Length
        invariant forall i :: 0 <= i < k ==> devices[i] == b[i]
        invariant forall i :: k <= i < j ==> devices[i] == b[i + 1]
        invariant forall i :: j <= i < devices.Length ==> devices[i] == b[i]
      {
        devices[j] := devices[j + 1];
        j := j + 1;
      }
    }

    /** The splice phase of one iteration. */
    method RemoveAt(k: nat, v: RouterConfig) returns (crash: Option<Crash>)
      requires Valid() && k < devices.Length
      modifies this, devices
      ensures Valid() && devices == old(devices)
      ensures Reached(RemovePhase(SliceState(old(devices[..]), old(count)), k, v),
                      SliceState(devices[..], count), crash)
    {
      crash := None;
      if v.hostname == "" {
        if k + 1 > count {
          crash := Some(SliceBoundsOutOfRange);
          return;
        }
        ShiftLeft(k);
        count := count - 1;
      }
    }

    /** The `Source4` phase of one iteration. */
    method FillSource4(net: NetLib, k: nat, v: RouterConfig) returns (crash: Option<Crash>)
      requires Valid() && k < devices.Length
      modifies devices
      ensures Reached(Source4Phase(net, SliceState(old(devices[..]), count), k, v),
                      SliceState(devices[..], count), crash)
    {
      crash := None;
      if v.source4.None? {
        if k >= count {
          crash := Some(IndexOutOfRange);
          return;
        }
        var p4 := NewIPNET(net, DefaultSource4);
        devices[k] := devices[k].(source4 := Pointer(p4));
      }
    }

    /** The `Source6` phase of one iteration. */
    method FillSource6(net: NetLib, k: nat, v: RouterConfig) returns (crash: Option<Crash>)
      requires Valid() && k < devices.Length
      modifies devices
      ensures Reached(Source6Phase(net, SliceState(old(devices[..]), count), k, v),
                      SliceState(devices[..], count), crash)
    {
      crash := None;
      if v.source6.None? {
        if k >= count {
          crash := Some(IndexOutOfRange);
          return;
        }
        var p6 := NewIPNET(net, DefaultSource6);
        devices[k] := devices[k].(source6 := Pointer(p6));
      }
    }
  }
}
