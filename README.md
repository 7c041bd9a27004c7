# Looking-glass router layer in Dafny

This project models the router-abstraction layer of the AS203038 looking
glass. That layer sits between the RPC handlers and the SSH connection to the
routers. It covers these parts:

- **AS-path sanitiser** (`Sanitize`).
- **Address parser** (`IpNet`).
- **Configuration** (`Config`): the device defaulting pass and the two string
  builders.
- **FRRouting driver** (`FRRouting`): the compiled driver.
- **YAML template driver** (`YamlDriver`).
- **Driver interface and dispatch** (`Drivers`).
- **Router instances and the router map** (`Instances`).
- **Router-type registry** (`Registry`).
- **RPC handlers** (`Service`): pagination and the order of checks.
- **Health tick** (`Health`).

The repository carries two snapshots, `pkg/...` and `server/...`, with the
same logic. One set of definitions serves both. Where a member models code
that appears in both snapshots, its row cites the newer file and names the
other one.

**External parts are parameters or types.**

- **`net.ParseIP` / `net.ParseCIDR`.** These are the two predicates of a
  `NetLib`. A `NetLib` is a subset type whose constraint states what the
  model relies on:
  - a CIDR has exactly one `/` and an address before it;
  - a colon-free address has no two dots in a row;
  - `::1` parses.
- **`net.LookupHost`.** This is a function parameter.
- **`text/template`.** This is a `Renderer` function. Its failures are
  template errors.
- **`SSHExec`.** This is an `Executor`. The type carries its result
  taxonomy:
  - one output per command, or
  - `AuthFailed`, `ConnectionFailed` or `ExecFailed`.
- **Health probe outcomes and the clock.** These are inputs.
- **Go panics.** These are results: `Failure(Panic(...))` or a returned
  `Crash`.

**Where the code differs from the documented behaviour, the model follows
the code.** These are the differences:

- `register` panics on a duplicate name; it does not skip the later
  registration.
- A bare IPv4 address gets prefix `128`, not `32`. `NewIPNET` tests the
  family before setting it.
- The AS-path check accepts any text containing a digit or `_`, because its
  regular expression is unanchored.
- The IPv4 source default is `127.0.0..1`, not `127.0.0.1`. It does not parse,
  so a missing `Source4` stays nil (`Config.DefaultSource4Invalid`).
- Devices without a hostname are not simply dropped. The in-place splice
  skips the device after each removed one and can end in an index panic
  (`Config.ValidateFrom`, `Config.SkipAfterRemovalExample`,
  `Config.RemoveLastPanicsExample`).
- A page far past the end is not always an empty page. The uint32 window
  can wrap and panic (`Service.WrapCrashExample`, under "Findings").

## Model

| member | source | states |
|---|---|---|
| Sanitize.MatchIffPathChar | pkg/utils/sanitize.go:10 | the unanchored `[0-9_]+\$?` matches somewhere in the text iff the text contains a digit or `_` |
| Sanitize.SanitizeASPathRegex | pkg/utils/sanitize.go:13-30 | failures are exactly the three AS-path errors; a result starts with `_`, ends with `_` or `$`, and is at most two bytes longer than the input |
| Sanitize.SanitizeErrors | pkg/utils/sanitize.go:14-22 | empty input gives `ASPathEmpty` first; over 30 bytes gives `ASPathTooLong`; otherwise `ASPathMalformed` iff there is no digit and no `_`; success otherwise |
| Sanitize.SanitizeKeepsInput | pkg/utils/sanitize.go:23-28 | a result is the input with `_` put before it exactly when it does not start with `_`, and `$` put after it exactly when it ends in neither `_` nor `$` |
| Sanitize.SanitizeIdempotent | pkg/utils/sanitize.go:13-30 | sanitising a result of at most 30 bytes gives it back unchanged |
| Sanitize.SanitizeAnchoredExample | pkg/utils/sanitize.go:23-28 | `_65000_` is unchanged |
| Sanitize.SanitizeBareExample | pkg/utils/sanitize.go:23-28 | `65000` becomes `_65000$` |
| Sanitize.SanitizeDollarExample | pkg/utils/sanitize.go:23-28 | `65000$` becomes `_65000$` |
| Sanitize.SanitizeInjectionExample | pkg/utils/sanitize.go:20-28 | `65000; rm -rf` is accepted and becomes `_65000; rm -rf$` |
| Sanitize.SanitizeMalformedExample | pkg/utils/sanitize.go:20-22 | `abc` is `ASPathMalformed` |
| IpNet.FamilyString | pkg/utils/ipnet.go:31-33 | ipv4 prints as `ipv4`, ipv6 as `ipv6` and the unset family as the empty text, each text only for its family |
| IpNet.String | pkg/utils/ipnet.go:35-37 | the text is the IP, then `/`, then the prefix: its part before the `/` is the IP and its part after is the prefix |
| IpNet.NewIPNET | pkg/utils/ipnet.go:60-85 | a parsed record holds an address the parser accepts, its family is ipv6 iff the IP text has a `:`, and failures are `NetInvalid` or `IPInvalid` |
| IpNet.CidrRoundTrip | pkg/utils/ipnet.go:63-68 | text with `/` that is no CIDR is `NetInvalid`; a CIDR is split at the `/` and `String` gives the input back |
| IpNet.BareAddress | pkg/utils/ipnet.go:69-78 | text without `/` is accepted iff it is an address, otherwise `IPInvalid`; the IP text is kept and the prefix is always `128` |
| IpNet.IPv4DefaultPrefixExample | pkg/utils/ipnet.go:69-83 | `1.1.1.1` parses to ipv4 with prefix `128` |
| IpNet.ParsedFamilyExclusive | pkg/utils/ipnet.go:79-83 | a parsed record is exactly one of ipv4, ipv6, as the `IsIPv4`/`IsIPv6` predicates of lines 23-29 see it |
| IpNet.NewIPNetFromProtobuf | pkg/utils/ipnet.go:87-102 | empty text is `IPInvalid` without a lookup; text `NewIPNET` accepts is returned as parsed; any result holds an address of a set family |
| IpNet.UnmarshalYAML | pkg/utils/ipnet.go:48-58 | a decoding error is returned as is; text that does not parse is a nil dereference, never a returned parse error |
| Config.LinksString | pkg/utils/config.go:86-92 | no links give `""`; one link gives `text\|url` |
| Config.LinksStringEntries | pkg/utils/config.go:86-92 | without commas in the links, the string splits back into one `text\|url` entry per link, in link order |
| Config.SecurityTxtLines | pkg/utils/config.go:126-142 | there are always nine lines |
| Config.SecurityTxtNineLines | pkg/utils/config.go:126-142 | with single-line values, the text `SecurityTxtString` joins splits into the nine `Key: value` lines in the order Contact, Expires, Encryption, Acknowledgements, Preferred-Languages, Canonical, Policy, Hiring, CSAF; `Expires` carries the configured value, or the supplied default when none is set |
| Config.DefaultSource4Invalid | pkg/utils/config.go:150 | `127.0.0..1` is no address, so the default leaves `Source4` nil |
| Config.DefaultSource6Loopback | pkg/utils/config.go:153 | `::1` parses to ip `::1`, prefix `128`, family ipv6 |
| Config.Spliced | pkg/utils/config.go:147 | the splice moves later elements one place left in the same backing array and leaves the last old slot stale |
| Config.ValidateFrom | pkg/utils/config.go:145-155 | the range loop over the length fixed when it started, each iteration reading `v` from the backing array: the slice length never exceeds the backing array, whose size is kept |
| Config.DefaultSourcesEffect | pkg/utils/config.go:149-154 | `Source4` never changes; a nil `Source6` becomes `::1/128` ipv6; no other field changes |
| Config.NoRemovalKeepsDevices | pkg/utils/config.go:144-156 | when every hostname is set, the pass keeps the count and order and only fills in source addresses |
| Config.SkipAfterRemovalExample | pkg/utils/config.go:145-148 | for two hostname-less devices in a row, the second slides into the checked slot, is never checked, and stays |
| Config.RemoveLastPanicsExample | pkg/utils/config.go:146-151 | removing the last device and then defaulting its `Source4` is an index panic |
| Config.Config.ValidateConfig | pkg/utils/config.go:144-156 | the in-place pass over the array reaches exactly the state (or panic) that `ValidateFrom` prescribes from the old array and length |
| Config.Config.ShiftLeft | pkg/utils/config.go:147 | the in-place copy of every later element one slot left leaves the array equal to `Spliced` of the old array |
| Config.Config.RemoveAt | pkg/utils/config.go:146-148 | the in-place shift loop and length decrement equal `RemovePhase` |
| Config.Config.FillSource4 | pkg/utils/config.go:149-151 | the array write equals `Source4Phase` |
| Config.Config.FillSource6 | pkg/utils/config.go:152-154 | the array write equals `Source6Phase` |
| FRRouting.Ping | server/routers/frrouting.go:14-22 | a target of neither family is `FamilyInvalid`; a nil source for the family is a nil dereference; a target of either family whose source is set succeeds, with exactly one command |
| FRRouting.Traceroute | server/routers/frrouting.go:24-32 | the same three outcomes as Ping: `FamilyInvalid`, the nil dereference, or success with one command when the family's source is set |
| FRRouting.BGPRoute | server/routers/frrouting.go:34-37 | never fails; one command |
| FRRouting.BGPCommunity | server/routers/frrouting.go:39-44 | never fails; two commands |
| FRRouting.BGPASPath | server/routers/frrouting.go:46-51 | never fails; two commands |
| FRRouting.PingArguments | server/routers/frrouting.go:15-19 | the command's words are `ping -n <-4\|-6> -c 5 -I <family source> <target>` |
| FRRouting.TracerouteArguments | server/routers/frrouting.go:25-29 | the words are `traceroute <-4\|-6> -w 1 -q 1 -I --back --mtu -e -s <family source> <target>` |
| FRRouting.BGPRouteArguments | server/routers/frrouting.go:35-36 | the VRF, the family text and the address appear, in that order, as their own words |
| FRRouting.LookupArguments | server/routers/frrouting.go:39-51 | the ipv4 command comes first, then ipv6; each is a fixed head, then the argument verbatim whatever it holds (spaces, `;` and quotes included, as the sanitiser lets through), then the closing quote; when the VRF and the argument are single words, the VRF, the family and the argument are each their own word |
| FRRouting.LookupText | server/routers/frrouting.go:41-49 | a lookup command is a head that does not depend on the argument, then the argument unchanged, then `'` |
| FRRouting.ReadsOnlySourcesAndVrf | server/routers/frrouting.go:10-51 | devices that agree on the two source addresses and the VRF get the same commands |
| YamlDriver.SelectFamily | server/routers/yaml.go:73-86 | a declared `any` list wins; without one, a nil address is a nil dereference; any selected list is one of the three |
| YamlDriver.Select | server/routers/yaml.go:71-94 | names other than the five select no list |
| YamlDriver.RenderAll | server/routers/yaml.go:98-110 | success gives one output per template; a failure is a template error |
| YamlDriver.RenderAllMeaning | server/routers/yaml.go:98-110 | on success the i-th output is the i-th template rendered; a failure is the error of the first template that fails, every earlier one having rendered |
| YamlDriver.RenderLoop | server/routers/yaml.go:98-110 | the append loop with early return computes `RenderAll` |
| YamlDriver.Tpl | server/routers/yaml.go:95-97 | a nil list is `OperationUnknown`; a declared empty list gives no commands and no error; other failures are template errors or the nil dereference |
| YamlDriver.AnyOverridesFamily | server/routers/yaml.go:73-74 | with `any` declared, the wrappers `Ping` and `Traceroute` (lines 113-119) render that list for every address (traceroute: lines 81-82) |
| YamlDriver.FamilyPicksList | server/routers/yaml.go:75-78 | through the `Ping` wrapper (line 113), without `any`, the family's own list is rendered or `OperationUnknown` given, and the other family's list makes no difference |
| YamlDriver.UnsetFamilyUnknown | server/routers/yaml.go:75-79 | an address of neither family selects nothing |
| YamlDriver.NilListIgnoresRenderer | server/routers/yaml.go:95-97 | a nil list is `OperationUnknown` whatever the renderer |
| YamlDriver.UnknownOperation | server/routers/yaml.go:71-97 | an unknown operation name is `OperationUnknown` |
| YamlDriver.EmptyListNoCommands | server/routers/yaml.go:95-110 | `community: []` gives no commands and no error |
| YamlDriver.BGPListsIgnoreFamily | server/routers/yaml.go:88-93 | route, community and aspath each render their single list; the wrappers `BGPCommunity` and `BGPASPath` pass no address (lines 125-131) |
| YamlDriver.OnlyIPv4PingExample | server/routers/yaml.go:75-97 | a file with only IPv4 ping templates answers an IPv6 ping with `OperationUnknown` |
| Drivers.Commands | server/utils/interface.go:5-11 | a driver fails only with its own errors; FRRouting gives one or two commands and never fails for the BGP operations |
| Instances.RouterInstance.Healthcheck | server/utils/interface.go:24-33 | the time is always recorded, the flag is set iff the probe succeeded, and the probe's error is returned |
| Instances.RouterInstance.Run | server/utils/interface.go:35-73 | success has one output per driver command; errors are the driver's or one of the executor's three (the `Executor` type and its `Contract`, pkg/utils/ssh.go:10-47) |
| Exec.NoCommandsProbe | pkg/utils/ssh.go:10-47 | with no commands the executor gives no outputs or fails on the connection, or on the key file when one is configured; never `ExecFailed` |
| Instances.DriverBeforeExecutor | server/utils/interface.go:35-73 | a driver error is returned unchanged whatever the executor; otherwise the executor's result for exactly the driver's commands |
| Instances.Get | server/utils/interface.go:77-84 | the first instance with the name, or not found iff no instance has it |
| Instances.GetByID | server/utils/interface.go:86-92 | found iff `1 <= id <= len`, and then the entry at `id-1` |
| Instances.GetByIDBijection | server/utils/interface.go:86-92 | ids 0 and len+1 find nothing; ids 1..len reach every entry, each from one id when the entries are distinct |
| Registry.Accepted | server/routers/routers.go:33-46 | no more devices are kept than configured |
| Registry.AcceptedMembers | server/routers/routers.go:33-46 | a device is kept iff it is configured and its type is registered |
| Registry.AcceptedDense | server/routers/routers.go:33-46 | an accepted device's position is the number of accepted devices before it, so ids are dense and shift past skipped devices |
| Registry.Registry.Get | server/routers/routers.go:24-29 | the registered driver, or nil iff the name is not registered |
| Registry.Registry.Register | server/routers/routers.go:13-22 | an empty name panics, a taken name panics, both leaving the table unchanged; otherwise the name maps to the driver and all other names are as before |
| Registry.Registry.CreateRouterMap | server/routers/routers.go:31-48 | one new instance per accepted device in configuration order, bound to its type's driver, each with its own zero health record |
| Service.PageWindow | pkg/http/grpc/service.go:44-61 | the uint32 window (also server/http/grpc/service.go:29-46): a slice lies inside the map and holds at most `limit` routers; a next token implies routers remain |
| Service.IdealWindow | pkg/http/grpc/service.go:54-61 | (also server/http/grpc/service.go:39-46) with unbounded arithmetic, pages are full until the last, a next token is given iff routers remain, and the slice bounds are never inverted |
| Service.Bounds | pkg/http/grpc/service.go:45-58 | the defaulted limit and page and the uint32 `start`/`end`, clipped to the length, classify the request exactly as `PageWindow` does (also server/http/grpc/service.go:30-43) |
| Service.NoWrap | pkg/http/grpc/service.go:48-58 | while `page*limit` fits in 32 bits, the handlers' window is the ideal one (also server/http/grpc/service.go:33-43) |
| Service.WrapCrashExample | pkg/http/grpc/service.go:54-62 | 5 routers, limit 2^32-1, page 2^32-2: the window is `[3:2]`, a slice panic |
| Service.CollectFrom | pkg/http/grpc/service.go:54-80 | with the ideal window, following next tokens from a reachable page yields every later router once, in order (also server/http/grpc/service.go:39-58) |
| Service.PagingExhaustive | pkg/http/grpc/service.go:54-80 | with the ideal window, paging from page 1 with a fixed limit returns every router exactly once, in order, and stops (also server/http/grpc/service.go:39-58) |
| Service.GetRouters | pkg/http/grpc/service.go:43-85 | nothing past the end, a slice panic for inverted bounds, otherwise the window's routers in order with name, location, page-relative id and health, and the next token (the older snapshot's handler, server/http/grpc/service.go:28-63, is `GetRoutersLegacy`) |
| Service.GetRoutersLegacy | server/http/grpc/service.go:28-63 | the same window and ids, without health |
| Service.PageRelativeIds | pkg/http/grpc/service.go:62-66 | the entry with id `k+1` is the router `GetByID` reaches at `(page-1)*limit + k + 1` (also server/http/grpc/service.go:47-52) |
| Service.CommunityTextRoundTrip | pkg/http/grpc/service.go:166 | `asn:value` splits at the one colon into two decimal fields that read back as the numbers (also server/http/grpc/service.go:129) |
| Service.Parameter | pkg/http/grpc/service.go:93-96 | targets are parsed; a community is formatted, and a request without one is a nil dereference (lines 165-166); AS paths are sanitised and their error returned (lines 186-189) (also server/http/grpc/service.go:71-74, 128-129 and 144-147) |
| Service.Handle | pkg/http/grpc/service.go:87-109 | an unknown id is `UnknownRouter`; a bad parameter returns its error; success needs both checks to pass (all five handlers of both snapshots) |
| Service.UnknownRouterFirst | pkg/http/grpc/service.go:88-92 | an unknown id is reported whatever the request and backend (also server/http/grpc/service.go:66-70) |
| Service.ParameterBeforeDriver | pkg/http/grpc/service.go:93-96 | a bad target is reported whatever the driver and executor would do (also server/http/grpc/service.go:71-74) |
| Service.ResponseIsJoinedOutput | pkg/http/grpc/service.go:97-103 | the response is the operation's error or its outputs joined by newlines, which split back when no output holds a newline (also server/http/grpc/service.go:75-81) |
| Service.ASPathSanitisedFirst | pkg/http/grpc/service.go:186-190 | a rejected pattern returns the sanitiser's error; an accepted one reaches the driver anchored (also server/http/grpc/service.go:144-148) |
| Health.Mux | pkg/http/grpc/grpc.go:19 | the service status becomes Serving before any tick (also server/http/grpc/grpc.go:59) |
| Health.EdgeNote | pkg/http/grpc/grpc.go:31-42 | Serving is published iff the probe succeeds after a down flag; NotServing iff it fails after an up flag; nothing otherwise (also server/http/grpc/grpc.go:71-82) |
| Health.Probe | pkg/http/grpc/grpc.go:31-42 | router i only: its flag follows the probe and its time is stored, every other router is unchanged; the edge note it returns extends the tick's notes and status table by that router (also server/http/grpc/grpc.go:71-82) |
| Health.Tick | pkg/http/grpc/grpc.go:30-43 | every router is probed once, in map order; every flag equals its probe outcome and every time is the clock read after that router's probe (server/utils/interface.go:26); the notes are the flag changes in order, each published (also server/http/grpc/grpc.go:70-84) |
| Health.HistoryService | pkg/http/grpc/grpc.go:34-39 | a router's notes name `<service>/<router name>` (also server/http/grpc/grpc.go:74-79) |
| Health.HistoryAlternates | pkg/http/grpc/grpc.go:30-43 | over any series of ticks, a router's notes alternate, the first being the opposite of its starting flag (also server/http/grpc/grpc.go:71-82) |
| Health.PublishedApplies | pkg/http/grpc/grpc.go:30-43 | publishing router by router during a tick leaves the status table that publishing the tick's notes in order gives (also server/http/grpc/grpc.go:71-82) |
| Health.HistoryCountsChanges | pkg/http/grpc/grpc.go:30-43 | over any series of ticks there is exactly one note per flag change (also server/http/grpc/grpc.go:71-82) |
| Health.HistoryEndsAtFlag | pkg/http/grpc/grpc.go:30-43 | the last note a router causes is Serving iff its final flag is up (also server/http/grpc/grpc.go:71-82) |
| Health.HistoryStep | pkg/http/grpc/grpc.go:30-43 | one more tick extends a router's notes by exactly the edge note from the flag the earlier ticks left, which is the note `Tick` publishes for it; so `History` is the router's notes over successive ticks (also server/http/grpc/grpc.go:70-84) |

## Left out

- SSH execution (pkg/utils/ssh.go) is not part of this model. Only its result
  taxonomy is kept, as the `Executor` type.
- The executor is a function. So the same commands on the same device always
  give the same result.
- DNS resolution in `NewIPNetFromProtobuf` is a function parameter.
- `net.ParseIP` and `net.ParseCIDR` are oracles constrained only by the three
  facts of `NetLib`.
- Template parsing and execution are a `Renderer` function.
- Loading is not modelled:
  - the YAML `init` (embedded files and unmarshalling);
  - `ParseConfigYaml`;
  - the configuration sections that these operations do not read.
- Concurrency is not modelled:
  - the ticker and context loop around the health tick;
  - the goroutine `CreateRouterMap` starts per instance (routers.go:44);
  - the unsynchronised access to the health record.
- Time is not modelled. The clock readings of a tick are integer parameters,
  one per router; the default
  `Expires` value is a parameter; response timestamps and `GetInfo`/`Version`
  are dropped.
- The log interceptor, HTTP middleware, TLS, the web UI and the CLI are not
  part of this model.
- The grpchealth checker's own initial entries are not modelled. `HealthChecker`
  starts with an empty table.
- Error messages and log lines are not modelled. Errors are constructors of one
  datatype.
- Registry.Registry.CreateRouterMap: each instance is bound to its own copy of
  the device, as with per-iteration loop variables (Go 1.22 and later). The
  `&v` at routers.go:40 would make every instance share one device under older
  Go. The Go version is not known.
- Instances.RouterInstance.Healthcheck: the probe outcome is an input. The
  zero-command `SSHExec` call is not derived from the executor.
- Instances.GetByID: ids are unbounded integers. The int64 `id - 1` wraps only
  at the minimum int64, where the answer is "not found" either way.
- Service.GetRouters: the health time is one integer, not seconds and nanoseconds.
- Service.Handle: the newer snapshot returns the joined text as bytes with a
  timestamp; only the text is modelled.
- Service.PagingExhaustive: it is proved for `IdealWindow`. The handlers'
  window equals it (`Service.NoWrap`) only while `page*limit` fits in 32 bits.
- FRRouting.PingArguments: the command text is stated through its words,
  for source and target texts that are single words (parsed addresses are).
- FRRouting.TracerouteArguments: likewise, for single-word source and target.
- FRRouting.BGPRouteArguments: likewise, for a single-word VRF and address.
- FRRouting.LookupArguments: the word form is stated only for a single-word
  VRF and argument; the verbatim text holds for every argument.

## Findings

| source | as written | input that shows it | evidently intended | confidence | as-written member | corrected member |
|---|---|---|---|---|---|---|
| pkg/http/grpc/service.go:54-62 | `start` and `end` are computed in uint32, and only `start > len` is checked before slicing `rts[start:end]` | 5 routers, limit 4294967295, page token 4294967294: `start` wraps to 3 and `end` to 2, so the slice panics (the same code is at server/http/grpc/service.go:39-47) | compute the window without wrap-around, so a page past the end is empty | medium, not executed | Service.WrapCrashExample | Service.IdealWindow |

`Service.IdealWindow` never yields inverted bounds. On the same input it gives
no routers. `Service.NoWrap` shows that the two windows agree wherever the
arithmetic does not wrap. `Service.PagingExhaustive` and `Service.CollectFrom`
are proved for the ideal window, so for the handlers they hold on that range.
