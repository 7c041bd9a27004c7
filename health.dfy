/** The health reporting of pkg/http/grpc/grpc.go and
    server/http/grpc/grpc.go: at start-up the service is marked serving;
    on every tick each router is probed once, in map order, and a status
    is published for it only when its health flag changes. */
module Health {
  import opened Wrappers
  import opened Errs
  import opened Instances

  datatype ServingStatus = Serving | NotServing

  /** A published status: `service` is the gRPC service name, for a router
      `<ServiceName>/<device name>`. */
  datatype Note = Note(service: string, status: ServingStatus)

  /** `lookingglassconnect.LookingGlassServiceName`. */
  const ServiceName := "lookingglass.v0.LookingGlassService"

  function RouterService(name: string): string { ServiceName + "/" + name }

  /** The status table of the health checker. */
  class HealthChecker {
    var statuses: map<string, ServingStatus>

    constructor()
      ensures statuses == map[]
    {
      statuses := map[];
    }

    /** SetStatus: the service now has the status; no other entry changes. */
    method SetStatus(service: string, status: ServingStatus)
      modifies this
      ensures statuses == old(statuses)[service := status]
    {
      statuses := statuses[service := status];
    }
  }

  /** Mux: the service itself is marked serving once, before any tick. */
  method Mux(checker: HealthChecker)
    modifies checker
    ensures checker.statuses == old(checker.statuses)[ServiceName := Serving]
  {
    checker.SetStatus(ServiceName, Serving);
  }

  /** What one probe of one router publishes: Serving when a probe
      succeeds after the flag was down, NotServing when it fails after the
      flag was up, nothing when the flag stays as it was. */
  function EdgeNote(name: string, was: bool, outcome: Option<Error>): (n: seq<Note>)
    ensures |n| <= 1
    ensures |n| == 1 <==> was != outcome.None?
    ensures |n| == 1 ==> n[0] == Note(RouterService(name), if outcome.None? then Serving else NotServing)
  {
    if outcome.None? && !was then [Note(RouterService(name), Serving)]
    else if outcome.Some? && was then [Note(RouterService(name), NotServing)]
    else []
  }

  /** The notes of one tick for the first `n` routers, given their names,
      old flags and probe outcomes, in router order. */
  function Transitions(names: seq<string>, was: seq<bool>, outcomes: seq<Option<Error>>, n: nat): (t: seq<Note>)
    requires n <= |names| == |was| == |outcomes|
    ensures |t| <= n
  {
    if n == 0 then []
    else Transitions(names, was, outcomes, n - 1) + EdgeNote(names[n - 1], was[n - 1], outcomes[n - 1])
  }

  /** Publishing the notes one after the other. */
  function Apply(statuses: map<string, ServingStatus>, notes: seq<Note>): map<string, ServingStatus>
    decreases |notes|
  {
    if |notes| == 0 then statuses
    else Apply(statuses, notes[..|notes| - 1])[notes[|notes| - 1].service := notes[|notes| - 1].status]
  }

  /** Publishing at most one note. */
  function Publish(statuses: map<string, ServingStatus>, note: seq<Note>): map<string, ServingStatus>
    requires |note| <= 1
  {
    if |note| == 0 then statuses else statuses[note[0].service := note[0].status]
  }

  /** The status table after probing the first `n` routers of a tick. */
  function Published(statuses: map<string, ServingStatus>, names: seq<string>, was: seq<bool>,
                     outcomes: seq<Option<Error>>, n: nat): map<string, ServingStatus>
    requires n <= |names| == |was| == |outcomes|
  {
    if n == 0 then statuses
    else Publish(Published(statuses, names, was, outcomes, n - 1), EdgeNote(names[n - 1], was[n - 1], outcomes[n - 1]))
  }

  /** Publishing a batch and then at most one more note. */
  lemma ApplyPublish(statuses: map<string, ServingStatus>, notes: seq<Note>, more: seq<Note>)
    requires |more| <= 1
    ensures Apply(statuses, notes + more) == Publish(Apply(statuses, notes), more)
  {
    if |more| == 0 {
      assert notes + more == notes;
    } else {
      assert (notes + more)[..|notes + more| - 1] == notes;
    }
  }

  /** Probing router by router publishes exactly the tick's notes. */
  lemma {:induction false} PublishedApplies(statuses: map<string, ServingStatus>, names: seq<string>, was: seq<bool>,
                                            outcomes: seq<Option<Error>>, n: nat)
    requires n <= |names| == |was| == |outcomes|
    ensures Published(statuses, names, was, outcomes, n) == Apply(statuses, Transitions(names, was, outcomes, n))
  {
    if n > 0 {
      PublishedApplies(statuses, names, was, outcomes, n - 1);
      ApplyPublish(statuses, Transitions(names, was, outcomes, n - 1), EdgeNote(names[n - 1], was[n - 1], outcomes[n - 1]));
    }
  }

  /** The routers' names, in order. */
  function Names(rts: seq<RouterInstance>): (r: seq<string>)
    ensures |r| == |rts| && forall i :: 0 <= i < |rts| ==> r[i] == rts[i].config.name
    decreases |rts|
  {
    if |rts| == 0 then [] else Names(rts[..|rts| - 1]) + [rts[|rts| - 1].config.name]
  }

  /** The routers' health flags, in order. */
  function Flags(rts: seq<RouterInstance>): (r: seq<bool>)
    reads set i | 0 <= i < |rts| :: rts[i].health
    ensures |r| == |rts| && forall i :: 0 <= i < |rts| ==> r[i] == rts[i].health.healthy
    decreases |rts|
  {
    if |rts| == 0 then [] else Flags(rts[..|rts| - 1]) + [rts[|rts| - 1].health.healthy]
  }

  /** A health record after a probe with that outcome at that time. */
  predicate Stamped(h: HealthCheck, outcome: Option<Error>, at: int)
    reads h
  {
    h.healthy == outcome.None? && h.checked == at
  }

  /** The body of the tick loop for router `i`: remember its flag, probe
      it, publish a change. No other router's record changes. The ghost
      parameters are the whole tick's names, old flags and outcomes, the
      table before the tick and the notes so far: the note extends them. */
  method Probe(checker: HealthChecker, rts: seq<RouterInstance>, i: nat, outcomes: seq<Option<Error>>, now: int,
               ghost names: seq<string>, ghost was: seq<bool>, ghost start: map<string, ServingStatus>,
               ghost notes: seq<Note>)
    returns (note: seq<Note>)
    requires i < |rts| == |outcomes| == |names| == |was|
    requires forall j :: 0 <= j < |rts| && j != i ==> rts[j].health != rts[i].health
    requires names[i] == rts[i].config.name && was[i] == rts[i].health.healthy
    requires notes == Transitions(names, was, outcomes, i)
    requires checker.statuses == Published(start, names, was, outcomes, i)
    modifies checker, rts[i].health
    ensures Stamped(rts[i].health, outcomes[i], now)
    ensures forall j :: 0 <= j < |rts| && j != i ==>
              rts[j].health.healthy == old(rts[j].health.healthy) && rts[j].health.checked == old(rts[j].health.checked)
    ensures note == EdgeNote(rts[i].config.name, old(rts[i].health.healthy), outcomes[i])
    ensures notes + note == Transitions(names, was, outcomes, i + 1)
    ensures checker.statuses == Published(start, names, was, outcomes, i + 1)
  {
    var outcome := outcomes[i];
    var r := rts[i];
    var o := r.health.healthy;
    var err := r.Healthcheck(outcome, now);
    note := [];
    if err.None? {
      if !o {
        checker.SetStatus(RouterService(r.config.name), Serving);
        note := [Note(RouterService(r.config.name), Serving)];
      }
    } else {
      if o {
        checker.SetStatus(RouterService(r.config.name), NotServing);
        note := [Note(RouterService(r.config.name), NotServing)];
      }
    }
  }

  /** One tick of the health loop. `outcomes[i]` is the result of probing
      router `i`, `nows[i]` the clock read right after that probe. Every
      router's record is updated, the notes are the flag changes in router
      order, and each is published. */
  method Tick(checker: HealthChecker, rts: seq<RouterInstance>, outcomes: seq<Option<Error>>, nows: seq<int>)
    returns (notes: seq<Note>)
    requires |outcomes| == |rts| == |nows|
    requires forall i, j :: 0 <= i < j < |rts| ==> rts[i].health != rts[j].health
    modifies checker, set i | 0 <= i < |rts| :: rts[i].health
    ensures forall i :: 0 <= i < |rts| ==> Stamped(rts[i].health, outcomes[i], nows[i])
    ensures notes == Transitions(Names(rts), old(Flags(rts)), outcomes, |rts|)
    ensures checker.statuses == Apply(old(checker.statuses), notes)
  {
    ghost var was := Flags(rts);
    ghost var names := Names(rts);
    ghost var start := checker.statuses;
    notes := [];
    var i := 0;
    while i < |rts|
      invariant 0 <= i <= |rts|
      invariant forall j :: 0 <= j < i ==> Stamped(rts[j].health, outcomes[j], nows[j])
      invariant forall j :: i <= j < |rts| ==> rts[j].health.healthy == was[j]
      invariant notes == Transitions(names, was, outcomes, i)
      invariant checker.statuses == Published(start, names, was, outcomes, i)
    {
      var note := Probe(checker, rts, i, outcomes, nows[i], names, was, start, notes);
      notes := notes + note;
      i := i + 1;
    }
    PublishedApplies(start, names, was, outcomes, |rts|);
  }

  /** The notes one router causes over a series of ticks, starting from
      flag `was`. */
  function History(name: string, was: bool, outcomes: seq<Option<Error>>): seq<Note>
    decreases |outcomes|
  {
    if |outcomes| == 0 then []
    else EdgeNote(name, was, outcomes[0]) + History(name, outcomes[0].None?, outcomes[1..])
  }

  /** The flag after each tick, starting from `was`. */
  function FlagTrace(was: bool, outcomes: seq<Option<Error>>): (f: seq<bool>)
    ensures |f| == |outcomes| + 1 && f[0] == was
    ensures forall i :: 0 <= i < |outcomes| ==> f[i + 1] == outcomes[i].None?
    decreases |outcomes|
  {
    if |outcomes| == 0 then [was]
    else
      var rest := FlagTrace(outcomes[0].None?, outcomes[1..]);
      assert forall i :: 1 <= i < |outcomes| ==> outcomes[1..][i - 1] == outcomes[i];
      [was] + rest
  }

  /** The number of places where a flag sequence changes value. */
  function Changes(f: seq<bool>): nat
    decreases |f|
  {
    if |f| < 2 then 0 else (if f[0] != f[1] then 1 else 0) + Changes(f[1..])
  }

  /** A flag sequence without changes ends where it starts. */
  lemma {:induction false} NoChangesConstant(f: seq<bool>)
    requires |f| >= 1 && Changes(f) == 0
    ensures f[|f| - 1] == f[0]
    decreases |f|
  {
    if |f| >= 2 {
      NoChangesConstant(f[1..]);
    }
  }

  /** Every note a router causes is about that router's service. */
  lemma {:induction false} HistoryService(name: string, was: bool, outcomes: seq<Option<Error>>)
    ensures forall i :: 0 <= i < |History(name, was, outcomes)| ==>
              History(name, was, outcomes)[i].service == RouterService(name)
    decreases |outcomes|
  {
    if |outcomes| > 0 {
      HistoryService(name, outcomes[0].None?, outcomes[1..]);
    }
  }

  /** Over any series of ticks, a router's notes alternate between
      Serving and NotServing, and the first one is the opposite of the
      starting flag. */
  lemma {:induction false} HistoryAlternates(name: string, was: bool, outcomes: seq<Option<Error>>)
    ensures var h := History(name, was, outcomes);
            && (forall i :: 0 <= i < |h| - 1 ==> h[i].status != h[i + 1].status)
            && (|h| > 0 ==> h[0].status == (if was then NotServing else Serving))
    decreases |outcomes|
  {
    if |outcomes| > 0 {
      var now := outcomes[0].None?;
      HistoryAlternates(name, now, outcomes[1..]);
      var e := EdgeNote(name, was, outcomes[0]);
      var t := History(name, now, outcomes[1..]);
      var h := History(name, was, outcomes);
      assert h == e + t;
      if |e| == 1 {
        forall i | 0 <= i < |h| - 1 ensures h[i].status != h[i + 1].status {
          if i > 0 {
            assert h[i] == t[i - 1] && h[i + 1] == t[i];
          }
        }
      }
    }
  }

  /** There is one note per flag change. */
  lemma {:induction false} HistoryCountsChanges(name: string, was: bool, outcomes: seq<Option<Error>>)
    ensures |History(name, was, outcomes)| == Changes(FlagTrace(was, outcomes))
    decreases |outcomes|
  {
    if |outcomes| > 0 {
      var now := outcomes[0].None?;
      var rest := outcomes[1..];
      HistoryCountsChanges(name, now, rest);
      var f := FlagTrace(was, outcomes);
      assert f[1..] == FlagTrace(now, rest);
    }
  }

  /** The last note, if any, matches the final flag. */
  lemma {:induction false} HistoryEndsAtFlag(name: string, was: bool, outcomes: seq<Option<Error>>)
    ensures var h := History(name, was, outcomes);
            |h| > 0 ==> h[|h| - 1].status == (if FlagTrace(was, outcomes)[|outcomes|] then Serving else NotServing)
    decreases |outcomes|
  {
    if |outcomes| > 0 {
      var now := outcomes[0].None?;
      var rest := outcomes[1..];
      HistoryEndsAtFlag(name, now, rest);
      var e := EdgeNote(name, was, outcomes[0]);
      var t := History(name, now, rest);
      var h := History(name, was, outcomes);
      assert h == e + t;
      assert FlagTrace(now, rest)[|rest|] == FlagTrace(was, outcomes)[|outcomes|];
      if |t| > 0 {
        assert h[|h| - 1] == t[|t| - 1];
      } else {
        HistoryCountsChanges(name, now, rest);
        NoChangesConstant(FlagTrace(now, rest));
      }
    }
  }

  /** One more tick extends a router's notes by the edge note of that tick
      from the flag the earlier ticks left, the note `Tick` publishes for
      the router; so the notes of successive ticks are `History`. */
  lemma {:induction false} HistoryStep(name: string, was: bool, outcomes: seq<Option<Error>>, o: Option<Error>)
    ensures History(name, was, outcomes + [o]) ==
              History(name, was, outcomes) + EdgeNote(name, FlagTrace(was, outcomes)[|outcomes|], o)
    decreases |outcomes|
  {
    if |outcomes| > 0 {
      var rest := outcomes[1..];
      assert (outcomes + [o])[1..] == rest + [o];
      HistoryStep(name, outcomes[0].None?, rest, o);
      assert FlagTrace(outcomes[0].None?, rest)[|rest|] == FlagTrace(was, outcomes)[|outcomes|];
    }
  }
}
