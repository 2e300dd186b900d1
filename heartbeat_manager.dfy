/**
 * The opportunistic heartbeat: a loop that, depending on battery, charging
 * and Wi-Fi, periodically runs a discovery burst and connects to every
 * endpoint it has not yet synced with in this session, so that mesh
 * messages can flow through devices the user never added as contacts.
 */
module Heartbeat {
  import opened Wrappers
  import opened JavaInt
  import opened Device
  import opened Nearby

  /** How often and how long to look for peers. */
  datatype HeartbeatConfig = WifiCharging | WifiOnly | BatteryHigh | BatteryMedium | Disabled {
    function DiscoveryDurationMs(): (ms: int)
      ensures ms >= 0 && (ms == 0 <==> this == Disabled)
    {
      match this
      case WifiCharging => 15_000
      case WifiOnly => 6_000
      case BatteryHigh => 6_000
      case BatteryMedium => 6_000
      case Disabled => 0
    }

    function IntervalMs(): (ms: int)
      ensures ms >= 0 && (ms == 0 <==> this == Disabled)
    {
      match this
      case WifiCharging => 2 * 60 * 1000
      case WifiOnly => 2 * 60 * 1000
      case BatteryHigh => 5 * 60 * 1000
      case BatteryMedium => 10 * 60 * 1000
      case Disabled => 0
    }

    function Description(): string
    {
      match this
      case WifiCharging => "WiFi + Charging"
      case WifiOnly => "WiFi"
      case BatteryHigh => "Battery > 50%"
      case BatteryMedium => "Battery 30-50%"
      case Disabled => "Disabled (Battery < 30%)"
    }
  }

  /** How long the loop sleeps before looking at the device again when heartbeats are disabled. */
  const DISABLED_RECHECK_MS: int := 60_000

  /**
   * The first matching rule: a battery under 30% disables the heartbeat
   * whatever else holds; then Wi-Fi with charging, Wi-Fi alone, a battery
   * above 50%, and otherwise the most conservative setting.
   */
  function CalculateConfig(batteryLevel: int, isCharging: bool, isOnWifi: bool): (c: HeartbeatConfig)
    ensures c == Disabled <==> batteryLevel < 30
    ensures c == WifiCharging <==> batteryLevel >= 30 && isOnWifi && isCharging
    ensures c == WifiOnly <==> batteryLevel >= 30 && isOnWifi && !isCharging
    ensures c == BatteryHigh <==> batteryLevel > 50 && !isOnWifi
    ensures c == BatteryMedium <==> 30 <= batteryLevel <= 50 && !isOnWifi
  {
    if batteryLevel < 30 then Disabled
    else if isOnWifi && isCharging then WifiCharging
    else if isOnWifi then WifiOnly
    else if batteryLevel > 50 then BatteryHigh
    else BatteryMedium
  }

  /** More battery, with the same charger and network, never makes the heartbeat rarer or switches it off. */
  lemma MoreBatteryNeverSlower(low: int, high: int, isCharging: bool, isOnWifi: bool)
    requires low <= high
    ensures var a := CalculateConfig(low, isCharging, isOnWifi);
            var b := CalculateConfig(high, isCharging, isOnWifi);
            a != Disabled ==> b != Disabled && b.IntervalMs() <= a.IntervalMs()
  {
  }

  /** Counters for the UI; `lastHeartbeatTime` is the wall clock of the last burst. */
  datatype HeartbeatStats = HeartbeatStats(
    totalHeartbeats: nat,
    peersDiscovered: nat,
    successfulSyncs: nat,
    lastHeartbeatTime: Int64)

  function InitialStats(): (s: HeartbeatStats)
    ensures s.totalHeartbeats == 0 && s.peersDiscovered == 0 && s.successfulSyncs == 0 && s.lastHeartbeatTime == 0
  {
    HeartbeatStats(0, 0, 0, 0)
  }

  /** The discovered endpoints not yet synced and not being connected, in discovery order, repeats kept. */
  function NewEndpoints(discovered: seq<DiscoveredEndpoint>, synced: set<string>, pending: set<string>): (r: seq<DiscoveredEndpoint>)
    ensures |r| <= |discovered|
    ensures forall e :: e in r <==> e in discovered && e.endpointId !in synced && e.endpointId !in pending
  {
    if discovered == [] then []
    else
      var rest := NewEndpoints(discovered[..|discovered| - 1], synced, pending);
      var e := discovered[|discovered| - 1];
      if e.endpointId !in synced && e.endpointId !in pending then rest + [e] else rest
  }

  /** Each kept endpoint appears as often as it was discovered, and every other one not at all. */
  lemma {:induction false} NewEndpointsCount(discovered: seq<DiscoveredEndpoint>, synced: set<string>, pending: set<string>)
    ensures forall e :: multiset(NewEndpoints(discovered, synced, pending))[e] ==
              if e.endpointId !in synced && e.endpointId !in pending then multiset(discovered)[e] else 0
    decreases |discovered|
  {
    if discovered != [] {
      var n := |discovered| - 1;
      NewEndpointsCount(discovered[..n], synced, pending);
      assert discovered == discovered[..n] + [discovered[n]];
    }
  }

  /** Adding one endpoint at the end adds it to the new endpoints exactly when it is neither synced nor pending. */
  lemma NewEndpointsSnoc(s: seq<DiscoveredEndpoint>, e: DiscoveredEndpoint, synced: set<string>, pending: set<string>)
    ensures NewEndpoints(s + [e], synced, pending)
         == NewEndpoints(s, synced, pending) + (if e.endpointId !in synced && e.endpointId !in pending then [e] else [])
  {
    assert (s + [e])[..|s|] == s;
    assert NewEndpoints(s, synced, pending) + [] == NewEndpoints(s, synced, pending);
  }

  /** Filtering keeps the order: the new endpoints of two lists in a row are those of the first followed by those of the second. */
  lemma {:induction false} NewEndpointsAppend(a: seq<DiscoveredEndpoint>, b: seq<DiscoveredEndpoint>, synced: set<string>, pending: set<string>)
    ensures NewEndpoints(a + b, synced, pending) == NewEndpoints(a, synced, pending) + NewEndpoints(b, synced, pending)
    decreases |b|
  {
    if b == [] {
      assert a + b == a;
      assert NewEndpoints(a, synced, pending) + [] == NewEndpoints(a, synced, pending);
    } else {
      var n := |b| - 1;
      var c, e := b[..n], b[n];
      NewEndpointsAppend(a, c, synced, pending);
      assert b == c + [e];
      assert a + b == (a + c) + [e];
      NewEndpointsSnoc(a + c, e, synced, pending);
      NewEndpointsSnoc(c, e, synced, pending);
      var x, y := NewEndpoints(a, synced, pending), NewEndpoints(c, synced, pending);
      var z: seq<DiscoveredEndpoint> := if e.endpointId !in synced && e.endpointId !in pending then [e] else [];
      assert x + y + z == x + (y + z);
    }
  }

  /** The ids of the endpoints among `eps` whose connection request succeeds. */
  function Succeeded(eps: seq<DiscoveredEndpoint>, connects: string -> bool): set<string>
  {
    if eps == [] then {}
    else
      var e := eps[|eps| - 1];
      Succeeded(eps[..|eps| - 1], connects) + (if connects(e.endpointId) then {e.endpointId} else {})
  }

  /** How many of the attempts in `eps` succeed; an endpoint listed twice is attempted twice. */
  function SuccessCount(eps: seq<DiscoveredEndpoint>, connects: string -> bool): (n: nat)
    ensures n <= |eps|
  {
    if eps == [] then 0
    else SuccessCount(eps[..|eps| - 1], connects) + (if connects(eps[|eps| - 1].endpointId) then 1 else 0)
  }

  /** The synced ids are exactly the ids of the attempted endpoints that connected. */
  lemma {:induction false} SucceededAreTheConnected(eps: seq<DiscoveredEndpoint>, connects: string -> bool)
    ensures forall e :: e in eps ==> (e.endpointId in Succeeded(eps, connects) <==> connects(e.endpointId))
    ensures forall id :: id in Succeeded(eps, connects) ==>
              connects(id) && exists e :: e in eps && e.endpointId == id
  {
    if eps != [] {
      var rest, last := eps[..|eps| - 1], eps[|eps| - 1];
      SucceededAreTheConnected(rest, connects);
      assert eps == rest + [last];
      forall id | id in Succeeded(eps, connects)
        ensures connects(id) && exists e :: e in eps && e.endpointId == id
      {
        if id !in Succeeded(rest, connects) {
          assert id == last.endpointId;
        } else {
          var e :| e in rest && e.endpointId == id;
          assert e in eps;
        }
      }
    }
  }

  /** The count reaches the number of attempts exactly when every attempt connects, and is zero when none does. */
  lemma {:induction false} SuccessCountExtremes(eps: seq<DiscoveredEndpoint>, connects: string -> bool)
    ensures SuccessCount(eps, connects) == |eps| <==> forall e :: e in eps ==> connects(e.endpointId)
    ensures (forall e :: e in eps ==> !connects(e.endpointId)) ==> SuccessCount(eps, connects) == 0
  {
    if eps != [] {
      var rest, last := eps[..|eps| - 1], eps[|eps| - 1];
      SuccessCountExtremes(rest, connects);
      assert eps == rest + [last];
      assert forall e :: e in eps <==> e in rest || e == last;
      var restAll := forall e :: e in rest ==> connects(e.endpointId);
      var restNone := forall e :: e in rest ==> !connects(e.endpointId);
      assert (forall e :: e in eps ==> connects(e.endpointId)) <==> restAll && connects(last.endpointId);
      assert (forall e :: e in eps ==> !connects(e.endpointId)) <==> restNone && !connects(last.endpointId);
      assert SuccessCount(eps, connects) == SuccessCount(rest, connects) + (if connects(last.endpointId) then 1 else 0);
    }
  }

  /** Attempting the endpoint after a prefix of `eps` adds that attempt's outcome to the prefix's. */
  lemma AttemptOneMore(eps: seq<DiscoveredEndpoint>, i: nat, connects: string -> bool)
    requires i < |eps|
    ensures Succeeded(eps[..i + 1], connects) ==
            Succeeded(eps[..i], connects) + (if connects(eps[i].endpointId) then {eps[i].endpointId} else {})
    ensures SuccessCount(eps[..i + 1], connects) ==
            SuccessCount(eps[..i], connects) + (if connects(eps[i].endpointId) then 1 else 0)
  {
    assert eps[..i + 1][..i] == eps[..i];
  }

  /** The session bookkeeping a burst works on. */
  datatype Session = Session(synced: set<string>, pending: set<string>, stats: HeartbeatStats)

  /**
   * A burst as the source runs it. The connection request is a callback
   * flow that is never closed, so collecting it never returns: the first
   * new endpoint is attempted and its outcome recorded, and the burst then
   * waits for ever with that endpoint still pending. `completed` says
   * whether the burst got past the connection loop.
   */
  function BurstAsWritten(s: Session, eps: seq<DiscoveredEndpoint>, connects: string -> bool): (r: (Session, bool))
    ensures r.1 <==> eps == []
    ensures eps == [] ==> r.0 == s
  {
    if eps == [] then (s, true)
    else
      var id := eps[0].endpointId;
      var ok := connects(id);
      (Session(
         if ok then s.synced + {id} else s.synced,
         s.pending + {id},
         if ok then s.stats.(successfulSyncs := s.stats.successfulSyncs + 1) else s.stats),
       false)
  }

  /**
   * Two new endpoints that would both accept: as written, the second one is
   * never attempted, the first stays pending, and the burst is not counted
   * in `peersDiscovered`.
   */
  lemma BurstAsWrittenStallsAfterFirstEndpoint()
    ensures var e1 := DiscoveredEndpoint("e1", "one", "svc");
            var e2 := DiscoveredEndpoint("e2", "two", "svc");
            var s := Session({}, {}, InitialStats());
            var r := BurstAsWritten(s, [e1, e2], (id: string) => true);
            !r.1 && "e1" in r.0.pending && "e2" !in r.0.synced && r.0.stats.peersDiscovered == 0
  {
    var e1 := DiscoveredEndpoint("e1", "one", "svc");
    var e2 := DiscoveredEndpoint("e2", "two", "svc");
    assert [e1, e2][0] == e1;
    assert "e2" != "e1";
  }

  class HeartbeatManager {
    /** The connection layer whose discovered endpoints a burst reads. */
    const nearby: NearbyManager
    var isRunning: bool
    var currentConfig: HeartbeatConfig
    var stats: HeartbeatStats
    /** Endpoints connected in this session, never attempted again until the history is cleared. */
    var synced: set<string>
    /** Endpoints whose connection request is in flight. */
    var pending: set<string>

    /** Between bursts no connection is left in flight. */
    predicate Valid()
      reads this
    {
      pending == {}
    }

    constructor(nearby: NearbyManager)
      ensures Valid()
      ensures this.nearby == nearby
      ensures !isRunning && currentConfig == Disabled && stats == InitialStats()
      ensures synced == {} && pending == {}
    {
      this.nearby := nearby;
      isRunning := false;
      currentConfig := Disabled;
      stats := InitialStats();
      synced := {};
      pending := {};
    }

    /** Starts the loop; a second start while running does nothing. */
    method Start()
      modifies this
      ensures isRunning
      ensures currentConfig == old(currentConfig) && stats == old(stats)
      ensures synced == old(synced) && pending == old(pending)
    {
      if isRunning {
        return;
      }
      isRunning := true;
    }

    /** Stops the loop and forgets the session's sync history. */
    method Stop()
      modifies this
      ensures Valid()
      ensures !isRunning && synced == {} && pending == {}
      ensures currentConfig == old(currentConfig) && stats == old(stats)
    {
      isRunning := false;
      synced := {};
      pending := {};
    }

    /** Forgets which endpoints were synced, so the next burst tries them all again. */
    method ClearSyncHistory()
      modifies this
      ensures synced == {}
      ensures isRunning == old(isRunning) && currentConfig == old(currentConfig)
      ensures stats == old(stats) && pending == old(pending)
    {
      synced := {};
    }

    /**
     * One connection attempt, completing with the first result the request
     * reports: the endpoint is pending while in flight, recorded as synced
     * and counted on success, and no longer pending afterwards.
     */
    method AutoConnectForRelay(endpoint: DiscoveredEndpoint, connects: string -> bool)
      modifies this
      ensures synced == old(synced) + (if connects(endpoint.endpointId) then {endpoint.endpointId} else {})
      ensures pending == old(pending) - {endpoint.endpointId}
      ensures stats == old(stats).(successfulSyncs := old(stats).successfulSyncs +
                                                       (if connects(endpoint.endpointId) then 1 else 0))
      ensures isRunning == old(isRunning) && currentConfig == old(currentConfig)
    {
      pending := pending + {endpoint.endpointId};
      if connects(endpoint.endpointId) {
        synced := synced + {endpoint.endpointId};
        stats := stats.(successfulSyncs := stats.successfulSyncs + 1);
      }
      pending := pending - {endpoint.endpointId};
    }

    /** Attempts every endpoint of `eps` in turn. */
    method ConnectAll(eps: seq<DiscoveredEndpoint>, connects: string -> bool)
      requires Valid()
      modifies this
      ensures Valid()
      ensures synced == old(synced) + Succeeded(eps, connects)
      ensures stats == old(stats).(successfulSyncs := old(stats).successfulSyncs + SuccessCount(eps, connects))
      ensures isRunning == old(isRunning) && currentConfig == old(currentConfig)
    {
      ghost var synced0, stats0 := synced, stats;
      for i := 0 to |eps|
        invariant pending == {}
        invariant synced == synced0 + Succeeded(eps[..i], connects)
        invariant stats == stats0.(successfulSyncs := stats0.successfulSyncs + SuccessCount(eps[..i], connects))
        invariant isRunning == old(isRunning) && currentConfig == old(currentConfig)
      {
        AttemptOneMore(eps, i, connects);
        AutoConnectForRelay(eps[i], connects);
      }
      assert eps[..|eps|] == eps;
    }

    /**
     * One burst. Without a local user nothing happens. Otherwise the burst
     * is counted and time-stamped, every new endpoint is attempted in turn,
     * and the number of new endpoints is added to `peersDiscovered`.
     * `connects` gives the outcome of each connection request.
     */
    method PerformHeartbeat(user: Option<string>, now: Int64, connects: string -> bool)
      requires Valid()
      modifies this
      ensures Valid()
      ensures user.None? ==> stats == old(stats) && synced == old(synced)
      ensures user.Some? ==>
        var eps := NewEndpoints(nearby.discoveredEndpoints, old(synced), old(pending));
        synced == old(synced) + Succeeded(eps, connects) &&
        stats == HeartbeatStats(old(stats).totalHeartbeats + 1,
                                old(stats).peersDiscovered + |eps|,
                                old(stats).successfulSyncs + SuccessCount(eps, connects),
                                now)
      ensures isRunning == old(isRunning) && currentConfig == old(currentConfig)
    {
      if user.None? {
        return;
      }
      stats := stats.(lastHeartbeatTime := now, totalHeartbeats := stats.totalHeartbeats + 1);
      var eps := NewEndpoints(nearby.discoveredEndpoints, synced, pending);
      ConnectAll(eps, connects);
      if |eps| > 0 {
        stats := stats.(peersDiscovered := stats.peersDiscovered + |eps|);
      }
    }

    /**
     * One turn of the loop, with the device readings of that moment: if
     * the loop is still running, choose the configuration, run a burst
     * unless heartbeats are disabled, and return how long to sleep.
     */
    method Tick(level: Int32, scale: Int32, batteryStatus: int, isOnWifi: bool,
                user: Option<string>, now: Int64, connects: string -> bool) returns (sleepMs: Option<int>)
      requires Valid()
      modifies this
      ensures Valid()
      ensures !old(isRunning) ==> sleepMs.None? && currentConfig == old(currentConfig) && stats == old(stats) && synced == old(synced)
      ensures old(isRunning) ==>
        currentConfig == CalculateConfig(BatteryLevel(level, scale), IsCharging(batteryStatus), isOnWifi) &&
        sleepMs == Some(if currentConfig == Disabled then DISABLED_RECHECK_MS else currentConfig.IntervalMs())
      ensures old(isRunning) && currentConfig == Disabled ==> stats == old(stats) && synced == old(synced)
      ensures old(isRunning) && currentConfig != Disabled && user.None? ==> stats == old(stats) && synced == old(synced)
      ensures old(isRunning) && currentConfig != Disabled && user.Some? ==>
        var eps := NewEndpoints(nearby.discoveredEndpoints, old(synced), old(pending));
        synced == old(synced) + Succeeded(eps, connects) &&
        stats == HeartbeatStats(old(stats).totalHeartbeats + 1,
                                old(stats).peersDiscovered + |eps|,
                                old(stats).successfulSyncs + SuccessCount(eps, connects),
                                now)
      ensures isRunning == old(isRunning)
    {
      if !isRunning {
        return None;
      }
      var config := CalculateConfig(BatteryLevel(level, scale), IsCharging(batteryStatus), isOnWifi);
      currentConfig := config;
      if config != Disabled {
        PerformHeartbeat(user, now, connects);
        sleepMs := Some(config.IntervalMs());
      } else {
        sleepMs := Some(DISABLED_RECHECK_MS);
      }
    }
  }
}
