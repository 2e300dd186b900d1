/**
 * The per-node routing table of the mesh: destination -> route, node id ->
 * what is known about that node, and the set of direct neighbours.
 *
 * Routes are learned in two ways: a connected peer becomes a one-hop route
 * to itself, and a topology announce from a neighbour teaches two-hop
 * routes through that neighbour to the peers it lists. The clock reading
 * the source takes from `System.currentTimeMillis()` is the parameter `now`.
 */
module Routing {
  import opened Wrappers
  import opened JavaInt
  import opened MeshProtocol

  /** What this node knows about another node. */
  datatype NodeInfo = NodeInfo(
    nodeId: string,
    displayName: string,
    capabilities: Option<NodeCapabilities>,
    lastSeen: Int64)

  /** How to reach `destination`: hand the message to `nextHop`. */
  datatype RouteEntry = RouteEntry(
    destination: string,
    nextHop: string,
    hopCount: Int32,
    lastUpdated: Int64,
    capabilities: Option<NodeCapabilities>)

  /** Default age after which a learned route is dropped: five minutes. */
  const DEFAULT_MAX_ROUTE_AGE_MS: Int64 := 300_000

  // ------------------------------------------------------- table invariants

  /** Every route is keyed by its destination, is one or two hops, and a one-hop route goes straight there. */
  predicate WellFormedRoutes(routes: map<string, RouteEntry>)
  {
    forall d :: d in routes ==>
      routes[d].destination == d &&
      (routes[d].hopCount == 1 || routes[d].hopCount == 2) &&
      (routes[d].hopCount == 1 ==> routes[d].nextHop == d)
  }

  /** Every direct neighbour has a one-hop route through itself. */
  predicate NeighbourRoutes(routes: map<string, RouteEntry>, neighbours: set<string>)
  {
    forall n :: n in neighbours ==> n in routes && routes[n].nextHop == n && routes[n].hopCount == 1
  }

  /** The weaker guarantee: every direct neighbour is routed through itself, at some hop count. */
  predicate NeighboursRoutedDirectly(routes: map<string, RouteEntry>, neighbours: set<string>)
  {
    forall n :: n in neighbours ==> n in routes && routes[n].nextHop == n
  }

  // ------------------------------------------------- learning from announces

  /** The capabilities recorded for `d`, if any. */
  function CapabilitiesOf(known: map<string, NodeInfo>, d: string): (r: Option<NodeCapabilities>)
    ensures d !in known ==> r.None?
  {
    if d in known then known[d].capabilities else None
  }

  /**
   * The refresh rule for a peer `p` listed by neighbour `from`: take the
   * two-hop route if there is no route, if the current one is longer, or if
   * it already goes through `from`.
   */
  predicate Replaces(routes: map<string, RouteEntry>, p: string, from: string)
  {
    p !in routes || 2 < routes[p].hopCount || routes[p].nextHop == from
  }

  /** The route through `from` that an announce teaches for peer `p`. */
  function TwoHopRoute(known: map<string, NodeInfo>, p: string, from: string, ts: Int64): (e: RouteEntry)
    ensures e.destination == p && e.nextHop == from && e.hopCount == 2 && e.lastUpdated == ts
  {
    RouteEntry(p, from, 2, ts, CapabilitiesOf(known, p))
  }

  /** One pass of the loop body for peer `p`; peers in `skip` are passed over. */
  function LearnStep(routes: map<string, RouteEntry>, known: map<string, NodeInfo>, from: string,
                     p: string, ts: Int64, skip: set<string>): (r: map<string, RouteEntry>)
    ensures r.Keys == routes.Keys + (if p in skip then {} else {p})
    ensures forall d :: d in routes && d != p ==> r[d] == routes[d]
    ensures p !in skip ==> r[p] == (if Replaces(routes, p, from) then TwoHopRoute(known, p, from, ts) else routes[p])
  {
    if p in skip || !Replaces(routes, p, from) then routes
    else routes[p := TwoHopRoute(known, p, from, ts)]
  }

  /** The loop over `connectedPeers`, in list order. */
  function LearnRoutes(routes: map<string, RouteEntry>, known: map<string, NodeInfo>, from: string,
                       peers: seq<string>, ts: Int64, skip: set<string>): (r: map<string, RouteEntry>)
    ensures r.Keys == routes.Keys + (set q | q in peers && q !in skip)
    ensures forall d :: d in routes && d !in peers ==> r[d] == routes[d]
    decreases |peers|
  {
    if peers == [] then routes
    else LearnStep(LearnRoutes(routes, known, from, peers[..|peers| - 1], ts, skip),
                   known, from, peers[|peers| - 1], ts, skip)
  }

  /** One more turn of the loop over a prefix of `peers`. */
  lemma LearnRoutesSnoc(routes: map<string, RouteEntry>, known: map<string, NodeInfo>, from: string,
                        peers: seq<string>, i: nat, ts: Int64, skip: set<string>)
    requires i < |peers|
    ensures LearnRoutes(routes, known, from, peers[..i + 1], ts, skip)
         == LearnStep(LearnRoutes(routes, known, from, peers[..i], ts, skip), known, from, peers[i], ts, skip)
  {
    assert peers[..i + 1][..i] == peers[..i];
  }

  /**
   * The same result stated without the loop: a listed peer outside `skip`
   * gets the two-hop route exactly when the refresh rule held for the table
   * the loop started from; every other entry is as it was.
   */
  function LearnedRoutes(routes: map<string, RouteEntry>, known: map<string, NodeInfo>, from: string,
                         peers: seq<string>, ts: Int64, skip: set<string>): map<string, RouteEntry>
  {
    map d | d in routes.Keys + (set p | p in peers && p !in skip) ::
      if d in peers && d !in skip && Replaces(routes, d, from) then TwoHopRoute(known, d, from, ts)
      else routes[d]
  }

  /** One more peer on the list: the loop step applied to the closed form gives the closed form. */
  lemma LearnStepExtends(routes: map<string, RouteEntry>, known: map<string, NodeInfo>, from: string,
                         init: seq<string>, p: string, ts: Int64, skip: set<string>)
    ensures LearnStep(LearnedRoutes(routes, known, from, init, ts, skip), known, from, p, ts, skip)
         == LearnedRoutes(routes, known, from, init + [p], ts, skip)
  {
    var before := LearnedRoutes(routes, known, from, init, ts, skip);
    var after := LearnStep(before, known, from, p, ts, skip);
    var peers := init + [p];
    var want := LearnedRoutes(routes, known, from, peers, ts, skip);
    assert forall x :: x in peers <==> x in init || x == p;
    forall d | d != p
      ensures d in after <==> d in want
      ensures d in after ==> after[d] == want[d]
    {
      assert d in after <==> d in before;
    }
    if p in skip {
      assert after == before;
    } else if Replaces(before, p, from) {
      // `p` was either untouched so far (the rule is read on the original
      // table) or already rewritten through `from` (and the rule held then).
      assert Replaces(routes, p, from);
      assert p in after && p in want && after[p] == want[p];
    } else {
      assert p in init ==> !Replaces(routes, p, from);
      assert p !in init ==> before[p] == routes[p];
      assert p in after && p in want && after[p] == want[p];
    }
    assert after.Keys == want.Keys;
  }

  /** The loop computes the closed form, whatever the order or repetitions of the peers. */
  lemma {:induction false} LearnRoutesIsLearnedRoutes(routes: map<string, RouteEntry>, known: map<string, NodeInfo>,
                                                      from: string, peers: seq<string>, ts: Int64, skip: set<string>)
    ensures LearnRoutes(routes, known, from, peers, ts, skip) == LearnedRoutes(routes, known, from, peers, ts, skip)
    decreases |peers|
  {
    if peers == [] {
      assert LearnedRoutes(routes, known, from, peers, ts, skip) == routes;
    } else {
      var init := peers[..|peers| - 1];
      var p := peers[|peers| - 1];
      LearnRoutesIsLearnedRoutes(routes, known, from, init, ts, skip);
      LearnStepExtends(routes, known, from, init, p, ts, skip);
      assert init + [p] == peers;
    }
  }

  /** Every route the loop writes goes through the announcer with two hops, and never to a skipped id. */
  lemma LearnedRouteShape(routes: map<string, RouteEntry>, known: map<string, NodeInfo>, from: string,
                          peers: seq<string>, ts: Int64, skip: set<string>, d: string)
    requires d in LearnRoutes(routes, known, from, peers, ts, skip)
    ensures var r := LearnRoutes(routes, known, from, peers, ts, skip);
            (d in routes && r[d] == routes[d]) ||
            (d in peers && d !in skip && r[d].nextHop == from && r[d].hopCount == 2 && r[d].lastUpdated == ts)
  {
    LearnRoutesIsLearnedRoutes(routes, known, from, peers, ts, skip);
  }

  /**
   * A route is displaced only under the refresh rule: a route of at most two
   * hops through another neighbour, in particular a one-hop route, survives.
   */
  lemma LearnKeepsOtherRoutes(routes: map<string, RouteEntry>, known: map<string, NodeInfo>, from: string,
                              peers: seq<string>, ts: Int64, skip: set<string>, d: string)
    requires d in routes && !Replaces(routes, d, from)
    ensures var r := LearnRoutes(routes, known, from, peers, ts, skip); d in r && r[d] == routes[d]
  {
    LearnRoutesIsLearnedRoutes(routes, known, from, peers, ts, skip);
  }

  /** The loop keeps the table well formed. */
  lemma LearnPreservesWellFormed(routes: map<string, RouteEntry>, known: map<string, NodeInfo>, from: string,
                                 peers: seq<string>, ts: Int64, skip: set<string>)
    requires WellFormedRoutes(routes)
    ensures WellFormedRoutes(LearnRoutes(routes, known, from, peers, ts, skip))
  {
    LearnRoutesIsLearnedRoutes(routes, known, from, peers, ts, skip);
  }

  /**
   * Skipping the announcer itself as well as the local node keeps every
   * direct neighbour on its one-hop route.
   */
  lemma LearnPreservesNeighbourRoutes(routes: map<string, RouteEntry>, known: map<string, NodeInfo>, from: string,
                                      peers: seq<string>, ts: Int64, skip: set<string>, neighbours: set<string>)
    requires NeighbourRoutes(routes, neighbours)
    requires from in skip
    ensures NeighbourRoutes(LearnRoutes(routes, known, from, peers, ts, skip), neighbours)
  {
    LearnRoutesIsLearnedRoutes(routes, known, from, peers, ts, skip);
    var r := LearnedRoutes(routes, known, from, peers, ts, skip);
    forall n | n in neighbours
      ensures n in r && r[n].nextHop == n && r[n].hopCount == 1
    {
      assert n in skip || !Replaces(routes, n, from);
    }
  }

  /** Even as written, a direct neighbour stays routed through itself (possibly at two hops). */
  lemma LearnAsWrittenKeepsNeighboursDirect(routes: map<string, RouteEntry>, known: map<string, NodeInfo>,
                                            from: string, peers: seq<string>, ts: Int64, local: string,
                                            neighbours: set<string>)
    requires NeighbourRoutes(routes, neighbours)
    ensures NeighboursRoutedDirectly(LearnRoutes(routes, known, from, peers, ts, {local}), neighbours)
  {
    LearnRoutesIsLearnedRoutes(routes, known, from, peers, ts, {local});
  }

  /**
   * As written (only the local id skipped), an announce relayed by neighbour
   * B that lists B among the originator's peers turns B's one-hop route into
   * a two-hop route through B: on the line A - B - C, node C demotes B.
   */
  lemma LearnAsWrittenDemotesNeighbour()
    ensures var before := map["B" := RouteEntry("B", "B", 1, 0, None)];
            var after := LearnRoutes(before, map[], "B", ["B"], 5, {"C"});
            NeighbourRoutes(before, {"B"}) && !NeighbourRoutes(after, {"B"}) && after["B"].hopCount == 2
  {
    var before := map["B" := RouteEntry("B", "B", 1, 0, None)];
    assert ["B"][..0] == [];
    assert LearnRoutes(before, map[], "B", ["B"], 5, {"C"}) == before["B" := TwoHopRoute(map[], "B", "B", 5)];
  }

  // -------------------------------------------------- removal and clean-up

  /** The routes left when neighbour `n` goes: every route through `n` is dropped. */
  function WithoutRoutesVia(routes: map<string, RouteEntry>, n: string): (r: map<string, RouteEntry>)
    ensures forall d :: d in r <==> d in routes && routes[d].nextHop != n
    ensures forall d :: d in r ==> r[d] == routes[d]
  {
    map d | d in routes && routes[d].nextHop != n :: routes[d]
  }

  /** `now - lastUpdated > maxAge`, the subtraction in 64-bit arithmetic. */
  predicate IsStale(e: RouteEntry, maxAgeMs: Int64, now: Int64)
  {
    Wrap64(now - e.lastUpdated) > maxAgeMs
  }

  /** For clock readings that are not negative, a route is stale exactly when more than `maxAgeMs` has passed. */
  lemma StaleByElapsedTime(e: RouteEntry, maxAgeMs: Int64, now: Int64)
    requires 0 <= e.lastUpdated && 0 <= now
    ensures IsStale(e, maxAgeMs, now) <==> now - e.lastUpdated > maxAgeMs
  {
    assert IsInt64(now) && IsInt64(e.lastUpdated);
    assert IsInt64(now - e.lastUpdated);
  }

  /**
   * The subtraction wraps: a route stamped at the earliest 64-bit time
   * looks fresh at any later reading, since the elapsed time overflows to
   * a negative value.
   */
  lemma StaleWrapsAround(e: RouteEntry, maxAgeMs: Int64)
    requires e.lastUpdated == -0x8000_0000_0000_0000 && maxAgeMs >= 0
    ensures !IsStale(e, maxAgeMs, 0x7FFF_FFFF_FFFF_FFFF)
  {
    assert Wrap64(0x7FFF_FFFF_FFFF_FFFF - e.lastUpdated) == -1;
  }

  /** The routes left by a clean-up: stale routes go unless they lead to a direct neighbour. */
  function WithoutStaleRoutes(routes: map<string, RouteEntry>, neighbours: set<string>,
                              maxAgeMs: Int64, now: Int64): (r: map<string, RouteEntry>)
    ensures forall d :: d in r <==> d in routes && !(IsStale(routes[d], maxAgeMs, now) && d !in neighbours)
    ensures forall d :: d in r ==> r[d] == routes[d]
  {
    map d | d in routes && !(IsStale(routes[d], maxAgeMs, now) && d !in neighbours) :: routes[d]
  }

  /** Removing a neighbour keeps the other neighbours' one-hop routes. */
  lemma RemovePreservesInvariants(routes: map<string, RouteEntry>, neighbours: set<string>, n: string)
    requires WellFormedRoutes(routes) && NeighbourRoutes(routes, neighbours)
    ensures WellFormedRoutes(WithoutRoutesVia(routes, n))
    ensures NeighbourRoutes(WithoutRoutesVia(routes, n), neighbours - {n})
    ensures n in routes && routes[n].hopCount == 1 ==> n !in WithoutRoutesVia(routes, n)
  {
  }

  /** Clean-up never touches a neighbour's route, at any age. */
  lemma CleanupKeepsNeighbours(routes: map<string, RouteEntry>, neighbours: set<string>, maxAgeMs: Int64, now: Int64)
    requires WellFormedRoutes(routes) && NeighbourRoutes(routes, neighbours)
    ensures WellFormedRoutes(WithoutStaleRoutes(routes, neighbours, maxAgeMs, now))
    ensures NeighbourRoutes(WithoutStaleRoutes(routes, neighbours, maxAgeMs, now), neighbours)
    ensures forall n :: n in neighbours ==> WithoutStaleRoutes(routes, neighbours, maxAgeMs, now)[n] == routes[n]
  {
  }

  // ------------------------------------------------------- store-node ranking

  /** A node can take a message for storage: not excluded and advertising store-and-forward. */
  predicate IsStoreCandidate(info: NodeInfo, exclude: set<string>)
  {
    info.nodeId !in exclude && info.capabilities.Some? && info.capabilities.value.canStoreForward
  }

  /**
   * The ranking order: uptime class first (ALWAYS_ON best), then more
   * storage, then better link quality. `a` ranks no worse than `b`.
   */
  predicate RanksNoWorse(a: NodeCapabilities, b: NodeCapabilities)
  {
    a.uptimeClass.Ordinal() < b.uptimeClass.Ordinal() ||
    (a.uptimeClass.Ordinal() == b.uptimeClass.Ordinal() &&
      (a.availableStorageMB > b.availableStorageMB ||
       (a.availableStorageMB == b.availableStorageMB &&
        a.connectionQuality.Ordinal() <= b.connectionQuality.Ordinal())))
  }

  /** The ranking is a total preorder. */
  lemma RankingIsTotalPreorder(a: NodeCapabilities, b: NodeCapabilities, c: NodeCapabilities)
    ensures RanksNoWorse(a, b) || RanksNoWorse(b, a)
    ensures RanksNoWorse(a, b) && RanksNoWorse(b, c) ==> RanksNoWorse(a, c)
  {
  }

  /** Uptime outranks storage and quality: an always-on node with little storage beats a frequent one with more. */
  lemma AlwaysOnOutranksStorage()
    ensures var a := NodeCapabilities(true, true, 10, 168, AlwaysOn, Low);
            var b := NodeCapabilities(true, true, 100, 168, Frequent, High);
            RanksNoWorse(a, b) && !RanksNoWorse(b, a)
  {
  }

  // -------------------------------------------------------------- the table

  class RoutingTable {
    const localNodeId: string
    var routes: map<string, RouteEntry>
    var knownNodes: map<string, NodeInfo>
    var directNeighbors: set<string>

    predicate Valid()
      reads this
    {
      WellFormedRoutes(routes) && NeighbourRoutes(routes, directNeighbors)
    }

    constructor(localNodeId: string)
      ensures Valid()
      ensures this.localNodeId == localNodeId
      ensures routes == map[] && knownNodes == map[] && directNeighbors == {}
    {
      this.localNodeId := localNodeId;
      routes := map[];
      knownNodes := map[];
      directNeighbors := {};
    }

    /** A peer became connected: it is known, a neighbour, and a one-hop route to itself. */
    method AddDirectNeighbor(nodeId: string, nodeInfo: NodeInfo, now: Int64)
      requires Valid()
      modifies this
      ensures Valid()
      ensures knownNodes == old(knownNodes)[nodeId := nodeInfo]
      ensures routes == old(routes)[nodeId := RouteEntry(nodeId, nodeId, 1, now, nodeInfo.capabilities)]
      ensures directNeighbors == old(directNeighbors) + {nodeId}
      ensures IsDirectNeighbor(nodeId) && CanReach(nodeId)
      ensures nodeId != localNodeId ==> FindRoute(nodeId) == Some(RouteEntry(nodeId, nodeId, 1, now, nodeInfo.capabilities))
    {
      knownNodes := knownNodes[nodeId := nodeInfo];
      routes := routes[nodeId := RouteEntry(nodeId, nodeId, 1, now, nodeInfo.capabilities)];
      directNeighbors := directNeighbors + {nodeId};
    }

    /** A peer went away: it stops being a neighbour and every route through it is dropped. */
    method RemoveDirectNeighbor(nodeId: string)
      requires Valid()
      modifies this
      ensures Valid()
      ensures directNeighbors == old(directNeighbors) - {nodeId}
      ensures routes == WithoutRoutesVia(old(routes), nodeId)
      ensures knownNodes == old(knownNodes)
      ensures !IsDirectNeighbor(nodeId)
    {
      RemovePreservesInvariants(routes, directNeighbors, nodeId);
      directNeighbors := directNeighbors - {nodeId};
      routes := WithoutRoutesVia(routes, nodeId);
    }

    /**
     * Learn from an announce received from neighbour `fromNodeId`: record the
     * announcing node, refresh its one-hop route when it sent the announce
     * itself, then learn two-hop routes to its listed peers, passing over
     * the local node and the announcer.
     */
    method ProcessTopologyAnnounce(fromNodeId: string, announce: MeshMessage)
      requires Valid() && announce.TopologyAnnounce?
      modifies this
      ensures Valid()
      ensures knownNodes == old(knownNodes)[announce.nodeId :=
                NodeInfo(announce.nodeId, announce.displayName, Some(announce.capabilities), announce.timestamp)]
      ensures routes == LearnRoutes(AnnouncerRoute(old(routes), fromNodeId, announce), knownNodes, fromNodeId,
                                    announce.connectedPeers, announce.timestamp, {localNodeId, fromNodeId})
      ensures directNeighbors == old(directNeighbors)
    {
      knownNodes := knownNodes[announce.nodeId :=
        NodeInfo(announce.nodeId, announce.displayName, Some(announce.capabilities), announce.timestamp)];
      routes := AnnouncerRoute(routes, fromNodeId, announce);
      ghost var start := routes;
      assert WellFormedRoutes(start) && NeighbourRoutes(start, directNeighbors);
      var peers := announce.connectedPeers;
      var skip := {localNodeId, fromNodeId};
      for i := 0 to |peers|
        invariant routes == LearnRoutes(start, knownNodes, fromNodeId, peers[..i], announce.timestamp, skip)
        invariant knownNodes == old(knownNodes)[announce.nodeId :=
                    NodeInfo(announce.nodeId, announce.displayName, Some(announce.capabilities), announce.timestamp)]
        invariant directNeighbors == old(directNeighbors)
      {
        LearnRoutesSnoc(start, knownNodes, fromNodeId, peers, i, announce.timestamp, skip);
        var peerId := peers[i];
        if peerId == localNodeId || peerId == fromNodeId {
          continue;
        }
        if peerId !in routes || 2 < routes[peerId].hopCount || routes[peerId].nextHop == fromNodeId {
          routes := routes[peerId := RouteEntry(peerId, fromNodeId, 2, announce.timestamp, CapabilitiesOf(knownNodes, peerId))];
        }
      }
      assert peers[..|peers|] == peers;
      LearnPreservesWellFormed(start, knownNodes, fromNodeId, peers, announce.timestamp, skip);
      LearnPreservesNeighbourRoutes(start, knownNodes, fromNodeId, peers, announce.timestamp, skip, directNeighbors);
    }

    /** The route with which an announce starts: the sender's one-hop route when it announces itself. */
    static function AnnouncerRoute(routes: map<string, RouteEntry>, fromNodeId: string, announce: MeshMessage)
      : (r: map<string, RouteEntry>)
      requires announce.TopologyAnnounce?
      ensures announce.nodeId == fromNodeId ==>
        r == routes[fromNodeId := RouteEntry(fromNodeId, fromNodeId, 1, announce.timestamp, Some(announce.capabilities))]
      ensures announce.nodeId != fromNodeId ==> r == routes
      ensures WellFormedRoutes(routes) ==> WellFormedRoutes(r)
      ensures forall n :: NeighbourRoutes(routes, n) ==> NeighbourRoutes(r, n)
    {
      if announce.nodeId == fromNodeId then
        routes[fromNodeId := RouteEntry(fromNodeId, fromNodeId, 1, announce.timestamp, Some(announce.capabilities))]
      else routes
    }

    /** The route to `destinationId`; never one to the local node. */
    function FindRoute(destinationId: string): (r: Option<RouteEntry>)
      reads this
      ensures destinationId == localNodeId ==> r.None?
      ensures destinationId != localNodeId ==> (r.Some? <==> destinationId in routes)
      ensures r.Some? ==> r.value == routes[destinationId]
    {
      if destinationId == localNodeId then None
      else if destinationId in routes then Some(routes[destinationId])
      else None
    }

    /** The next hop of `FindRoute`. */
    function GetNextHop(destinationId: string): (r: Option<string>)
      reads this
      ensures r.Some? <==> FindRoute(destinationId).Some?
      ensures r.Some? ==> r.value == FindRoute(destinationId).value.nextHop
      ensures Valid() && destinationId in directNeighbors && destinationId != localNodeId ==> r == Some(destinationId)
    {
      if destinationId == localNodeId || destinationId !in routes then None
      else Some(routes[destinationId].nextHop)
    }

    function IsDirectNeighbor(nodeId: string): (r: bool)
      reads this
      ensures r <==> nodeId in directNeighbors
      ensures r && Valid() ==> CanReach(nodeId)
    {
      nodeId in directNeighbors
    }

    /** Whether any route to `nodeId` is held (the local id included, unlike `FindRoute`). */
    function CanReach(nodeId: string): (r: bool)
      reads this
      ensures r <==> nodeId in routes
      ensures nodeId != localNodeId ==> (r <==> FindRoute(nodeId).Some?)
    {
      nodeId in routes
    }

    /**
     * The best node to hold a message for an offline destination: none when
     * no known node outside `excludeNodes` offers store-and-forward,
     * otherwise one that ranks no worse than any other candidate.
     */
    method FindBestStoreNode(excludeNodes: set<string> := {}) returns (r: Option<NodeInfo>)
      ensures r.None? <==> forall k :: k in knownNodes ==> !IsStoreCandidate(knownNodes[k], excludeNodes)
      ensures r.Some? ==> r.value in knownNodes.Values && IsStoreCandidate(r.value, excludeNodes)
      ensures r.Some? ==> forall k :: k in knownNodes && IsStoreCandidate(knownNodes[k], excludeNodes) ==>
                RanksNoWorse(r.value.capabilities.value, knownNodes[k].capabilities.value)
    {
      r := None;
      var remaining := knownNodes.Keys;
      while remaining != {}
        invariant remaining <= knownNodes.Keys
        invariant r.None? <==> forall k :: k in knownNodes && k !in remaining ==> !IsStoreCandidate(knownNodes[k], excludeNodes)
        invariant r.Some? ==> r.value in knownNodes.Values && IsStoreCandidate(r.value, excludeNodes)
        invariant r.Some? ==> forall k :: k in knownNodes && k !in remaining && IsStoreCandidate(knownNodes[k], excludeNodes) ==>
                    RanksNoWorse(r.value.capabilities.value, knownNodes[k].capabilities.value)
        decreases remaining
      {
        var k :| k in remaining;
        var info := knownNodes[k];
        if IsStoreCandidate(info, excludeNodes) {
          if r.None? || !RanksNoWorse(r.value.capabilities.value, info.capabilities.value) {
            if r.Some? {
              forall j | j in knownNodes && j !in remaining && IsStoreCandidate(knownNodes[j], excludeNodes)
                ensures RanksNoWorse(info.capabilities.value, knownNodes[j].capabilities.value)
              {
                RankingIsTotalPreorder(info.capabilities.value, r.value.capabilities.value, knownNodes[j].capabilities.value);
              }
            }
            r := Some(info);
          } else {
            RankingIsTotalPreorder(r.value.capabilities.value, info.capabilities.value, info.capabilities.value);
          }
        }
        remaining := remaining - {k};
      }
    }

    /** Drop routes older than `maxAgeMs`, except those to direct neighbours. */
    method CleanupStaleRoutes(now: Int64, maxAgeMs: Int64 := DEFAULT_MAX_ROUTE_AGE_MS)
      requires Valid()
      modifies this
      ensures Valid()
      ensures routes == WithoutStaleRoutes(old(routes), directNeighbors, maxAgeMs, now)
      ensures knownNodes == old(knownNodes) && directNeighbors == old(directNeighbors)
    {
      CleanupKeepsNeighbours(routes, directNeighbors, maxAgeMs, now);
      routes := WithoutStaleRoutes(routes, directNeighbors, maxAgeMs, now);
    }

    /** The direct neighbours as a list, each once, in no particular order. */
    method GetConnectedPeerIds() returns (ids: seq<string>)
      ensures forall x :: x in ids <==> x in directNeighbors
      ensures forall i, j :: 0 <= i < j < |ids| ==> ids[i] != ids[j]
    {
      ids := [];
      var remaining := directNeighbors;
      while remaining != {}
        invariant remaining <= directNeighbors
        invariant forall x :: x in ids <==> x in directNeighbors && x !in remaining
        invariant forall i, j :: 0 <= i < j < |ids| ==> ids[i] != ids[j]
        decreases remaining
      {
        var n :| n in remaining;
        ids := ids + [n];
        remaining := remaining - {n};
      }
    }
  }
}
