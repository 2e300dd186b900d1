/**
 * The mesh manager every node runs: it originates messages, relays those
 * addressed to other nodes, holds messages for offline destinations and
 * keeps its routing table current from topology announces. Payloads leave
 * through the connection layer's send log; events for the rest of the app
 * are appended to `events`. Clock readings are the parameter `now`, the
 * device readings are parameters, and each background loop is one method
 * called once per period.
 */
module Mesh {
  import opened Wrappers
  import opened JavaInt
  import opened Json
  import opened MeshProtocol
  import opened Routing
  import opened StoredMessages
  import opened StoredMessageStore
  import opened Nearby
  import opened Device
  import opened MeshPolicy

  /** The signed-in user, as the user repository returns it. */
  datatype LocalUser = LocalUser(id: string, displayName: string)

  /** One send of `payload` to the endpoint of each node of `ns`, in that order. */
  function SendsTo(ns: seq<string>, endpoints: map<string, string>, payload: Json): (r: seq<Outgoing>)
    requires forall n :: n in ns ==> n in endpoints
    ensures |r| == |ns|
    ensures forall i :: 0 <= i < |ns| ==> r[i] == Outgoing(endpoints[ns[i]], payload)
  {
    if ns == [] then []
    else SendsTo(ns[..|ns| - 1], endpoints, payload) + [Outgoing(endpoints[ns[|ns| - 1]], payload)]
  }

  lemma SendsToSnoc(ns: seq<string>, n: string, endpoints: map<string, string>, payload: Json)
    requires forall x :: x in ns ==> x in endpoints
    requires n in endpoints
    ensures SendsTo(ns + [n], endpoints, payload) == SendsTo(ns, endpoints, payload) + [Outgoing(endpoints[n], payload)]
  {
    assert (ns + [n])[..|ns|] == ns;
  }

  lemma DistinctSnoc(s: seq<string>, x: string)
    requires Distinct(s) && x !in s
    ensures Distinct(s + [x])
  {
    forall i, j | 0 <= i < j < |s + [x]|
      ensures (s + [x])[i] != (s + [x])[j]
    {
      if j == |s| {
        assert (s + [x])[i] == s[i];
      }
    }
  }

  /**
   * The acknowledgement of a routed message: sent only to the last node of
   * its path, and only when that node has a known endpoint.
   */
  function AckSends(m: MeshMessage, status: RouteAckStatus, storedBy: Option<string>, now: Int64,
                    endpoints: map<string, string>): (r: seq<Outgoing>)
    requires m.RoutedMessage?
    ensures |r| <= 1
    ensures r != [] <==> m.path != [] && m.path[|m.path| - 1] in endpoints
    ensures r != [] ==> r[0].endpointId == endpoints[m.path[|m.path| - 1]]
  {
    if m.path != [] && m.path[|m.path| - 1] in endpoints then
      [Outgoing(endpoints[m.path[|m.path| - 1]], CreateRouteAck(m.messageId, m.originalSender, status, now, storedBy))]
    else []
  }

  /** The previous hop reads the acknowledgement back with the message id, sender and status it was given. */
  lemma AckReachesPreviousHop(m: MeshMessage, status: RouteAckStatus, storedBy: Option<string>, now: Int64,
                              endpoints: map<string, string>)
    requires m.RoutedMessage? && AckSends(m, status, storedBy, now, endpoints) != []
    ensures MeshProtocol.ParseMessage(AckSends(m, status, storedBy, now, endpoints)[0].payload)
         == Some(RouteAck(m.messageId, m.originalSender, status, storedBy, now))
  {
    RouteAckRoundTrip(m.messageId, m.originalSender, status, now, storedBy);
  }

  /** `FindBestStoreNode`'s promise about a choice among `known`. */
  predicate IsBestStore(known: map<string, NodeInfo>, exclude: set<string>, r: Option<NodeInfo>)
  {
    (r.None? <==> forall k :: k in known ==> !IsStoreCandidate(known[k], exclude)) &&
    (r.Some? ==>
       r.value in known.Values && IsStoreCandidate(r.value, exclude) &&
       forall k :: k in known && IsStoreCandidate(known[k], exclude) ==>
         RanksNoWorse(r.value.capabilities.value, known[k].capabilities.value))
  }

  /** The state a send looks at: the node's routes and neighbours, the endpoints of connected peers, and the store flag. */
  datatype SendView = SendView(localNodeId: string, routes: map<string, RouteEntry>, directNeighbors: set<string>,
                               peerToEndpoint: map<string, string>, canStoreForward: bool)

  function EndpointIn(peerToEndpoint: map<string, string>, peerId: string): Option<string>
  {
    if peerId in peerToEndpoint then Some(peerToEndpoint[peerId]) else None
  }

  /** What a send to `destinationId` finds in `v`, `storeNode` being the store node chosen if one is looked for. */
  function LookupIn(v: SendView, destinationId: string, storeNode: Option<NodeInfo>): SendLookup
  {
    var route := if destinationId != v.localNodeId && destinationId in v.routes then Some(v.routes[destinationId]) else None;
    SendLookup(
      destinationId in v.directNeighbors,
      EndpointIn(v.peerToEndpoint, destinationId),
      route,
      if route.Some? then EndpointIn(v.peerToEndpoint, route.value.nextHop) else None,
      v.canStoreForward,
      storeNode,
      if storeNode.Some? then EndpointIn(v.peerToEndpoint, storeNode.value.nodeId) else None)
  }

  class MeshManager {
    const nearby: NearbyManager
    const dao: StoredMessageDao
    var localNodeId: Option<string>
    var routingTable: RoutingTable?
    var capabilities: NodeCapabilities
    /** Ids of messages already handled, oldest first. */
    var seen: seq<string>
    var events: seq<MeshEvent>

    /** The table exists exactly once the node has an id, and it is that node's table. */
    predicate Valid()
      reads this, routingTable, dao
    {
      (routingTable == null <==> localNodeId.None?) &&
      (routingTable != null ==> routingTable.Valid() && routingTable.localNodeId == localNodeId.value) &&
      dao.Valid() &&
      Distinct(seen) && |seen| <= MAX_SEEN_MESSAGES
    }

    constructor(nearby: NearbyManager, dao: StoredMessageDao)
      requires dao.Valid()
      ensures Valid()
      ensures this.nearby == nearby && this.dao == dao
      ensures localNodeId.None? && routingTable == null && capabilities == DefaultCapabilities
      ensures seen == [] && events == []
    {
      this.nearby := nearby;
      this.dao := dao;
      localNodeId := None;
      routingTable := null;
      capabilities := DefaultCapabilities;
      seen := [];
      events := [];
    }

    /** What a send of a new message to `destinationId` finds, `storeNode` being the store node chosen if one is looked for. */
    function LookupSend(destinationId: string, storeNode: Option<NodeInfo>): SendLookup
      reads this`routingTable, this`capabilities, routingTable, nearby`peerToEndpoint
      requires routingTable != null
    {
      var route := routingTable.FindRoute(destinationId);
      SendLookup(
        routingTable.IsDirectNeighbor(destinationId),
        nearby.GetEndpointIdForPeer(destinationId),
        route,
        if route.Some? then nearby.GetEndpointIdForPeer(route.value.nextHop) else None,
        capabilities.canStoreForward,
        storeNode,
        if storeNode.Some? then nearby.GetEndpointIdForPeer(storeNode.value.nodeId) else None)
    }

    /** Lookups that are what `base` finds save for a store node of their own are what a send to `destinationId` finds. */
    lemma AllLookupSend(destinationId: string, base: SendLookup, lookups: seq<SendLookup>)
      requires routingTable != null && base == LookupSend(destinationId, None)
      requires AllWithStoreNode(base, lookups, nearby.peerToEndpoint)
      ensures forall j :: 0 <= j < |lookups| ==> lookups[j] == LookupSend(destinationId, lookups[j].storeNode)
    {
      forall j | 0 <= j < |lookups|
        ensures lookups[j] == LookupSend(destinationId, lookups[j].storeNode)
      {
        AllWithStoreNodeAt(base, lookups, nearby.peerToEndpoint, j);
      }
    }

    /** The state a send looks at now. */
    function SendViewNow(): SendView
      reads this`routingTable, this`capabilities, routingTable, nearby`peerToEndpoint
      requires routingTable != null
    {
      SendView(routingTable.localNodeId, routingTable.routes, routingTable.directNeighbors,
               nearby.peerToEndpoint, capabilities.canStoreForward)
    }

    /** A send finds what the state it looks at says. */
    lemma LookupSendIn(destinationId: string, storeNode: Option<NodeInfo>)
      requires routingTable != null
      ensures LookupSend(destinationId, storeNode) == LookupIn(SendViewNow(), destinationId, storeNode)
    {
    }

    /**
     * The lookups of a pass of tries, each what a send to its message's
     * destination finds in `view`, stay so when the lookups of the tries to
     * `d` made while `view` is the state are added.
     */
    lemma LookupsAppend(view: SendView, h1: seq<StoredMessageEntity>, l1: seq<SendLookup>,
                        h2: seq<StoredMessageEntity>, l2: seq<SendLookup>, d: string)
      requires routingTable != null && view == SendViewNow() && |l1| == |h1| && |l2| == |h2|
      requires forall j :: 0 <= j < |h1| ==> l1[j] == LookupIn(view, h1[j].finalDestination, l1[j].storeNode)
      requires forall m :: m in h2 ==> m.finalDestination == d
      requires forall j :: 0 <= j < |h2| ==> l2[j] == LookupSend(d, l2[j].storeNode)
      ensures forall j :: 0 <= j < |h1 + h2| ==>
                (l1 + l2)[j] == LookupIn(view, (h1 + h2)[j].finalDestination, (l1 + l2)[j].storeNode)
    {
      forall j | 0 <= j < |h1 + h2|
        ensures (l1 + l2)[j] == LookupIn(view, (h1 + h2)[j].finalDestination, (l1 + l2)[j].storeNode)
      {
        if j >= |h1| {
          assert h2[j - |h1|] in h2;
          LookupSendIn(d, l2[j - |h1|].storeNode);
        }
      }
    }

    /** Lookups made in `view`, while `view` is still the state, are what a send finds now. */
    lemma LookupsNow(view: SendView, held: seq<StoredMessageEntity>, lookups: seq<SendLookup>)
      requires routingTable != null && view == SendViewNow() && |lookups| == |held|
      requires forall j :: 0 <= j < |held| ==> lookups[j] == LookupIn(view, held[j].finalDestination, lookups[j].storeNode)
      ensures forall j :: 0 <= j < |held| ==> lookups[j] == LookupSend(held[j].finalDestination, lookups[j].storeNode)
    {
      forall j | 0 <= j < |held|
        ensures lookups[j] == LookupSend(held[j].finalDestination, lookups[j].storeNode)
      {
        LookupSendIn(held[j].finalDestination, lookups[j].storeNode);
      }
    }

    /** What a relay finds about `destinationId`. */
    function LookupRelay(destinationId: string): RelayLookup
      reads this`routingTable, this`capabilities, routingTable, nearby`peerToEndpoint
      requires routingTable != null
    {
      var hop := routingTable.GetNextHop(destinationId);
      RelayLookup(
        routingTable.IsDirectNeighbor(destinationId),
        nearby.GetEndpointIdForPeer(destinationId),
        hop,
        if hop.Some? then nearby.GetEndpointIdForPeer(hop.value) else None,
        capabilities.canStoreForward)
    }

    // ---------------------------------------------------------- set-up

    /**
     * Without a signed-in user nothing happens. Otherwise the user's id
     * becomes the node id, the node gets a fresh routing table, and the
     * capabilities are set from the device readings.
     */
    method Initialize(user: Option<LocalUser>, level: Int32, scale: Int32, batteryStatus: int, isOnWifi: bool, now: Int64)
      requires Valid()
      modifies this, nearby`sent
      ensures Valid()
      ensures user.None? ==> localNodeId == old(localNodeId) && routingTable == old(routingTable) &&
                             capabilities == old(capabilities)
      ensures user.Some? ==>
        localNodeId == Some(user.value.id) && fresh(routingTable) &&
        routingTable.routes == map[] && routingTable.knownNodes == map[] && routingTable.directNeighbors == {} &&
        capabilities == CapabilityTier(BatteryLevel(level, scale), IsCharging(batteryStatus), isOnWifi)
      ensures nearby.sent == old(nearby.sent) && nearby.peerToEndpoint == old(nearby.peerToEndpoint)
      ensures seen == old(seen) && events == old(events)
    {
      if user.None? {
        return;
      }
      localNodeId := Some(user.value.id);
      routingTable := new RoutingTable(user.value.id);
      var _ := UpdateCapabilities(level, scale, batteryStatus, isOnWifi, now);
    }

    /**
     * Recompute the capabilities from the device readings; when they change
     * and the node is set up, tell every direct neighbour with a known
     * endpoint, in some order, each once.
     */
    method UpdateCapabilities(level: Int32, scale: Int32, batteryStatus: int, isOnWifi: bool, now: Int64)
      returns (ghost order: seq<string>)
      requires Valid()
      modifies this, nearby`sent
      ensures Valid()
      ensures capabilities == CapabilityTier(BatteryLevel(level, scale), IsCharging(batteryStatus), isOnWifi)
      ensures capabilities == old(capabilities) || routingTable == null ==> nearby.sent == old(nearby.sent)
      ensures capabilities != old(capabilities) && routingTable != null ==>
        Distinct(order) &&
        (forall n :: n in order <==> n in routingTable.directNeighbors && n in nearby.peerToEndpoint) &&
        nearby.sent == old(nearby.sent) + SendsTo(order, nearby.peerToEndpoint,
                                                  CreateCapabilitiesUpdate(localNodeId.value, capabilities, now))
      ensures nearby.peerToEndpoint == old(nearby.peerToEndpoint)
      ensures localNodeId == old(localNodeId) && routingTable == old(routingTable)
      ensures seen == old(seen) && events == old(events)
    {
      order := [];
      var tier := CapabilityTier(BatteryLevel(level, scale), IsCharging(batteryStatus), isOnWifi);
      if tier != capabilities {
        capabilities := tier;
        if localNodeId.Some? && routingTable != null {
          order := Broadcast(routingTable.directNeighbors, CreateCapabilitiesUpdate(localNodeId.value, tier, now));
        }
      }
    }

    /** Send `payload` once to the endpoint of every node of `targets` that has one. */
    method Broadcast(targets: set<string>, payload: Json) returns (ghost order: seq<string>)
      modifies nearby`sent
      ensures Distinct(order)
      ensures forall n :: n in order <==> n in targets && n in nearby.peerToEndpoint
      ensures nearby.sent == old(nearby.sent) + SendsTo(order, nearby.peerToEndpoint, payload)
      ensures nearby.peerToEndpoint == old(nearby.peerToEndpoint)
    {
      order := [];
      var remaining := targets;
      while remaining != {}
        invariant remaining <= targets
        invariant Distinct(order)
        invariant forall n :: n in order ==> n in targets && n !in remaining && n in nearby.peerToEndpoint
        invariant forall n :: n in targets && n !in remaining && n in nearby.peerToEndpoint ==> n in order
        invariant nearby.sent == old(nearby.sent) + SendsTo(order, nearby.peerToEndpoint, payload)
        invariant nearby.peerToEndpoint == old(nearby.peerToEndpoint)
        decreases remaining
      {
        var n :| n in remaining;
        var endpoint := nearby.GetEndpointIdForPeer(n);
        if endpoint.Some? {
          ghost var before := SendsTo(order, nearby.peerToEndpoint, payload);
          nearby.SendPayload(endpoint.value, payload);
          SendsToSnoc(order, n, nearby.peerToEndpoint, payload);
          assert nearby.sent == old(nearby.sent) + (before + [Outgoing(endpoint.value, payload)]);
          DistinctSnoc(order, n);
          order := order + [n];
        }
        remaining := remaining - {n};
      }
    }

    // ------------------------------------------------------------ sends

    /**
     * Originate `messageId`. Before set-up nothing happens; an id already
     * seen is not sent again. A new id is remembered and then, first option
     * winning: sent straight to the destination when it is a connected
     * neighbour; sent to the route's next hop; held here when this node
     * offers storage; handed to the best store node (`storeNode`, chosen as
     * `FindBestStoreNode` chooses); otherwise it has no route. Only the
     * handing-over is reported, not whether the transfer succeeds.
     */
    method SendMeshMessage(destinationId: string, payload: seq<Byte>, messageId: string, now: Int64)
      returns (r: MeshSendResult, ghost storeNode: Option<NodeInfo>)
      requires Valid()
      modifies this`seen, this`events, nearby`sent, dao
      ensures Valid()
      ensures localNodeId == old(localNodeId) && routingTable == old(routingTable) && capabilities == old(capabilities)
      ensures nearby.peerToEndpoint == old(nearby.peerToEndpoint)
      ensures r == StoredLocally ==> localNodeId.Some?
      ensures dao.rows == (if r == StoredLocally
                           then old(dao.rows)[messageId := HeldCopy(messageId, localNodeId.value, destinationId, payload,
                                                                    now, capabilities)]
                           else old(dao.rows))
      ensures routingTable != null ==> (r == AlreadyProcessed <==> messageId in old(seen))
      ensures routingTable == null ==>
        r == NotInitialized && seen == old(seen) && nearby.sent == old(nearby.sent) &&
        dao.rows == old(dao.rows) && events == old(events)
      ensures routingTable != null && messageId in old(seen) ==>
        r == AlreadyProcessed && seen == old(seen) && nearby.sent == old(nearby.sent) &&
        dao.rows == old(dao.rows) && events == old(events)
      ensures routingTable != null && messageId !in old(seen) ==>
        var me := localNodeId.value;
        var l := LookupSend(destinationId, storeNode);
        seen == MarkSeen(old(seen), messageId) &&
        (ReachesStoreLookup(l) ==> IsBestStore(routingTable.knownNodes, {me}, storeNode)) &&
        r == DecideSend(l) &&
        nearby.sent == old(nearby.sent) + OriginSend(l, messageId, me, destinationId, payload, now) &&
        dao.rows == (if r == StoredLocally
                     then old(dao.rows)[messageId := HeldCopy(messageId, me, destinationId, payload, now, capabilities)]
                     else old(dao.rows)) &&
        events == old(events) + (if r == StoredLocally then [MessageStoredLocally(messageId, destinationId)] else [])
    {
      storeNode := None;
      if routingTable == null || localNodeId.None? {
        return NotInitialized, None;
      }
      var table := routingTable;
      var me := localNodeId.value;
      if messageId in seen {
        return AlreadyProcessed, None;
      }
      seen := MarkSeen(seen, messageId);
      r, storeNode := SendNew(me, destinationId, payload, messageId, now);
    }

    /**
     * The options of `SendMeshMessage` for an id not seen before, tried in
     * order: straight to a connected neighbour, along a route, held here,
     * handed to the best store node.
     */
    method SendNew(me: string, destinationId: string, payload: seq<Byte>, messageId: string, now: Int64)
      returns (r: MeshSendResult, ghost storeNode: Option<NodeInfo>)
      requires Valid() && routingTable != null && localNodeId == Some(me)
      modifies this`events, nearby`sent, dao
      ensures Valid()
      ensures localNodeId == old(localNodeId) && routingTable == old(routingTable) && capabilities == old(capabilities)
      ensures seen == old(seen) && nearby.peerToEndpoint == old(nearby.peerToEndpoint)
      ensures var l := LookupSend(destinationId, storeNode);
        (ReachesStoreLookup(l) ==> IsBestStore(routingTable.knownNodes, {me}, storeNode)) &&
        r == DecideSend(l) &&
        nearby.sent == old(nearby.sent) + OriginSend(l, messageId, me, destinationId, payload, now) &&
        dao.rows == (if r == StoredLocally
                     then old(dao.rows)[messageId := HeldCopy(messageId, me, destinationId, payload, now, capabilities)]
                     else old(dao.rows)) &&
        events == old(events) + (if r == StoredLocally then [MessageStoredLocally(messageId, destinationId)] else [])
    {
      storeNode := None;
      var table := routingTable;
      if table.IsDirectNeighbor(destinationId) {
        var endpoint := nearby.GetEndpointIdForPeer(destinationId);
        if endpoint.Some? {
          nearby.SendPayload(endpoint.value, CreateRoutedMessage(messageId, me, destinationId, payload, now, ORIGIN_TTL, [me], false));
          return SentDirect, None;
        }
      }

      var route := table.FindRoute(destinationId);
      if route.Some? {
        var endpoint := nearby.GetEndpointIdForPeer(route.value.nextHop);
        if endpoint.Some? {
          nearby.SendPayload(endpoint.value, CreateRoutedMessage(messageId, me, destinationId, payload, now, ORIGIN_TTL, [me], true));
          return Routed(route.value.nextHop, route.value.hopCount), None;
        }
      }

      r, storeNode := HoldOrHandOver(me, destinationId, payload, messageId, now);
    }

    /** The last two options of `SendNew`, once neither a neighbour nor a route can take the message. */
    method HoldOrHandOver(me: string, destinationId: string, payload: seq<Byte>, messageId: string, now: Int64)
      returns (r: MeshSendResult, ghost storeNode: Option<NodeInfo>)
      requires Valid() && routingTable != null && localNodeId == Some(me)
      requires !DirectOpen(LookupSend(destinationId, None)) && !RouteOpen(LookupSend(destinationId, None))
      modifies this`events, nearby`sent, dao
      ensures Valid()
      ensures localNodeId == old(localNodeId) && routingTable == old(routingTable) && capabilities == old(capabilities)
      ensures seen == old(seen) && nearby.peerToEndpoint == old(nearby.peerToEndpoint)
      ensures var l := LookupSend(destinationId, storeNode);
        (ReachesStoreLookup(l) ==> IsBestStore(routingTable.knownNodes, {me}, storeNode)) &&
        r == DecideSend(l) &&
        nearby.sent == old(nearby.sent) + OriginSend(l, messageId, me, destinationId, payload, now) &&
        dao.rows == (if r == StoredLocally
                     then old(dao.rows)[messageId := HeldCopy(messageId, me, destinationId, payload, now, capabilities)]
                     else old(dao.rows)) &&
        events == old(events) + (if r == StoredLocally then [MessageStoredLocally(messageId, destinationId)] else [])
    {
      storeNode := None;
      var table := routingTable;
      if capabilities.canStoreForward {
        StoreMessageForDelivery(messageId, me, destinationId, payload, now);
        return StoredLocally, None;
      }

      var best := table.FindBestStoreNode({me});
      storeNode := best;
      if best.Some? {
        var endpoint := nearby.GetEndpointIdForPeer(best.value.nodeId);
        if endpoint.Some? {
          nearby.SendPayload(endpoint.value, CreateRoutedMessage(messageId, me, destinationId, payload, now, ORIGIN_TTL, [me], true));
          return SentToStore(best.value.nodeId), best;
        }
      }
      return NoRoute, best;
    }

    /** Hold a message for `finalDestination`, kept for this node's retention period from `now`. */
    method StoreMessageForDelivery(messageId: string, originalSender: string, finalDestination: string,
                                   payload: seq<Byte>, now: Int64)
      requires Valid()
      modifies this`events, dao
      ensures Valid()
      ensures dao.rows == old(dao.rows)[messageId := HeldCopy(messageId, originalSender, finalDestination, payload, now, capabilities)]
      ensures events == old(events) + [MessageStoredLocally(messageId, finalDestination)]
      ensures localNodeId == old(localNodeId) && routingTable == old(routingTable) && capabilities == old(capabilities)
      ensures seen == old(seen)
    {
      dao.InsertStoredMessage(HeldCopy(messageId, originalSender, finalDestination, payload, now, capabilities));
      events := events + [MessageStoredLocally(messageId, finalDestination)];
    }

    /**
     * Acknowledge `message` to the node it came from (the last node of its
     * path), when this node is set up and that node has a known endpoint.
     */
    method SendRouteAck(message: MeshMessage, status: RouteAckStatus, storedBy: Option<string>, now: Int64)
      requires message.RoutedMessage?
      modifies nearby`sent
      ensures nearby.sent == old(nearby.sent) +
        (if localNodeId.Some? then AckSends(message, status, storedBy, now, nearby.peerToEndpoint) else [])
      ensures nearby.peerToEndpoint == old(nearby.peerToEndpoint)
    {
      if localNodeId.None? {
        return;
      }
      if message.path != [] {
        var previousHop := message.path[|message.path| - 1];
        var endpoint := nearby.GetEndpointIdForPeer(previousHop);
        if endpoint.Some? {
          nearby.SendPayload(endpoint.value, CreateRouteAck(message.messageId, message.originalSender, status, now, storedBy));
        }
      }
    }

    /**
     * Announce this node's neighbours and capabilities, to one endpoint or,
     * without one, to every direct neighbour with a known endpoint. Nothing
     * is sent before set-up or without a signed-in user. `peers` is the
     * neighbour list as the table hands it out.
     */
    method SendTopologyAnnounce(toEndpointId: Option<string>, user: Option<LocalUser>, now: Int64)
      returns (ghost peers: seq<string>, ghost order: seq<string>)
      requires Valid()
      modifies nearby`sent
      ensures routingTable == null || user.None? ==> nearby.sent == old(nearby.sent)
      ensures routingTable != null && user.Some? ==>
        var announce := CreateTopologyAnnounce(user.value.id, user.value.displayName, peers, capabilities, now);
        Distinct(peers) && (forall n :: n in peers <==> n in routingTable.directNeighbors) &&
        (toEndpointId.Some? ==> nearby.sent == old(nearby.sent) + [Outgoing(toEndpointId.value, announce)]) &&
        (toEndpointId.None? ==>
           Distinct(order) &&
           (forall n :: n in order <==> n in routingTable.directNeighbors && n in nearby.peerToEndpoint) &&
           nearby.sent == old(nearby.sent) + SendsTo(order, nearby.peerToEndpoint, announce))
      ensures nearby.peerToEndpoint == old(nearby.peerToEndpoint)
    {
      peers, order := [], [];
      if routingTable == null || user.None? {
        return;
      }
      var ids := routingTable.GetConnectedPeerIds();
      peers := ids;
      var announce := CreateTopologyAnnounce(user.value.id, user.value.displayName, ids, capabilities, now);
      if toEndpointId.Some? {
        nearby.SendPayload(toEndpointId.value, announce);
      } else {
        order := Broadcast(routingTable.directNeighbors, announce);
      }
    }

    // -------------------------------------------------------- receiving

    /**
     * The node an endpoint belongs to: a known node whose endpoint it is,
     * or the endpoint id itself when there is none (or no table yet).
     */
    method ResolveSender(fromEndpointId: string) returns (nodeId: string)
      ensures routingTable == null ==> nodeId == fromEndpointId
      ensures routingTable != null ==>
        (exists k :: k in routingTable.knownNodes && routingTable.knownNodes[k].nodeId == nodeId &&
                     nearby.GetEndpointIdForPeer(nodeId) == Some(fromEndpointId)) ||
        (nodeId == fromEndpointId &&
         forall k :: k in routingTable.knownNodes ==>
           nearby.GetEndpointIdForPeer(routingTable.knownNodes[k].nodeId) != Some(fromEndpointId))
    {
      if routingTable == null {
        return fromEndpointId;
      }
      var known := routingTable.knownNodes;
      var remaining := known.Keys;
      while remaining != {}
        invariant remaining <= known.Keys
        invariant forall k :: k in known && k !in remaining ==>
                    nearby.GetEndpointIdForPeer(known[k].nodeId) != Some(fromEndpointId)
        decreases remaining
      {
        var k :| k in remaining;
        if nearby.GetEndpointIdForPeer(known[k].nodeId) == Some(fromEndpointId) {
          return known[k].nodeId;
        }
        remaining := remaining - {k};
      }
      return fromEndpointId;
    }

    /**
     * An incoming document: anything that does not parse as a mesh message
     * is refused (and left to the chat layer) and changes nothing; a mesh
     * message is dispatched by kind (as `Dispatch` states in full) and
     * accepted. `message` is what the document parses as, `sender` the node
     * the sending endpoint resolves to, and `peers` the neighbour list of
     * the announce that answers a topology request, or the neighbours a
     * topology announce is passed on to.
     */
    method ProcessMessage(fromEndpointId: string, doc: Json, user: Option<LocalUser>, now: Int64)
      returns (handled: bool, ghost message: Option<MeshMessage>, ghost sender: string, ghost peers: seq<string>)
      requires Valid()
      modifies this`seen, this`events, nearby`sent, dao, routingTable
      ensures Valid()
      ensures message == MeshProtocol.ParseMessage(doc)
      ensures handled <==> message.Some?
      ensures localNodeId == old(localNodeId) && routingTable == old(routingTable) && capabilities == old(capabilities)
      ensures nearby.peerToEndpoint == old(nearby.peerToEndpoint)
      ensures !handled ==>
        nearby.sent == old(nearby.sent) && events == old(events) && seen == old(seen) && dao.rows == old(dao.rows)
      ensures (!handled || !message.value.TopologyAnnounce?) && routingTable != null ==>
        routingTable.routes == old(routingTable.routes) && routingTable.knownNodes == old(routingTable.knownNodes) &&
        routingTable.directNeighbors == old(routingTable.directNeighbors)
      ensures handled && routingTable == null ==> sender == fromEndpointId
      ensures handled && routingTable != null ==>
        var known := old(routingTable.knownNodes);
        (exists k :: k in known && known[k].nodeId == sender && nearby.GetEndpointIdForPeer(sender) == Some(fromEndpointId)) ||
        (sender == fromEndpointId &&
         forall k :: k in known ==> nearby.GetEndpointIdForPeer(known[k].nodeId) != Some(fromEndpointId))
      ensures handled ==>
        var m := message.value;
        (m.RouteAck? || m.StoreConfirm? || m.CapabilitiesUpdate? || m.TopologyRequest? ==>
           seen == old(seen) && dao.rows == old(dao.rows)) &&
        (m.RouteAck? ==>
           nearby.sent == old(nearby.sent) && events == old(events) + [MessageAcknowledged(m.messageId, m.status, m.storedBy)]) &&
        (m.StoreConfirm? ==>
           nearby.sent == old(nearby.sent) && events == old(events) + [MessageStoredRemotely(m.messageId, m.storer, m.expiresAt)]) &&
        (m.CapabilitiesUpdate? ==> nearby.sent == old(nearby.sent) && events == old(events)) &&
        (m.TopologyRequest? ==> events == old(events)) &&
        (m.TopologyRequest? && (routingTable == null || user.None?) ==> nearby.sent == old(nearby.sent)) &&
        (m.TopologyRequest? && routingTable != null && user.Some? ==>
           Distinct(peers) && (forall n :: n in peers <==> n in routingTable.directNeighbors) &&
           nearby.sent == old(nearby.sent) +
             [Outgoing(fromEndpointId, CreateTopologyAnnounce(user.value.id, user.value.displayName, peers, capabilities, now))])
      ensures handled && message.value.TopologyAnnounce? ==>
        var m := message.value;
        seen == old(seen) && dao.rows == old(dao.rows) &&
        (routingTable == null ==> nearby.sent == old(nearby.sent) && events == old(events)) &&
        (routingTable != null ==>
           routingTable.knownNodes == old(routingTable.knownNodes)[m.nodeId :=
             NodeInfo(m.nodeId, m.displayName, Some(m.capabilities), m.timestamp)] &&
           routingTable.routes == LearnRoutes(RoutingTable.AnnouncerRoute(old(routingTable.routes), sender, m),
                                              routingTable.knownNodes, sender, m.connectedPeers,
                                              m.timestamp, {routingTable.localNodeId, sender}) &&
           routingTable.directNeighbors == old(routingTable.directNeighbors) &&
           events == old(events) + [TopologyUpdated(|routingTable.knownNodes|)]) &&
        (routingTable != null && m.ttl <= 1 ==> nearby.sent == old(nearby.sent))
      ensures handled && message.value.RoutedMessage? ==>
        var m := message.value;
        (routingTable == null || m.messageId in old(seen) ==>
           seen == old(seen) && nearby.sent == old(nearby.sent) && events == old(events) && dao.rows == old(dao.rows)) &&
        (routingTable != null && m.messageId !in old(seen) ==> seen == MarkSeen(old(seen), m.messageId))
    {
      var parsed := MeshProtocol.ParseMessage(doc);
      message, sender, peers := parsed, fromEndpointId, [];
      if parsed.None? {
        return false, message, sender, peers;
      }
      var fromNodeId := ResolveSender(fromEndpointId);
      sender := fromNodeId;
      peers := Dispatch(fromEndpointId, fromNodeId, parsed.value, user, now);
      return true, message, sender, peers;
    }

    /**
     * A mesh message from `fromEndpointId` (node `fromNodeId`), handled by
     * kind: an announce is learnt and passed on, a topology request is
     * answered with an announce, a routed message is relayed, an
     * acknowledgement or a storage confirmation is reported, and a
     * capabilities update is ignored. `peers` is as `ProcessMessage`
     * returns it.
     */
    method Dispatch(fromEndpointId: string, fromNodeId: string, message: MeshMessage, user: Option<LocalUser>, now: Int64)
      returns (ghost peers: seq<string>)
      requires Valid()
      modifies this`seen, this`events, nearby`sent, dao, routingTable
      ensures Valid()
      ensures localNodeId == old(localNodeId) && routingTable == old(routingTable) && capabilities == old(capabilities)
      ensures nearby.peerToEndpoint == old(nearby.peerToEndpoint)
      ensures !message.TopologyAnnounce? && routingTable != null ==>
        routingTable.routes == old(routingTable.routes) && routingTable.knownNodes == old(routingTable.knownNodes) &&
        routingTable.directNeighbors == old(routingTable.directNeighbors)
      ensures
        var m := message;
        (m.RouteAck? || m.StoreConfirm? || m.CapabilitiesUpdate? || m.TopologyRequest? ==>
           seen == old(seen) && dao.rows == old(dao.rows)) &&
        (m.RouteAck? ==>
           nearby.sent == old(nearby.sent) && events == old(events) + [MessageAcknowledged(m.messageId, m.status, m.storedBy)]) &&
        (m.StoreConfirm? ==>
           nearby.sent == old(nearby.sent) && events == old(events) + [MessageStoredRemotely(m.messageId, m.storer, m.expiresAt)]) &&
        (m.CapabilitiesUpdate? ==> nearby.sent == old(nearby.sent) && events == old(events)) &&
        (m.TopologyRequest? ==> events == old(events)) &&
        (m.TopologyRequest? && (routingTable == null || user.None?) ==> nearby.sent == old(nearby.sent)) &&
        (m.TopologyRequest? && routingTable != null && user.Some? ==>
           Distinct(peers) && (forall n :: n in peers <==> n in routingTable.directNeighbors) &&
           nearby.sent == old(nearby.sent) +
             [Outgoing(fromEndpointId, CreateTopologyAnnounce(user.value.id, user.value.displayName, peers, capabilities, now))])
      ensures message.TopologyAnnounce? ==>
        var m := message;
        seen == old(seen) && dao.rows == old(dao.rows) &&
        (routingTable == null ==> nearby.sent == old(nearby.sent) && events == old(events)) &&
        (routingTable != null ==>
           routingTable.knownNodes == old(routingTable.knownNodes)[m.nodeId :=
             NodeInfo(m.nodeId, m.displayName, Some(m.capabilities), m.timestamp)] &&
           routingTable.routes == LearnRoutes(RoutingTable.AnnouncerRoute(old(routingTable.routes), fromNodeId, m),
                                              routingTable.knownNodes, fromNodeId, m.connectedPeers,
                                              m.timestamp, {routingTable.localNodeId, fromNodeId}) &&
           routingTable.directNeighbors == old(routingTable.directNeighbors) &&
           events == old(events) + [TopologyUpdated(|routingTable.knownNodes|)]) &&
        (routingTable != null && m.ttl <= 1 ==> nearby.sent == old(nearby.sent)) &&
        (routingTable != null && m.ttl > 1 ==>
           Distinct(peers) &&
           (forall n :: n in peers <==>
              n in routingTable.directNeighbors && n != fromNodeId && n != m.nodeId && n in nearby.peerToEndpoint) &&
           nearby.sent == old(nearby.sent) +
             SendsTo(peers, nearby.peerToEndpoint,
                     CreateTopologyAnnounce(m.nodeId, m.displayName, m.connectedPeers, m.capabilities, now, m.ttl - 1)))
      ensures message.RoutedMessage? ==>
        var m := message;
        (routingTable == null || m.messageId in old(seen) ==>
           seen == old(seen) && nearby.sent == old(nearby.sent) && events == old(events) && dao.rows == old(dao.rows)) &&
        (routingTable != null && m.messageId !in old(seen) ==>
           var me := localNodeId.value;
           var o := DecideRelay(me, m, LookupRelay(m.finalDestination));
           var ack := AckFor(o, me);
           seen == MarkSeen(old(seen), m.messageId) &&
           nearby.sent == old(nearby.sent) +
             (if o.ForwardTo? then [Outgoing(o.endpointId, ForwardedCopy(m, me, now))] else []) +
             AckSends(m, ack.0, ack.1, now, nearby.peerToEndpoint) &&
           events == old(events) +
             (if o == ReachedDestination then [MessageReceived(m.messageId, m.originalSender, m.payload)]
              else if o == StoreHere then [MessageStoredLocally(m.messageId, m.finalDestination)]
              else []) &&
           dao.rows == (if o == StoreHere
                        then old(dao.rows)[m.messageId := HeldCopy(m.messageId, m.originalSender, m.finalDestination,
                                                                    m.payload, now, capabilities)]
                        else old(dao.rows)))
    {
      peers := [];
      match message {
        case TopologyAnnounce(_, _, _, _, _, _) =>
          peers := HandleTopologyAnnounce(fromNodeId, message, now);
        case TopologyRequest(_, _) =>
          ghost var order;
          peers, order := SendTopologyAnnounce(Some(fromEndpointId), user, now);
        case RoutedMessage(_, _, _, _, _, _, _, _) =>
          HandleRoutedMessage(fromNodeId, message, now);
        case RouteAck(_, _, _, _, _) =>
          HandleRouteAck(message);
        case StoreConfirm(_, _, _, _, _) =>
          HandleStoreConfirm(message);
        case CapabilitiesUpdate(_, _, _) =>
      }
    }

    /**
     * Learn from an announce; while its hop budget allows (more than one
     * hop left), pass it on with one hop fewer, re-stamped, to every direct
     * neighbour other than the one it came from and the node it describes;
     * then report the number of known nodes.
     */
    method HandleTopologyAnnounce(fromNodeId: string, announce: MeshMessage, now: Int64)
      returns (ghost order: seq<string>)
      requires Valid() && announce.TopologyAnnounce?
      modifies this`events, nearby`sent, routingTable
      ensures Valid()
      ensures routingTable == old(routingTable)
      ensures routingTable == null ==> nearby.sent == old(nearby.sent) && events == old(events)
      ensures routingTable != null ==>
        routingTable.knownNodes == old(routingTable.knownNodes)[announce.nodeId :=
          NodeInfo(announce.nodeId, announce.displayName, Some(announce.capabilities), announce.timestamp)] &&
        routingTable.routes == LearnRoutes(RoutingTable.AnnouncerRoute(old(routingTable.routes), fromNodeId, announce),
                                           routingTable.knownNodes, fromNodeId, announce.connectedPeers,
                                           announce.timestamp, {routingTable.localNodeId, fromNodeId}) &&
        routingTable.directNeighbors == old(routingTable.directNeighbors) &&
        events == old(events) + [TopologyUpdated(|routingTable.knownNodes|)]
      ensures routingTable != null && announce.ttl <= 1 ==> nearby.sent == old(nearby.sent)
      ensures routingTable != null && announce.ttl > 1 ==>
        Distinct(order) &&
        (forall n :: n in order <==>
           n in routingTable.directNeighbors && n != fromNodeId && n != announce.nodeId && n in nearby.peerToEndpoint) &&
        nearby.sent == old(nearby.sent) +
          SendsTo(order, nearby.peerToEndpoint,
                  CreateTopologyAnnounce(announce.nodeId, announce.displayName, announce.connectedPeers,
                                         announce.capabilities, now, announce.ttl - 1))
      ensures localNodeId == old(localNodeId) && routingTable == old(routingTable) && capabilities == old(capabilities)
      ensures seen == old(seen) && dao.rows == old(dao.rows)
      ensures nearby.peerToEndpoint == old(nearby.peerToEndpoint)
    {
      order := [];
      if routingTable == null {
        return;
      }
      var table := routingTable;
      table.ProcessTopologyAnnounce(fromNodeId, announce);
      events := events + [TopologyUpdated(|table.knownNodes|)];
      assert Valid();
      if announce.ttl > 1 {
        order := PassOnAnnounce(table.directNeighbors, fromNodeId, announce, now);
      }
    }

    /** Send `announce` on, one hop fewer and re-stamped, to the `neighbours` other than its sender and its subject. */
    method PassOnAnnounce(neighbours: set<string>, fromNodeId: string, announce: MeshMessage, now: Int64)
      returns (ghost order: seq<string>)
      requires announce.TopologyAnnounce? && announce.ttl > 1
      modifies nearby`sent
      ensures Distinct(order)
      ensures forall n :: n in order <==>
                n in neighbours && n != fromNodeId && n != announce.nodeId && n in nearby.peerToEndpoint
      ensures nearby.sent == old(nearby.sent) +
        SendsTo(order, nearby.peerToEndpoint,
                CreateTopologyAnnounce(announce.nodeId, announce.displayName, announce.connectedPeers,
                                       announce.capabilities, now, announce.ttl - 1))
      ensures nearby.peerToEndpoint == old(nearby.peerToEndpoint)
    {
      var relayed := CreateTopologyAnnounce(announce.nodeId, announce.displayName, announce.connectedPeers,
                                            announce.capabilities, now, announce.ttl - 1);
      order := Broadcast(neighbours - {fromNodeId, announce.nodeId}, relayed);
    }

    /**
     * A routed message arrives. Before set-up, or when its id was already
     * seen, nothing happens. Otherwise the id is remembered and the relay
     * decision is carried out: the message is taken, passed on, held or
     * dropped, and the previous hop is told which.
     */
    method HandleRoutedMessage(fromNodeId: string, message: MeshMessage, now: Int64)
      requires Valid() && message.RoutedMessage?
      modifies this`seen, this`events, nearby`sent, dao
      ensures Valid()
      ensures localNodeId == old(localNodeId) && routingTable == old(routingTable) && capabilities == old(capabilities)
      ensures nearby.peerToEndpoint == old(nearby.peerToEndpoint)
      ensures routingTable == null || message.messageId in old(seen) ==>
        seen == old(seen) && nearby.sent == old(nearby.sent) && events == old(events) && dao.rows == old(dao.rows)
      ensures routingTable != null && message.messageId !in old(seen) ==>
        var me := localNodeId.value;
        var o := DecideRelay(me, message, LookupRelay(message.finalDestination));
        var ack := AckFor(o, me);
        seen == MarkSeen(old(seen), message.messageId) &&
        nearby.sent == old(nearby.sent) +
          (if o.ForwardTo? then [Outgoing(o.endpointId, ForwardedCopy(message, me, now))] else []) +
          AckSends(message, ack.0, ack.1, now, nearby.peerToEndpoint) &&
        events == old(events) +
          (if o == ReachedDestination then [MessageReceived(message.messageId, message.originalSender, message.payload)]
           else if o == StoreHere then [MessageStoredLocally(message.messageId, message.finalDestination)]
           else []) &&
        dao.rows == (if o == StoreHere
                     then old(dao.rows)[message.messageId := HeldCopy(message.messageId, message.originalSender,
                                                                      message.finalDestination, message.payload,
                                                                      now, capabilities)]
                     else old(dao.rows))
    {
      if routingTable == null || localNodeId.None? {
        return;
      }
      var me := localNodeId.value;
      if message.messageId in seen {
        return;
      }
      seen := MarkSeen(seen, message.messageId);
      var outcome := DecideRelay(me, message, LookupRelay(message.finalDestination));
      CarryOut(message, outcome, now);
      var ack := AckFor(outcome, me);
      SendRouteAck(message, ack.0, ack.1, now);
    }

    /**
     * Carry out a relay decision about `message`: report it to the app when
     * it has arrived, pass on a copy one hop further, or hold it here.
     */
    method CarryOut(message: MeshMessage, o: RelayOutcome, now: Int64)
      requires Valid() && message.RoutedMessage? && localNodeId.Some?
      requires o.ForwardTo? ==> message.ttl > 0
      modifies this`events, nearby`sent, dao
      ensures Valid()
      ensures localNodeId == old(localNodeId) && routingTable == old(routingTable) && capabilities == old(capabilities)
      ensures seen == old(seen)
      ensures nearby.peerToEndpoint == old(nearby.peerToEndpoint)
      ensures nearby.sent == old(nearby.sent) +
        (if o.ForwardTo? then [Outgoing(o.endpointId, ForwardedCopy(message, localNodeId.value, now))] else [])
      ensures events == old(events) +
        (if o == ReachedDestination then [MessageReceived(message.messageId, message.originalSender, message.payload)]
         else if o == StoreHere then [MessageStoredLocally(message.messageId, message.finalDestination)]
         else [])
      ensures dao.rows == (if o == StoreHere
                           then old(dao.rows)[message.messageId := HeldCopy(message.messageId, message.originalSender,
                                                                            message.finalDestination, message.payload,
                                                                            now, capabilities)]
                           else old(dao.rows))
    {
      match o {
        case ReachedDestination =>
          events := events + [MessageReceived(message.messageId, message.originalSender, message.payload)];
        case ForwardTo(endpointId) =>
          nearby.SendPayload(endpointId, ForwardedCopy(message, localNodeId.value, now));
        case StoreHere =>
          StoreMessageForDelivery(message.messageId, message.originalSender, message.finalDestination, message.payload, now);
        case OutOfHops =>
        case Unroutable =>
      }
    }

    /** An acknowledgement is reported as it arrived, set up or not. */
    method HandleRouteAck(ack: MeshMessage)
      requires ack.RouteAck?
      modifies this`events
      ensures events == old(events) + [MessageAcknowledged(ack.messageId, ack.status, ack.storedBy)]
      ensures localNodeId == old(localNodeId) && routingTable == old(routingTable) && capabilities == old(capabilities)
      ensures seen == old(seen)
    {
      events := events + [MessageAcknowledged(ack.messageId, ack.status, ack.storedBy)];
    }

    /** A store confirmation is reported as it arrived, set up or not. */
    method HandleStoreConfirm(confirm: MeshMessage)
      requires confirm.StoreConfirm?
      modifies this`events
      ensures events == old(events) + [MessageStoredRemotely(confirm.messageId, confirm.storer, confirm.expiresAt)]
      ensures localNodeId == old(localNodeId) && routingTable == old(routingTable) && capabilities == old(capabilities)
      ensures seen == old(seen)
    {
      events := events + [MessageStoredRemotely(confirm.messageId, confirm.storer, confirm.expiresAt)];
    }

    // ------------------------------------------------------------ peers

    /** A peer connected: it becomes a direct neighbour with a one-hop route, its capabilities not yet known. */
    method OnPeerConnected(peerId: string, displayName: string, now: Int64)
      requires Valid()
      modifies routingTable
      ensures Valid()
      ensures routingTable != null ==>
        routingTable.knownNodes == old(routingTable.knownNodes)[peerId := NodeInfo(peerId, displayName, None, now)] &&
        routingTable.routes == old(routingTable.routes)[peerId := RouteEntry(peerId, peerId, 1, now, None)] &&
        routingTable.directNeighbors == old(routingTable.directNeighbors) + {peerId}
    {
      if routingTable == null {
        return;
      }
      routingTable.AddDirectNeighbor(peerId, NodeInfo(peerId, displayName, None, now), now);
    }

    /**
     * What follows a connection once it has settled: announce this node to
     * the new peer's endpoint, then try to deliver what is held for the peer.
     * `peers` is the neighbour list the announce carries; `held`, `results`
     * and `lookups` are as `DeliverStoredMessagesTo` returns them.
     */
    method OnPeerSettled(peerId: string, endpointId: string, user: Option<LocalUser>, now: Int64)
      returns (ghost peers: seq<string>, ghost held: seq<StoredMessageEntity>,
               ghost results: seq<Option<MeshSendResult>>, ghost lookups: seq<SendLookup>)
      requires Valid()
      modifies this`seen, this`events, nearby`sent, dao
      ensures Valid()
      ensures localNodeId == old(localNodeId) && routingTable == old(routingTable) && capabilities == old(capabilities)
      ensures routingTable != null && user.Some? ==>
        Distinct(peers) && forall n :: n in peers <==> n in routingTable.directNeighbors
      ensures |results| == |held| && |lookups| == |held|
      ensures routingTable != null ==>
        forall j :: 0 <= j < |held| ==> lookups[j] == LookupSend(peerId, lookups[j].storeNode)
      ensures nearby.sent == old(nearby.sent) +
        (if routingTable != null && user.Some?
         then [Outgoing(endpointId, CreateTopologyAnnounce(user.value.id, user.value.displayName, peers, capabilities, now))]
         else []) +
        ResentAll(held, results, lookups, localNodeId, now)
      ensures events == old(events) + StoredEvents(held, results)
      ensures forall m :: m in held <==> IsRow(old(dao.rows), m) && m.finalDestination == peerId && m.status == Pending
      ensures forall j :: 0 <= j < |held| ==> (results[j].None? <==> held[j].deliveryAttempts >= MAX_DELIVERY_ATTEMPTS)
      ensures dao.rows.Keys == old(dao.rows).Keys
      ensures forall j :: 0 <= j < |held| ==>
                held[j].messageId in dao.rows &&
                dao.rows[held[j].messageId] == Settled(held[j], now, results[j], localNodeId, capabilities)
      ensures forall k :: k in old(dao.rows) && old(dao.rows)[k] !in held ==> dao.rows[k] == old(dao.rows)[k]
      ensures seen == SeenAfter(old(seen), held, results)
      ensures AllTriedAsSent(old(seen), held, results, lookups, localNodeId)
      ensures forall j :: 0 <= j < |held| && results[j].Some? && routingTable == null ==> results[j].value == NotInitialized
      ensures forall j :: 0 <= j < |held| && results[j] == Some(AlreadyProcessed) ==> held[j].messageId in old(seen)
      ensures forall j :: 0 <= j < |held| && results[j].Some? && routingTable != null && results[j].value != AlreadyProcessed ==>
                results[j].value == DecideSend(lookups[j])
    {
      ghost var order;
      peers, order := SendTopologyAnnounce(Some(endpointId), user, now);
      ghost var announced := nearby.sent;
      assert announced == old(nearby.sent) +
        (if routingTable != null && user.Some?
         then [Outgoing(endpointId, CreateTopologyAnnounce(user.value.id, user.value.displayName, peers, capabilities, now))]
         else []);
      held, results, lookups := DeliverStoredMessagesTo(peerId, now);
      TriedResults(old(seen), held, results, lookups, localNodeId);
    }

    /** A peer disconnected: it stops being a neighbour and the routes through it go. */
    method OnPeerDisconnected(peerId: string)
      requires Valid()
      modifies routingTable
      ensures Valid()
      ensures routingTable != null ==>
        routingTable.directNeighbors == old(routingTable.directNeighbors) - {peerId} &&
        routingTable.routes == WithoutRoutesVia(old(routingTable.routes), peerId) &&
        routingTable.knownNodes == old(routingTable.knownNodes)
    {
      if routingTable != null {
        routingTable.RemoveDirectNeighbor(peerId);
      }
    }

    // --------------------------------------------------- store and forward

    /**
     * One delivery attempt of the held message `m`: a message that has used
     * up its attempts is marked FAILED and not sent; otherwise it is sent
     * afresh as `Redeliver` does. Only the row of `m` changes. `lookup` is
     * what a send to the message's destination finds.
     */
    method DeliverOne(m: StoredMessageEntity, now: Int64)
      returns (result: Option<MeshSendResult>, ghost lookup: SendLookup)
      requires Valid() && IsRow(dao.rows, m)
      modifies this`seen, this`events, nearby`sent, dao
      ensures Valid()
      ensures localNodeId == old(localNodeId) && routingTable == old(routingTable) && capabilities == old(capabilities)
      ensures nearby.peerToEndpoint == old(nearby.peerToEndpoint)
      ensures result.None? <==> m.deliveryAttempts >= MAX_DELIVERY_ATTEMPTS
      ensures dao.rows == old(dao.rows)[m.messageId := Settled(m, now, result, localNodeId, capabilities)]
      ensures result.None? || routingTable == null || m.messageId in old(seen) ==> seen == old(seen)
      ensures result == Some(StoredLocally) ==> localNodeId.Some?
      ensures routingTable != null ==> lookup == LookupSend(m.finalDestination, lookup.storeNode)
      ensures result.Some? && routingTable == null ==> result.value == NotInitialized
      ensures result.Some? && routingTable != null ==> (result.value == AlreadyProcessed <==> m.messageId in old(seen))
      ensures result.Some? && routingTable != null && m.messageId !in old(seen) ==>
        seen == MarkSeen(old(seen), m.messageId) && result.value == DecideSend(lookup) &&
        (ReachesStoreLookup(lookup) ==> IsBestStore(routingTable.knownNodes, {localNodeId.value}, lookup.storeNode))
      ensures nearby.sent == old(nearby.sent) + Resent(m, result, lookup, localNodeId, now)
      ensures events == old(events) +
        (if result == Some(StoredLocally) then [MessageStoredLocally(m.messageId, m.finalDestination)] else [])
      ensures TriedAsSent(old(seen), m, result, lookup, localNodeId)
      ensures seen == if Marked(result) then MarkSeen(old(seen), m.messageId) else old(seen)
    {
      if m.deliveryAttempts >= MAX_DELIVERY_ATTEMPTS {
        lookup := if routingTable != null then LookupSend(m.finalDestination, None) else NothingFound;
        dao.UpdateStatus(m.messageId, StoredMessageStatus.Failed);
        assert dao.rows == old(dao.rows)[m.messageId := m.(status := StoredMessageStatus.Failed)];
        return None, lookup;
      }
      var sent;
      sent, lookup := Redeliver(m, now);
      return Some(sent), lookup;
    }

    /**
     * One try of `DeliverStoredMessagesTo`: `DeliverOne` on `pending[i]`,
     * stated as the progress it makes over the messages held for
     * `destinationId` (read as `rows0`); `base` is what a send there finds
     * before its store node is chosen.
     */
    method DeliverNext(destinationId: string, ghost rows0: Rows, pending: seq<StoredMessageEntity>, i: nat,
                       ghost results: seq<Option<MeshSendResult>>, ghost lookups: seq<SendLookup>,
                       ghost base: SendLookup, ghost sent0: seq<Outgoing>, ghost events0: seq<MeshEvent>,
                       ghost seen0: seq<string>, now: Int64)
      returns (result: Option<MeshSendResult>, ghost lookup: SendLookup)
      requires Valid() && i < |pending|
      requires DistinctIds(pending) && forall m :: m in pending ==> IsRow(rows0, m) && m.finalDestination == destinationId
      requires SettledUpTo(rows0, dao.rows, pending, i, results, now, localNodeId, capabilities) && |lookups| == i
      requires seen == SeenAfter(seen0, pending[..i], results)
      requires AllTriedAsSent(seen0, pending[..i], results, lookups, localNodeId)
      requires routingTable != null ==> base == LookupSend(destinationId, None) && AllWithStoreNode(base, lookups, nearby.peerToEndpoint)
      requires nearby.sent == sent0 + ResentAll(pending[..i], results, lookups, localNodeId, now)
      requires events == events0 + StoredEvents(pending[..i], results)
      modifies this`seen, this`events, nearby`sent, dao
      ensures Valid()
      ensures localNodeId == old(localNodeId) && routingTable == old(routingTable) && capabilities == old(capabilities)
      ensures nearby.peerToEndpoint == old(nearby.peerToEndpoint)
      ensures SettledUpTo(rows0, dao.rows, pending, i + 1, results + [result], now, localNodeId, capabilities)
      ensures routingTable != null ==>
        base == LookupSend(destinationId, None) && AllWithStoreNode(base, lookups + [lookup], nearby.peerToEndpoint)
      ensures nearby.sent == sent0 + ResentAll(pending[..i + 1], results + [result], lookups + [lookup], localNodeId, now)
      ensures events == events0 + StoredEvents(pending[..i + 1], results + [result])
      ensures seen == SeenAfter(seen0, pending[..i + 1], results + [result])
      ensures AllTriedAsSent(seen0, pending[..i + 1], results + [result], lookups + [lookup], localNodeId)
    {
      ghost var before := dao.rows;
      ghost var resentBefore := ResentAll(pending[..i], results, lookups, localNodeId, now);
      ghost var storedBefore := StoredEvents(pending[..i], results);
      assert pending[i] in pending;
      result, lookup := DeliverOne(pending[i], now);
      SettleOne(rows0, before, pending, i, results, now, localNodeId, capabilities, result);
      if routingTable != null {
        AllWithStoreNodeSnoc(base, lookups, lookup, nearby.peerToEndpoint);
      }
      PrefixSnoc(pending, i);
      TriedOneMore(seen0, pending, i, results, lookups, localNodeId, old(seen), seen, result, lookup);
      ResentAllSnoc(pending[..i], results, lookups, pending[i], result, lookup, localNodeId, now);
      StoredEventsSnoc(pending[..i], results, pending[i], result);
      ConcatAssoc(sent0, resentBefore, Resent(pending[i], result, lookup, localNodeId, now));
      ConcatAssoc(events0, storedBefore,
                  if result == Some(StoredLocally) then [MessageStoredLocally(pending[i].messageId, pending[i].finalDestination)] else []);
    }

    /**
     * Count an attempt on the held message `m` and send it afresh under its
     * own id, as `SendMeshMessage` does; mark it DELIVERED only when it went
     * straight to the destination or along a route. An id this node has
     * already seen comes back AlreadyProcessed and the row stays PENDING; a
     * message held here again is stored anew, which resets its attempt count.
     */
    method Redeliver(m: StoredMessageEntity, now: Int64) returns (sent: MeshSendResult, ghost lookup: SendLookup)
      requires Valid() && IsRow(dao.rows, m)
      modifies this`seen, this`events, nearby`sent, dao
      ensures Valid()
      ensures localNodeId == old(localNodeId) && routingTable == old(routingTable) && capabilities == old(capabilities)
      ensures nearby.peerToEndpoint == old(nearby.peerToEndpoint)
      ensures sent == StoredLocally ==> localNodeId.Some?
      ensures dao.rows == old(dao.rows)[m.messageId := AfterAttempt(m, now, sent, localNodeId, capabilities)]
      ensures routingTable != null ==> lookup == LookupSend(m.finalDestination, lookup.storeNode)
      ensures routingTable == null ==> sent == NotInitialized && seen == old(seen)
      ensures routingTable != null ==> (sent == AlreadyProcessed <==> m.messageId in old(seen))
      ensures routingTable != null && m.messageId in old(seen) ==> seen == old(seen)
      ensures routingTable != null && m.messageId !in old(seen) ==>
        seen == MarkSeen(old(seen), m.messageId) && sent == DecideSend(lookup) &&
        (ReachesStoreLookup(lookup) ==> IsBestStore(routingTable.knownNodes, {localNodeId.value}, lookup.storeNode))
      ensures nearby.sent == old(nearby.sent) + Resent(m, Some(sent), lookup, localNodeId, now)
      ensures events == old(events) +
        (if sent == StoredLocally then [MessageStoredLocally(m.messageId, m.finalDestination)] else [])
    {
      AttemptUpdatesOneRow(dao.rows, m, now);
      dao.IncrementDeliveryAttempts(m.messageId, now);
      ghost var attempted := dao.rows;
      ghost var storeNode;
      sent, storeNode := SendMeshMessage(m.finalDestination, m.payload, m.messageId, now);
      lookup := if routingTable != null then LookupSend(m.finalDestination, storeNode) else NothingFound;
      assert nearby.sent == old(nearby.sent) + Resent(m, Some(sent), lookup, localNodeId, now);
      if sent == SentDirect || sent.Routed? {
        DeliveredUpdatesOneRow(attempted, Attempted(m, now));
        dao.UpdateStatus(m.messageId, StoredMessageStatus.Delivered);
        OverwriteRow(old(dao.rows), m.messageId, Attempted(m, now), Attempted(m, now).(status := StoredMessageStatus.Delivered));
      } else if sent == StoredLocally {
        OverwriteRow(old(dao.rows), m.messageId, Attempted(m, now), AfterAttempt(m, now, sent, localNodeId, capabilities));
      }
    }

    /**
     * Try every message held for `destinationId`, oldest first, each once,
     * as `DeliverOne` does. `held` is the list read before the first try,
     * `results[j]` what the try of `held[j]` returned and `lookups[j]` what
     * its send found; each held row ends up as that result
     * leaves it, no other row changes, and the sends and events are those
     * of the tries in turn.
     */
    method DeliverStoredMessagesTo(destinationId: string, now: Int64)
      returns (ghost held: seq<StoredMessageEntity>, ghost results: seq<Option<MeshSendResult>>,
               ghost lookups: seq<SendLookup>)
      requires Valid()
      modifies this`seen, this`events, nearby`sent, dao
      ensures Valid()
      ensures localNodeId == old(localNodeId) && routingTable == old(routingTable) && capabilities == old(capabilities)
      ensures nearby.peerToEndpoint == old(nearby.peerToEndpoint)
      ensures forall m :: m in held <==> IsRow(old(dao.rows), m) && m.finalDestination == destinationId && m.status == Pending
      ensures forall i, j :: 0 <= i < j < |held| ==> held[i].originalTimestamp <= held[j].originalTimestamp
      ensures DistinctIds(held)
      ensures |results| == |held| && |lookups| == |held|
      ensures forall j :: 0 <= j < |held| ==> (results[j].None? <==> held[j].deliveryAttempts >= MAX_DELIVERY_ATTEMPTS)
      ensures routingTable != null ==>
        forall j :: 0 <= j < |held| ==> lookups[j] == LookupSend(destinationId, lookups[j].storeNode)
      ensures dao.rows.Keys == old(dao.rows).Keys
      ensures forall j :: 0 <= j < |held| ==>
                held[j].messageId in dao.rows &&
                dao.rows[held[j].messageId] == Settled(held[j], now, results[j], localNodeId, capabilities)
      ensures forall k :: k in old(dao.rows) && old(dao.rows)[k] !in held ==> dao.rows[k] == old(dao.rows)[k]
      ensures nearby.sent == old(nearby.sent) + ResentAll(held, results, lookups, localNodeId, now)
      ensures events == old(events) + StoredEvents(held, results)
      ensures seen == SeenAfter(old(seen), held, results)
      ensures AllTriedAsSent(old(seen), held, results, lookups, localNodeId)
      ensures forall j :: 0 <= j < |held| && results[j].Some? && routingTable == null ==> results[j].value == NotInitialized
      ensures forall j :: 0 <= j < |held| && results[j] == Some(AlreadyProcessed) ==> held[j].messageId in old(seen)
      ensures forall j :: 0 <= j < |held| && results[j].Some? && routingTable != null && results[j].value != AlreadyProcessed ==>
                results[j].value == DecideSend(lookups[j])
    {
      var pending := dao.GetPendingMessagesForDestination(destinationId);
      held, results, lookups := pending, [], [];
      ghost var rows0 := dao.rows;
      ghost var base := if routingTable != null then LookupSend(destinationId, None) else NothingFound;
      assert nearby.sent == old(nearby.sent) + ResentAll(pending[..0], results, lookups, localNodeId, now);
      assert events == old(events) + StoredEvents(pending[..0], results);
      for i := 0 to |pending|
        invariant Valid()
        invariant localNodeId == old(localNodeId) && routingTable == old(routingTable) && capabilities == old(capabilities)
        invariant nearby.peerToEndpoint == old(nearby.peerToEndpoint)
        invariant SettledUpTo(rows0, dao.rows, pending, i, results, now, localNodeId, capabilities)
        invariant |lookups| == i
        invariant routingTable != null ==> base == LookupSend(destinationId, None) && AllWithStoreNode(base, lookups, nearby.peerToEndpoint)
        invariant nearby.sent == old(nearby.sent) + ResentAll(pending[..i], results, lookups, localNodeId, now)
        invariant events == old(events) + StoredEvents(pending[..i], results)
        invariant seen == SeenAfter(old(seen), pending[..i], results)
        invariant AllTriedAsSent(old(seen), pending[..i], results, lookups, localNodeId)
      {
        var result;
        ghost var lookup;
        result, lookup := DeliverNext(destinationId, rows0, pending, i, results, lookups, base, old(nearby.sent), old(events),
                                      old(seen), now);
        results, lookups := results + [result], lookups + [lookup];
      }
      assert pending[..|pending|] == pending;
      if routingTable != null {
        AllLookupSend(destinationId, base, lookups);
      }
      TriedResults(old(seen), held, results, lookups, localNodeId);
    }

    /**
     * The state part way through a store-and-forward pass that started from
     * the sends `sent0`, the seen list `seen0` and the events `events0`,
     * after the sweep left the rows `swept`: the destinations `done` have
     * been tried, the tries so far are `held`, `results` and `lookups` with
     * `outcomes` their outcomes, and the only events raised are for messages
     * held here again.
     */
    ghost predicate Forwarded(swept: Rows, done: set<string>, outcomes: map<string, Option<MeshSendResult>>,
                              held: seq<StoredMessageEntity>, results: seq<Option<MeshSendResult>>, lookups: seq<SendLookup>,
                              sent0: seq<Outgoing>, seen0: seq<string>, events0: seq<MeshEvent>, view: SendView, now: Int64)
      reads this, dao, nearby
    {
      TickedUpTo(swept, dao.rows, done, outcomes, now, localNodeId, capabilities) &&
      |events0| <= |events| && events[..|events0|] == events0 &&
      (forall e :: e in events[|events0|..] ==>
         e.MessageStoredLocally? && e.messageId in outcomes && outcomes[e.messageId] == Some(StoredLocally)) &&
      TriesMade(sent0, seen0, nearby.sent, seen, held, results, lookups, localNodeId, now) &&
      DistinctIds(held) && outcomes == Outcomes(held, results) &&
      (forall j :: 0 <= j < |held| ==> IsRow(swept, held[j]) && held[j].finalDestination in done) &&
      (forall j :: 0 <= j < |held| ==> lookups[j] == LookupIn(view, held[j].finalDestination, lookups[j].storeNode))
    }

    /**
     * One reachable destination `d` of a store-and-forward pass: deliver the
     * messages held for it and add them to the tries of the pass so far
     * (`held0`, `results0`, `lookups0`, with `outcomes0` their outcomes),
     * which started from the sends `sent0`, the seen list `seen0` and the
     * events `events0`.
     */
    method TickDestination(d: string, now: Int64, ghost swept: Rows, ghost done: set<string>,
                           ghost outcomes0: map<string, Option<MeshSendResult>>, ghost held0: seq<StoredMessageEntity>,
                           ghost results0: seq<Option<MeshSendResult>>, ghost lookups0: seq<SendLookup>,
                           ghost sent0: seq<Outgoing>, ghost seen0: seq<string>, ghost events0: seq<MeshEvent>,
                           ghost view: SendView)
      returns (ghost outcomes: map<string, Option<MeshSendResult>>, ghost held: seq<StoredMessageEntity>,
               ghost results: seq<Option<MeshSendResult>>, ghost lookups: seq<SendLookup>)
      requires Valid() && routingTable != null && d !in done && KeyedById(swept) && view == SendViewNow()
      requires Forwarded(swept, done, outcomes0, held0, results0, lookups0, sent0, seen0, events0, view, now)
      modifies this`seen, this`events, nearby`sent, dao
      ensures Valid()
      ensures localNodeId == old(localNodeId) && routingTable == old(routingTable) && capabilities == old(capabilities)
      ensures view == SendViewNow()
      ensures Forwarded(swept, done + {d}, outcomes, held, results, lookups, sent0, seen0, events0, view, now)
    {
      ghost var before, eventsBefore, sentBefore, seenBefore := dao.rows, events, nearby.sent, seen;
      ghost var h, r, l;
      h, r, l := DeliverStoredMessagesTo(d, now);
      assert view == SendViewNow();
      assert TriesMade(sentBefore, seenBefore, nearby.sent, seen, h, r, l, localNodeId, now);
      TriesMadeAppend(sent0, seen0, sentBefore, seenBefore, nearby.sent, seen,
                      held0, results0, lookups0, h, r, l, localNodeId, now);
      TickOne(swept, before, dao.rows, done, outcomes0, d, h, r, now, localNodeId, capabilities);
      TickEvents(events0, eventsBefore, h, r, outcomes0);
      TickHeld(swept, before, done, outcomes0, d, held0, h, now, localNodeId, capabilities);
      OutcomesAppend(held0, results0, h, r);
      LookupsAppend(view, held0, lookups0, h, l, d);
      outcomes := outcomes0 + Outcomes(h, r);
      held, results, lookups := held0 + h, results0 + r, lookups0 + l;
    }

    /**
     * The delivery part of a store-and-forward pass: try, in turn, every
     * destination of `destinations` that the routing table can reach, as
     * `TickDestination` does.
     */
    method ForwardToDestinations(destinations: seq<string>, now: Int64, ghost reach: set<string>)
      returns (ghost outcomes: map<string, Option<MeshSendResult>>, ghost held: seq<StoredMessageEntity>,
               ghost results: seq<Option<MeshSendResult>>, ghost lookups: seq<SendLookup>)
      requires Valid()
      requires forall i, j :: 0 <= i < j < |destinations| ==> destinations[i] != destinations[j]
      requires reach == if routingTable == null then {} else routingTable.routes.Keys
      requires forall k :: k in dao.rows && dao.rows[k].status == Pending ==> dao.rows[k].finalDestination in destinations
      modifies this`seen, this`events, nearby`sent, dao
      ensures Valid()
      ensures localNodeId == old(localNodeId) && routingTable == old(routingTable) && capabilities == old(capabilities)
      ensures dao.rows.Keys == old(dao.rows).Keys
      ensures forall k :: k in old(dao.rows) ==>
                if old(dao.rows)[k].status == Pending && old(dao.rows)[k].finalDestination in reach
                then k in outcomes &&
                     (outcomes[k].None? <==> old(dao.rows)[k].deliveryAttempts >= MAX_DELIVERY_ATTEMPTS) &&
                     dao.rows[k] == Settled(old(dao.rows)[k], now, outcomes[k], localNodeId, capabilities)
                else dao.rows[k] == old(dao.rows)[k]
      ensures |old(events)| <= |events| && events[..|old(events)|] == old(events)
      ensures forall e :: e in events[|old(events)|..] ==>
                e.MessageStoredLocally? && e.messageId in outcomes && outcomes[e.messageId] == Some(StoredLocally)
      ensures TriesMade(old(nearby.sent), old(seen), nearby.sent, seen, held, results, lookups, localNodeId, now)
      ensures DistinctIds(held) && outcomes == Outcomes(held, results)
      ensures forall j :: 0 <= j < |held| ==> IsRow(old(dao.rows), held[j])
      ensures routingTable != null ==>
        forall j :: 0 <= j < |held| ==> lookups[j] == LookupSend(held[j].finalDestination, lookups[j].storeNode)
    {
      ghost var swept := dao.rows;
      ghost var view := if routingTable != null then SendViewNow() else SendView("", map[], {}, map[], false);
      outcomes, held, results, lookups := map[], [], [], [];
      ghost var done: set<string> := {};
      assert nearby.sent == old(nearby.sent) + ResentAll(held, results, lookups, localNodeId, now);
      for i := 0 to |destinations|
        invariant Valid()
        invariant localNodeId == old(localNodeId) && routingTable == old(routingTable) && capabilities == old(capabilities)
        invariant done == set d | d in destinations[..i] && d in reach
        invariant routingTable != null ==> view == SendViewNow()
        invariant Forwarded(swept, done, outcomes, held, results, lookups, old(nearby.sent), old(seen), old(events), view, now)
      {
        ReachedStep(destinations, i, reach);
        if routingTable != null && routingTable.CanReach(destinations[i]) {
          assert destinations[i] !in done by {
            forall j | 0 <= j < i ensures destinations[j] != destinations[i] { }
          }
          outcomes, held, results, lookups := TickDestination(destinations[i], now, swept, done, outcomes, held, results, lookups,
                                                              old(nearby.sent), old(seen), old(events), view);
          done := done + {destinations[i]};
        }
      }
      assert destinations[..|destinations|] == destinations;
      if routingTable != null {
        LookupsNow(view, held, lookups);
      }
      TickedAll(swept, dao.rows, destinations, reach, outcomes, now, localNodeId, capabilities);
    }

    /**
     * One pass of the store-and-forward loop: mark held messages past their
     * expiry, purge finished ones, then try every destination that still
     * has pending messages and that the routing table can reach, as
     * `DeliverStoredMessagesTo` does. `held`, `results` and `lookups` are
     * the tries of the whole pass in order, and `outcomes` maps each message
     * tried to what its try returned: of the rows left by the sweep, the
     * PENDING ones for a reachable destination end up as that result leaves
     * them and every other row stays as the sweep left it; the sends are
     * those of the tries in turn; the only events raised are for messages
     * held here again.
     */
    method StoreForwardTick(now: Int64)
      returns (ghost outcomes: map<string, Option<MeshSendResult>>, ghost held: seq<StoredMessageEntity>,
               ghost results: seq<Option<MeshSendResult>>, ghost lookups: seq<SendLookup>)
      requires Valid()
      modifies this`seen, this`events, nearby`sent, dao
      ensures Valid()
      ensures localNodeId == old(localNodeId) && routingTable == old(routingTable) && capabilities == old(capabilities)
      ensures var swept := WithoutCompleted(MarkExpired(old(dao.rows), now));
              var reach := if routingTable == null then {} else routingTable.routes.Keys;
        dao.rows.Keys == swept.Keys &&
        forall k :: k in swept ==>
          if swept[k].status == Pending && swept[k].finalDestination in reach
          then k in outcomes &&
               (outcomes[k].None? <==> swept[k].deliveryAttempts >= MAX_DELIVERY_ATTEMPTS) &&
               dao.rows[k] == Settled(swept[k], now, outcomes[k], localNodeId, capabilities)
          else dao.rows[k] == swept[k]
      ensures |old(events)| <= |events| && events[..|old(events)|] == old(events)
      ensures forall e :: e in events[|old(events)|..] ==>
                e.MessageStoredLocally? && e.messageId in outcomes && outcomes[e.messageId] == Some(StoredLocally)
      ensures |results| == |held| && |lookups| == |held| && DistinctIds(held)
      ensures outcomes == Outcomes(held, results)
      ensures forall j :: 0 <= j < |held| ==> IsRow(WithoutCompleted(MarkExpired(old(dao.rows), now)), held[j])
      ensures routingTable != null ==>
        forall j :: 0 <= j < |held| ==> lookups[j] == LookupSend(held[j].finalDestination, lookups[j].storeNode)
      ensures nearby.sent == old(nearby.sent) + ResentAll(held, results, lookups, localNodeId, now)
      ensures seen == SeenAfter(old(seen), held, results)
      ensures AllTriedAsSent(old(seen), held, results, lookups, localNodeId)
      ensures forall j :: 0 <= j < |held| && results[j].Some? && routingTable == null ==> results[j].value == NotInitialized
      ensures forall j :: 0 <= j < |held| && results[j] == Some(AlreadyProcessed) ==> held[j].messageId in old(seen)
      ensures forall j :: 0 <= j < |held| && results[j].Some? && routingTable != null && results[j].value != AlreadyProcessed ==>
                results[j].value == DecideSend(lookups[j])
    {
      dao.MarkExpiredMessages(now);
      dao.CleanupCompletedMessages();
      ghost var swept := dao.rows;
      ghost var reach: set<string> := if routingTable == null then {} else routingTable.routes.Keys;
      var destinations := dao.GetDestinationsWithPendingMessages();
      assert swept == WithoutCompleted(MarkExpired(old(dao.rows), now));
      forall k | k in swept && swept[k].status == Pending
        ensures swept[k].finalDestination in destinations
      {
      }
      outcomes, held, results, lookups := ForwardToDestinations(destinations, now, reach);
      assert reach == if routingTable == null then {} else routingTable.routes.Keys;
      TriedResults(old(seen), held, results, lookups, localNodeId);
    }

    /** One pass of the route clean-up loop. */
    method RouteCleanupTick(now: Int64)
      requires Valid()
      modifies routingTable
      ensures Valid()
      ensures routingTable != null ==>
        routingTable.routes == WithoutStaleRoutes(old(routingTable.routes), routingTable.directNeighbors,
                                                  DEFAULT_MAX_ROUTE_AGE_MS, now)
    {
      if routingTable != null {
        routingTable.CleanupStaleRoutes(now);
      }
    }
  }

  /**
   * After the first `i` messages of `pending`, all rows of `rows0`, were
   * tried with `results`, the table is `rows`: those rows are settled, the
   * later ones untouched, and so is every row not in `pending`.
   */
  ghost predicate SettledUpTo(rows0: Rows, rows: Rows, pending: seq<StoredMessageEntity>, i: nat,
                              results: seq<Option<MeshSendResult>>, now: Int64, me: Option<string>,
                              capabilities: NodeCapabilities)
  {
    i <= |pending| && |results| == i && rows.Keys == rows0.Keys &&
    (forall j :: i <= j < |pending| ==> IsRow(rows, pending[j])) &&
    (forall j :: 0 <= j < i ==>
       pending[j].messageId in rows &&
       (results[j].None? <==> pending[j].deliveryAttempts >= MAX_DELIVERY_ATTEMPTS) &&
       rows[pending[j].messageId] == Settled(pending[j], now, results[j], me, capabilities)) &&
    (forall k :: k in rows0 && rows0[k] !in pending ==> rows[k] == rows0[k])
  }

  lemma SettleOne(rows0: Rows, rows: Rows, pending: seq<StoredMessageEntity>, i: nat,
                  results: seq<Option<MeshSendResult>>, now: Int64, me: Option<string>,
                  capabilities: NodeCapabilities, r: Option<MeshSendResult>)
    requires SettledUpTo(rows0, rows, pending, i, results, now, me, capabilities) && i < |pending|
    requires DistinctIds(pending) && forall m :: m in pending ==> IsRow(rows0, m)
    requires r.None? <==> pending[i].deliveryAttempts >= MAX_DELIVERY_ATTEMPTS
    ensures SettledUpTo(rows0, rows[pending[i].messageId := Settled(pending[i], now, r, me, capabilities)],
                        pending, i + 1, results + [r], now, me, capabilities)
  {
    var id := pending[i].messageId;
    var s := Settled(pending[i], now, r, me, capabilities);
    var after := rows[id := s];
    var results' := results + [r];
    assert pending[i] in pending;
    assert rows0[id] == pending[i];
    assert after.Keys == rows0.Keys;
    forall j | i + 1 <= j < |pending|
      ensures IsRow(after, pending[j])
    {
      assert pending[j].messageId != id;
    }
    forall j | 0 <= j < i + 1
      ensures pending[j].messageId in after
      ensures results'[j].None? <==> pending[j].deliveryAttempts >= MAX_DELIVERY_ATTEMPTS
      ensures after[pending[j].messageId] == Settled(pending[j], now, results'[j], me, capabilities)
    {
      if j < i {
        assert pending[j].messageId != id;
        assert results'[j] == results[j];
      }
    }
    forall k | k in rows0 && rows0[k] !in pending
      ensures after[k] == rows0[k]
    {
      assert k != id;
    }
  }

  /** `l` is what `base` finds, save for a store node of its own, reached through `endpoints`. */
  ghost predicate WithStoreNode(base: SendLookup, l: SendLookup, endpoints: map<string, string>)
  {
    l.(storeNode := base.storeNode, storeEndpoint := base.storeEndpoint) == base &&
    l.storeEndpoint == (if l.storeNode.Some? && l.storeNode.value.nodeId in endpoints
                        then Some(endpoints[l.storeNode.value.nodeId]) else None)
  }

  /** Every lookup of `ls` is what `base` finds, save for a store node of its own. */
  ghost predicate AllWithStoreNode(base: SendLookup, ls: seq<SendLookup>, endpoints: map<string, string>)
    decreases |ls|
  {
    ls == [] || (AllWithStoreNode(base, ls[..|ls| - 1], endpoints) && WithStoreNode(base, ls[|ls| - 1], endpoints))
  }

  lemma AllWithStoreNodeSnoc(base: SendLookup, ls: seq<SendLookup>, l: SendLookup, endpoints: map<string, string>)
    requires AllWithStoreNode(base, ls, endpoints) && WithStoreNode(base, l, endpoints)
    ensures AllWithStoreNode(base, ls + [l], endpoints)
  {
    assert (ls + [l])[..|ls|] == ls;
  }

  lemma {:induction false} AllWithStoreNodeAt(base: SendLookup, ls: seq<SendLookup>, endpoints: map<string, string>, j: int)
    requires AllWithStoreNode(base, ls, endpoints) && 0 <= j < |ls|
    ensures WithStoreNode(base, ls[j], endpoints)
    decreases |ls|
  {
    if j < |ls| - 1 {
      AllWithStoreNodeAt(base, ls[..|ls| - 1], endpoints, j);
    }
  }

  /** The lookup of a node that is not set up, which finds nothing. */
  const NothingFound := SendLookup(false, None, None, None, false, None, None)

  /**
   * The send a message originated by `me` as `messageId` gets, given what
   * the lookup `l` found: at most one, made exactly when the result says
   * the message left the node, to the endpoint of the node the result
   * names; only a direct send leaves the store-and-forward flag off.
   */
  function OriginSend(l: SendLookup, messageId: string, me: string, destinationId: string, payload: seq<Byte>,
                         now: Int64): (r: seq<Outgoing>)
    ensures var d := DecideSend(l);
      |r| <= 1 &&
      (r != [] <==> d == SentDirect || d.Routed? || d.SentToStore?) &&
      (r != [] ==> r[0].payload == CreateRoutedMessage(messageId, me, destinationId, payload, now,
                                                       ORIGIN_TTL, [me], d != SentDirect)) &&
      (d == SentDirect ==> r[0].endpointId == l.destinationEndpoint.value) &&
      (d.Routed? ==> r[0].endpointId == l.nextHopEndpoint.value) &&
      (d.SentToStore? ==> r[0].endpointId == l.storeEndpoint.value)
  {
    var t := SendTarget(l);
    SendTargetMatchesResult(l);
    if t.Some? then [Outgoing(t.value.0, CreateRoutedMessage(messageId, me, destinationId, payload, now, ORIGIN_TTL, [me], t.value.1))]
    else []
  }

  /**
   * What one try of the held message `m` sent, the try having returned
   * `result` after the lookup `l`: the send of a fresh origination by `me`,
   * unless the message was not sent afresh at all.
   */
  function Resent(m: StoredMessageEntity, result: Option<MeshSendResult>, l: SendLookup, me: Option<string>,
                  now: Int64): (r: seq<Outgoing>)
    ensures |r| <= 1
    ensures result.None? || result == Some(AlreadyProcessed) || result == Some(NotInitialized) ==> r == []
  {
    if me.Some? && result.Some? && result.value != AlreadyProcessed && result.value != NotInitialized
    then OriginSend(l, m.messageId, me.value, m.finalDestination, m.payload, now)
    else []
  }

  /** What the tries of `held`, in order, sent. */
  function ResentAll(held: seq<StoredMessageEntity>, results: seq<Option<MeshSendResult>>, lookups: seq<SendLookup>,
                     me: Option<string>, now: Int64): (r: seq<Outgoing>)
    requires |results| == |held| && |lookups| == |held|
    ensures |r| <= |held|
    decreases |held|
  {
    if held == [] then []
    else
      var n := |held| - 1;
      ResentAll(held[..n], results[..n], lookups[..n], me, now) + Resent(held[n], results[n], lookups[n], me, now)
  }

  lemma ResentAllSnoc(held: seq<StoredMessageEntity>, results: seq<Option<MeshSendResult>>, lookups: seq<SendLookup>,
                      m: StoredMessageEntity, r: Option<MeshSendResult>, l: SendLookup, me: Option<string>, now: Int64)
    requires |results| == |held| && |lookups| == |held|
    ensures ResentAll(held + [m], results + [r], lookups + [l], me, now)
         == ResentAll(held, results, lookups, me, now) + Resent(m, r, l, me, now)
  {
    assert (held + [m])[..|held|] == held;
    assert (results + [r])[..|held|] == results;
    assert (lookups + [l])[..|held|] == lookups;
  }

  /** The events the tries of `held` with `results` raised: one per message held here again, in order. */
  function StoredEvents(held: seq<StoredMessageEntity>, results: seq<Option<MeshSendResult>>): (r: seq<MeshEvent>)
    requires |results| == |held|
    ensures |r| <= |held|
    ensures forall e :: e in r ==>
              exists j :: 0 <= j < |held| && results[j] == Some(StoredLocally) &&
                          e == MessageStoredLocally(held[j].messageId, held[j].finalDestination)
    decreases |held|
  {
    if held == [] then []
    else
      var n := |held| - 1;
      StoredEvents(held[..n], results[..n]) +
      (if results[n] == Some(StoredLocally) then [MessageStoredLocally(held[n].messageId, held[n].finalDestination)] else [])
  }

  lemma StoredEventsSnoc(held: seq<StoredMessageEntity>, results: seq<Option<MeshSendResult>>,
                         m: StoredMessageEntity, r: Option<MeshSendResult>)
    requires |results| == |held|
    ensures StoredEvents(held + [m], results + [r])
         == StoredEvents(held, results) +
            (if r == Some(StoredLocally) then [MessageStoredLocally(m.messageId, m.finalDestination)] else [])
  {
    assert (held + [m])[..|held|] == held;
    assert (results + [r])[..|held|] == results;
  }

  /** A try that returned `result` sent its message afresh, and so remembered its id. */
  predicate Marked(result: Option<MeshSendResult>)
  {
    result.Some? && result.value != AlreadyProcessed && result.value != NotInitialized
  }

  /**
   * The seen list after the tries of `held` returned `results`, starting
   * from `seen0`: each try that sent its message remembers its id, within
   * the window. Nothing but the tried ids joins the list.
   */
  function SeenAfter(seen0: seq<string>, held: seq<StoredMessageEntity>, results: seq<Option<MeshSendResult>>): (r: seq<string>)
    requires |results| == |held|
    ensures Distinct(seen0) && |seen0| <= MAX_SEEN_MESSAGES ==> Distinct(r) && |r| <= MAX_SEEN_MESSAGES
    ensures forall x :: x in r ==> x in seen0 || exists j :: 0 <= j < |held| && held[j].messageId == x
    decreases |held|
  {
    if held == [] then seen0
    else
      var n := |held| - 1;
      var s := SeenAfter(seen0, held[..n], results[..n]);
      if Marked(results[n]) then MarkSeen(s, held[n].messageId) else s
  }

  lemma SeenAfterSnoc(seen0: seq<string>, held: seq<StoredMessageEntity>, results: seq<Option<MeshSendResult>>,
                      m: StoredMessageEntity, r: Option<MeshSendResult>)
    requires |results| == |held|
    ensures SeenAfter(seen0, held + [m], results + [r])
         == (var s := SeenAfter(seen0, held, results); if Marked(r) then MarkSeen(s, m.messageId) else s)
  {
    assert (held + [m])[..|held|] == held;
    assert (results + [r])[..|held|] == results;
  }

  /**
   * What `DeliverOne` promises of one try of `m` made while `seen` was
   * remembered, by a node with id `me`: NotInitialized before set-up;
   * otherwise AlreadyProcessed exactly for a remembered id, and for any
   * other id the send ladder's result for `lookup`.
   */
  ghost predicate TriedAsSent(seen: seq<string>, m: StoredMessageEntity, result: Option<MeshSendResult>, lookup: SendLookup, me: Option<string>)
  {
    result.Some? ==>
      (me.None? ==> result.value == NotInitialized) &&
      (me.Some? ==> (result.value == AlreadyProcessed <==> m.messageId in seen)) &&
      (me.Some? && m.messageId !in seen ==> result.value == DecideSend(lookup))
  }

  /** Every try of `held`, in turn, is as `TriedAsSent` says, each seeing the ids the earlier ones remembered. */
  ghost predicate AllTriedAsSent(seen0: seq<string>, held: seq<StoredMessageEntity>, results: seq<Option<MeshSendResult>>,
                                 lookups: seq<SendLookup>, me: Option<string>)
    requires |results| == |held| && |lookups| == |held|
    decreases |held|
  {
    held == [] ||
    (var n := |held| - 1;
     AllTriedAsSent(seen0, held[..n], results[..n], lookups[..n], me) &&
     TriedAsSent(SeenAfter(seen0, held[..n], results[..n]), held[n], results[n], lookups[n], me))
  }

  lemma AllTriedAsSentSnoc(seen0: seq<string>, held: seq<StoredMessageEntity>, results: seq<Option<MeshSendResult>>,
                           lookups: seq<SendLookup>, me: Option<string>,
                           m: StoredMessageEntity, r: Option<MeshSendResult>, l: SendLookup)
    requires |results| == |held| && |lookups| == |held|
    requires AllTriedAsSent(seen0, held, results, lookups, me)
    requires TriedAsSent(SeenAfter(seen0, held, results), m, r, l, me)
    ensures AllTriedAsSent(seen0, held + [m], results + [r], lookups + [l], me)
  {
    assert (held + [m])[..|held|] == held;
    assert (results + [r])[..|held|] == results;
    assert (lookups + [l])[..|held|] == lookups;
  }

  /** One more try of `pending[i]` extends the pass's seen list and its record of tries. */
  lemma TriedOneMore(seen0: seq<string>, pending: seq<StoredMessageEntity>, i: nat, results: seq<Option<MeshSendResult>>,
                     lookups: seq<SendLookup>, me: Option<string>,
                     seenBefore: seq<string>, seenAfter: seq<string>, r: Option<MeshSendResult>, l: SendLookup)
    requires i < |pending| && |results| == i && |lookups| == i
    requires seenBefore == SeenAfter(seen0, pending[..i], results)
    requires AllTriedAsSent(seen0, pending[..i], results, lookups, me)
    requires TriedAsSent(seenBefore, pending[i], r, l, me)
    requires seenAfter == if Marked(r) then MarkSeen(seenBefore, pending[i].messageId) else seenBefore
    ensures seenAfter == SeenAfter(seen0, pending[..i + 1], results + [r])
    ensures AllTriedAsSent(seen0, pending[..i + 1], results + [r], lookups + [l], me)
  {
    assert pending[..i + 1] == pending[..i] + [pending[i]];
    SeenAfterSnoc(seen0, pending[..i], results, pending[i], r);
    AllTriedAsSentSnoc(seen0, pending[..i], results, lookups, me, pending[i], r, l);
  }

  lemma {:induction false} AllTriedAsSentAt(seen0: seq<string>, held: seq<StoredMessageEntity>, results: seq<Option<MeshSendResult>>,
                                            lookups: seq<SendLookup>, me: Option<string>, j: int)
    requires |results| == |held| && |lookups| == |held|
    requires AllTriedAsSent(seen0, held, results, lookups, me) && 0 <= j < |held|
    ensures TriedAsSent(SeenAfter(seen0, held[..j], results[..j]), held[j], results[j], lookups[j], me)
    decreases |held|
  {
    var n := |held| - 1;
    if j < n {
      AllTriedAsSentAt(seen0, held[..n], results[..n], lookups[..n], me, j);
      assert held[..n][..j] == held[..j];
      assert results[..n][..j] == results[..j];
    }
  }

  /**
   * What a pass of tries promises of each result: NotInitialized before
   * set-up; AlreadyProcessed only for an id remembered before the pass
   * (the held ids being distinct, no try remembers another's id); and
   * otherwise the send ladder's result for the try's lookup.
   */
  lemma TriedResults(seen0: seq<string>, held: seq<StoredMessageEntity>, results: seq<Option<MeshSendResult>>,
                     lookups: seq<SendLookup>, me: Option<string>)
    requires |results| == |held| && |lookups| == |held| && DistinctIds(held)
    requires AllTriedAsSent(seen0, held, results, lookups, me)
    ensures forall j :: 0 <= j < |held| ==>
              TriedAsSent(SeenAfter(seen0, held[..j], results[..j]), held[j], results[j], lookups[j], me)
    ensures forall j :: 0 <= j < |held| && results[j].Some? && me.None? ==> results[j].value == NotInitialized
    ensures forall j :: 0 <= j < |held| && results[j] == Some(AlreadyProcessed) ==> held[j].messageId in seen0
    ensures forall j :: 0 <= j < |held| && results[j].Some? && me.Some? && results[j].value != AlreadyProcessed ==>
              results[j].value == DecideSend(lookups[j])
  {
    forall j | 0 <= j < |held|
      ensures TriedAsSent(SeenAfter(seen0, held[..j], results[..j]), held[j], results[j], lookups[j], me)
      ensures results[j] == Some(AlreadyProcessed) ==> held[j].messageId in seen0
    {
      AllTriedAsSentAt(seen0, held, results, lookups, me, j);
    }
  }

  /** Two passes of tries in a row leave the seen list one pass over both would. */
  lemma {:induction false} SeenAfterAppend(seen0: seq<string>, h1: seq<StoredMessageEntity>, r1: seq<Option<MeshSendResult>>,
                                           h2: seq<StoredMessageEntity>, r2: seq<Option<MeshSendResult>>)
    requires |r1| == |h1| && |r2| == |h2|
    ensures SeenAfter(seen0, h1 + h2, r1 + r2) == SeenAfter(SeenAfter(seen0, h1, r1), h2, r2)
    decreases |h2|
  {
    if h2 == [] {
      assert h1 + h2 == h1;
      assert r1 + r2 == r1;
    } else {
      var n := |h2| - 1;
      SeenAfterAppend(seen0, h1, r1, h2[..n], r2[..n]);
      SeenAfterSnoc(seen0, h1 + h2[..n], r1 + r2[..n], h2[n], r2[n]);
      SeenAfterSnoc(SeenAfter(seen0, h1, r1), h2[..n], r2[..n], h2[n], r2[n]);
      SnocSplit(h1, h2);
      SnocSplit(r1, r2);
    }
  }

  /** Two passes of tries in a row, the second starting from what the first remembered, are one pass over both. */
  lemma {:induction false} AllTriedAsSentAppend(seen0: seq<string>, h1: seq<StoredMessageEntity>, r1: seq<Option<MeshSendResult>>,
                                                l1: seq<SendLookup>, h2: seq<StoredMessageEntity>, r2: seq<Option<MeshSendResult>>,
                                                l2: seq<SendLookup>, me: Option<string>)
    requires |r1| == |h1| && |l1| == |h1| && |r2| == |h2| && |l2| == |h2|
    requires AllTriedAsSent(seen0, h1, r1, l1, me)
    requires AllTriedAsSent(SeenAfter(seen0, h1, r1), h2, r2, l2, me)
    ensures AllTriedAsSent(seen0, h1 + h2, r1 + r2, l1 + l2, me)
    decreases |h2|
  {
    if h2 == [] {
      assert h1 + h2 == h1;
      assert r1 + r2 == r1;
      assert l1 + l2 == l1;
    } else {
      var n := |h2| - 1;
      AllTriedAsSentAppend(seen0, h1, r1, l1, h2[..n], r2[..n], l2[..n], me);
      SeenAfterAppend(seen0, h1, r1, h2[..n], r2[..n]);
      AllTriedAsSentSnoc(seen0, h1 + h2[..n], r1 + r2[..n], l1 + l2[..n], me, h2[n], r2[n], l2[n]);
      SnocSplit(h1, h2);
      SnocSplit(r1, r2);
      SnocSplit(l1, l2);
    }
  }

  /** The sends of two passes of tries in a row are those of one pass over both. */
  lemma {:induction false} ResentAllAppend(h1: seq<StoredMessageEntity>, r1: seq<Option<MeshSendResult>>, l1: seq<SendLookup>,
                                           h2: seq<StoredMessageEntity>, r2: seq<Option<MeshSendResult>>, l2: seq<SendLookup>,
                                           me: Option<string>, now: Int64)
    requires |r1| == |h1| && |l1| == |h1| && |r2| == |h2| && |l2| == |h2|
    ensures ResentAll(h1 + h2, r1 + r2, l1 + l2, me, now) == ResentAll(h1, r1, l1, me, now) + ResentAll(h2, r2, l2, me, now)
    decreases |h2|
  {
    if h2 == [] {
      assert h1 + h2 == h1;
      assert r1 + r2 == r1;
      assert l1 + l2 == l1;
      assert ResentAll(h1, r1, l1, me, now) + [] == ResentAll(h1, r1, l1, me, now);
    } else {
      var n := |h2| - 1;
      ResentAllAppend(h1, r1, l1, h2[..n], r2[..n], l2[..n], me, now);
      ResentAllSnoc(h1 + h2[..n], r1 + r2[..n], l1 + l2[..n], h2[n], r2[n], l2[n], me, now);
      ResentAllSnoc(h2[..n], r2[..n], l2[..n], h2[n], r2[n], l2[n], me, now);
      SnocSplit(h1, h2);
      SnocSplit(r1, r2);
      SnocSplit(l1, l2);
      ConcatAssoc(ResentAll(h1, r1, l1, me, now), ResentAll(h2[..n], r2[..n], l2[..n], me, now),
                  Resent(h2[n], r2[n], l2[n], me, now));
    }
  }

  /**
   * A pass of tries over `held` that started from the sends `sent0` and the
   * seen list `seen0` has left the sends `sent` and the seen list `seen`,
   * each try being the one `DeliverOne` makes.
   */
  ghost predicate TriesMade(sent0: seq<Outgoing>, seen0: seq<string>, sent: seq<Outgoing>, seen: seq<string>,
                            held: seq<StoredMessageEntity>, results: seq<Option<MeshSendResult>>,
                            lookups: seq<SendLookup>, me: Option<string>, now: Int64)
  {
    |results| == |held| && |lookups| == |held| &&
    sent == sent0 + ResentAll(held, results, lookups, me, now) &&
    seen == SeenAfter(seen0, held, results) &&
    AllTriedAsSent(seen0, held, results, lookups, me)
  }

  /** Two passes of tries in a row, the second starting where the first stopped, are one pass over both. */
  lemma TriesMadeAppend(sent0: seq<Outgoing>, seen0: seq<string>, sent1: seq<Outgoing>, seen1: seq<string>,
                        sent2: seq<Outgoing>, seen2: seq<string>,
                        h1: seq<StoredMessageEntity>, r1: seq<Option<MeshSendResult>>, l1: seq<SendLookup>,
                        h2: seq<StoredMessageEntity>, r2: seq<Option<MeshSendResult>>, l2: seq<SendLookup>,
                        me: Option<string>, now: Int64)
    requires TriesMade(sent0, seen0, sent1, seen1, h1, r1, l1, me, now)
    requires TriesMade(sent1, seen1, sent2, seen2, h2, r2, l2, me, now)
    ensures TriesMade(sent0, seen0, sent2, seen2, h1 + h2, r1 + r2, l1 + l2, me, now)
  {
    ResentAllAppend(h1, r1, l1, h2, r2, l2, me, now);
    SeenAfterAppend(seen0, h1, r1, h2, r2);
    AllTriedAsSentAppend(seen0, h1, r1, l1, h2, r2, l2, me);
    ConcatAssoc(sent0, ResentAll(h1, r1, l1, me, now), ResentAll(h2, r2, l2, me, now));
  }

  /** A list of messages with distinct ids splits into two such lists. */
  lemma DistinctIdsSplit(h1: seq<StoredMessageEntity>, h2: seq<StoredMessageEntity>)
    requires DistinctIds(h1 + h2)
    ensures DistinctIds(h1) && DistinctIds(h2)
    ensures forall i, j :: 0 <= i < |h1| && 0 <= j < |h2| ==> h1[i].messageId != h2[j].messageId
  {
    var h := h1 + h2;
    forall i, j | 0 <= i < j < |h1| ensures h1[i].messageId != h1[j].messageId {
      assert h[i] == h1[i] && h[j] == h1[j];
    }
    forall i, j | 0 <= i < j < |h2| ensures h2[i].messageId != h2[j].messageId {
      assert h[|h1| + i] == h2[i] && h[|h1| + j] == h2[j];
    }
    forall i, j | 0 <= i < |h1| && 0 <= j < |h2| ensures h1[i].messageId != h2[j].messageId {
      assert h[i] == h1[i] && h[|h1| + j] == h2[j];
    }
  }

  /** The outcomes of two passes over distinct messages are those of one pass over both. */
  lemma OutcomesAppend(h1: seq<StoredMessageEntity>, r1: seq<Option<MeshSendResult>>,
                       h2: seq<StoredMessageEntity>, r2: seq<Option<MeshSendResult>>)
    requires |r1| == |h1| && |r2| == |h2| && DistinctIds(h1 + h2)
    ensures DistinctIds(h1) && DistinctIds(h2)
    ensures Outcomes(h1 + h2, r1 + r2) == Outcomes(h1, r1) + Outcomes(h2, r2)
  {
    DistinctIdsSplit(h1, h2);
    var o, o1, o2 := Outcomes(h1 + h2, r1 + r2), Outcomes(h1, r1), Outcomes(h2, r2);
    OutcomesAppendKeys(h1, r1, h2, r2);
    forall k | k in o
      ensures o[k] == (o1 + o2)[k]
    {
      OutcomesAppendAt(h1, r1, h2, r2, k);
    }
  }

  lemma OutcomesAppendKeys(h1: seq<StoredMessageEntity>, r1: seq<Option<MeshSendResult>>,
                           h2: seq<StoredMessageEntity>, r2: seq<Option<MeshSendResult>>)
    requires |r1| == |h1| && |r2| == |h2| && DistinctIds(h1 + h2) && DistinctIds(h1) && DistinctIds(h2)
    ensures Outcomes(h1 + h2, r1 + r2).Keys == Outcomes(h1, r1).Keys + Outcomes(h2, r2).Keys
  {
    var h, r := h1 + h2, r1 + r2;
    var o, o1, o2 := Outcomes(h, r), Outcomes(h1, r1), Outcomes(h2, r2);
    forall k | k in o ensures k in o1 || k in o2 {
      OutcomeKeyIsHeld(h1, r1, h2, r2, k);
    }
    forall i | 0 <= i < |h1| ensures h1[i].messageId in o {
      assert h[i] == h1[i];
    }
    forall i | 0 <= i < |h2| ensures h2[i].messageId in o {
      assert h[|h1| + i] == h2[i];
    }
  }

  lemma OutcomeKeyIsHeld(h1: seq<StoredMessageEntity>, r1: seq<Option<MeshSendResult>>,
                         h2: seq<StoredMessageEntity>, r2: seq<Option<MeshSendResult>>, k: string)
    requires |r1| == |h1| && |r2| == |h2| && DistinctIds(h1 + h2) && DistinctIds(h1) && DistinctIds(h2)
    requires k in Outcomes(h1 + h2, r1 + r2)
    ensures k in Outcomes(h1, r1) || k in Outcomes(h2, r2)
  {
    var h := h1 + h2;
    var j :| 0 <= j < |h| && h[j].messageId == k;
    if j < |h1| {
      assert h[j] == h1[j];
    } else {
      assert h[j] == h2[j - |h1|];
    }
  }

  lemma OutcomesAppendAt(h1: seq<StoredMessageEntity>, r1: seq<Option<MeshSendResult>>,
                         h2: seq<StoredMessageEntity>, r2: seq<Option<MeshSendResult>>, k: string)
    requires |r1| == |h1| && |r2| == |h2| && DistinctIds(h1 + h2) && DistinctIds(h1) && DistinctIds(h2)
    requires forall i, j :: 0 <= i < |h1| && 0 <= j < |h2| ==> h1[i].messageId != h2[j].messageId
    requires k in Outcomes(h1 + h2, r1 + r2)
    ensures k in Outcomes(h1, r1) + Outcomes(h2, r2)
    ensures Outcomes(h1 + h2, r1 + r2)[k] == (Outcomes(h1, r1) + Outcomes(h2, r2))[k]
  {
    var h, r := h1 + h2, r1 + r2;
    var j :| 0 <= j < |h| && h[j].messageId == k;
    if j < |h1| {
      assert h[j] == h1[j] && r[j] == r1[j];
      assert k !in Outcomes(h2, r2);
    } else {
      assert h[j] == h2[j - |h1|] && r[j] == r2[j - |h1|];
    }
  }

  lemma SnocSplit<T>(a: seq<T>, b: seq<T>)
    requires b != []
    ensures a + b[..|b| - 1] + [b[|b| - 1]] == a + b && b[..|b| - 1] + [b[|b| - 1]] == b
  {
  }

  lemma ConcatAssoc<T>(a: seq<T>, b: seq<T>, c: seq<T>)
    ensures a + b + c == a + (b + c)
  {
  }

  /** The reachable destinations among the first `i + 1` are those among the first `i`, plus the next one if it is reachable. */
  lemma ReachedStep(destinations: seq<string>, i: nat, reach: set<string>)
    requires i < |destinations|
    ensures (set d | d in destinations[..i + 1] && d in reach)
         == (set d | d in destinations[..i] && d in reach) + (if destinations[i] in reach then {destinations[i]} else {})
  {
    PrefixSnoc(destinations, i);
  }

  lemma PrefixSnoc<T>(s: seq<T>, i: nat)
    requires i < |s|
    ensures s[..i + 1] == s[..i] + [s[i]]
  {
  }

  /** Each message of `held` mapped to the result of its try. */
  function Outcomes(held: seq<StoredMessageEntity>, results: seq<Option<MeshSendResult>>): (o: map<string, Option<MeshSendResult>>)
    requires |results| == |held| && DistinctIds(held)
    ensures forall j :: 0 <= j < |held| ==> held[j].messageId in o && o[held[j].messageId] == results[j]
    ensures forall k :: k in o ==> exists j :: 0 <= j < |held| && held[j].messageId == k
  {
    map j | 0 <= j < |held| :: held[j].messageId := results[j]
  }

  /**
   * The store-and-forward pass has tried the destinations `done`: of the
   * rows `swept` the sweep left, the PENDING ones for those destinations
   * are settled with their `outcomes`, every other row is as it was, and
   * `outcomes` holds nothing else.
   */
  ghost predicate TickedUpTo(swept: Rows, rows: Rows, done: set<string>, outcomes: map<string, Option<MeshSendResult>>,
                             now: Int64, me: Option<string>, capabilities: NodeCapabilities)
  {
    rows.Keys == swept.Keys &&
    (forall k :: k in swept ==>
       if swept[k].status == Pending && swept[k].finalDestination in done
       then k in outcomes &&
            (outcomes[k].None? <==> swept[k].deliveryAttempts >= MAX_DELIVERY_ATTEMPTS) &&
            rows[k] == Settled(swept[k], now, outcomes[k], me, capabilities)
       else rows[k] == swept[k]) &&
    (forall k :: k in outcomes ==> k in swept && swept[k].status == Pending && swept[k].finalDestination in done)
  }

  /** The messages held for a destination not yet tried are rows for it that the pass has not settled. */
  lemma TickOneAdded(swept: Rows, before: Rows, done: set<string>, outcomes: map<string, Option<MeshSendResult>>,
                     d: string, held: seq<StoredMessageEntity>, results: seq<Option<MeshSendResult>>,
                     now: Int64, me: Option<string>, capabilities: NodeCapabilities)
    requires TickedUpTo(swept, before, done, outcomes, now, me, capabilities) && d !in done
    requires forall m :: m in held <==> IsRow(before, m) && m.finalDestination == d && m.status == Pending
    requires |results| == |held| && DistinctIds(held)
    ensures forall k :: k in Outcomes(held, results) ==>
              k in before && before[k] in held && before[k].finalDestination == d && k !in outcomes
  {
    forall k | k in Outcomes(held, results)
      ensures k in before && before[k] in held && before[k].finalDestination == d && k !in outcomes
    {
      var j :| 0 <= j < |held| && held[j].messageId == k;
      assert held[j] in held;
      if k in outcomes {
        assert false;
      }
    }
  }

  /**
   * Once every destination with pending rows has been considered, the
   * reachable ones among them tried, every pending row for a reachable
   * destination is settled and every other row is as the sweep left it.
   */
  lemma TickedAll(swept: Rows, rows: Rows, destinations: seq<string>, reach: set<string>,
                  outcomes: map<string, Option<MeshSendResult>>, now: Int64, me: Option<string>, capabilities: NodeCapabilities)
    requires TickedUpTo(swept, rows, (set d | d in destinations && d in reach), outcomes, now, me, capabilities)
    requires forall k :: k in swept && swept[k].status == Pending ==> swept[k].finalDestination in destinations
    ensures rows.Keys == swept.Keys
    ensures forall k :: k in swept ==>
              if swept[k].status == Pending && swept[k].finalDestination in reach
              then k in outcomes &&
                   (outcomes[k].None? <==> swept[k].deliveryAttempts >= MAX_DELIVERY_ATTEMPTS) &&
                   rows[k] == Settled(swept[k], now, outcomes[k], me, capabilities)
              else rows[k] == swept[k]
  {
    var done := set d | d in destinations && d in reach;
    forall k | k in swept && swept[k].status == Pending
      ensures swept[k].finalDestination in done <==> swept[k].finalDestination in reach
    {
    }
  }

  /**
   * The messages held for one more destination `d` are rows the sweep left
   * for `d`, none of them tried before, so the pass's tries stay distinct.
   */
  lemma TickHeld(swept: Rows, before: Rows, done: set<string>, outcomes: map<string, Option<MeshSendResult>>,
                 d: string, h1: seq<StoredMessageEntity>, h2: seq<StoredMessageEntity>,
                 now: Int64, me: Option<string>, capabilities: NodeCapabilities)
    requires TickedUpTo(swept, before, done, outcomes, now, me, capabilities) && d !in done
    requires DistinctIds(h1) && forall j :: 0 <= j < |h1| ==> IsRow(swept, h1[j]) && h1[j].finalDestination in done
    requires DistinctIds(h2) && forall m :: m in h2 <==> IsRow(before, m) && m.finalDestination == d && m.status == Pending
    ensures DistinctIds(h1 + h2)
    ensures forall j :: 0 <= j < |h1 + h2| ==> IsRow(swept, (h1 + h2)[j]) && (h1 + h2)[j].finalDestination in done + {d}
  {
    var h := h1 + h2;
    forall j | 0 <= j < |h2|
      ensures IsRow(swept, h2[j]) && h2[j].finalDestination == d
    {
      var m := h2[j];
      assert m in h2;
      var k := m.messageId;
      assert k in swept;
      if swept[k].status == Pending && swept[k].finalDestination in done {
        assert false;
      }
    }
    forall i, j | 0 <= i < j < |h|
      ensures h[i].messageId != h[j].messageId
    {
      if j >= |h1| && i < |h1| {
        assert h[i] == h1[i] && h[j] == h2[j - |h1|];
      } else if j >= |h1| {
        assert h[i] == h2[i - |h1|] && h[j] == h2[j - |h1|];
      } else {
        assert h[i] == h1[i] && h[j] == h1[j];
      }
    }
    forall j | 0 <= j < |h|
      ensures IsRow(swept, h[j]) && h[j].finalDestination in done + {d}
    {
      if j >= |h1| {
        assert h[j] == h2[j - |h1|];
      } else {
        assert h[j] == h1[j];
      }
    }
  }

  /** Trying one more destination `d` extends what the pass has settled by the messages held for `d`. */
  lemma TickOne(swept: Rows, before: Rows, after: Rows, done: set<string>, outcomes: map<string, Option<MeshSendResult>>,
                d: string, held: seq<StoredMessageEntity>, results: seq<Option<MeshSendResult>>,
                now: Int64, me: Option<string>, capabilities: NodeCapabilities)
    requires KeyedById(swept) && TickedUpTo(swept, before, done, outcomes, now, me, capabilities) && d !in done
    requires forall m :: m in held <==> IsRow(before, m) && m.finalDestination == d && m.status == Pending
    requires |results| == |held| && DistinctIds(held)
    requires forall j :: 0 <= j < |held| ==> (results[j].None? <==> held[j].deliveryAttempts >= MAX_DELIVERY_ATTEMPTS)
    requires after.Keys == before.Keys
    requires forall j :: 0 <= j < |held| ==>
               held[j].messageId in after && after[held[j].messageId] == Settled(held[j], now, results[j], me, capabilities)
    requires forall k :: k in before && before[k] !in held ==> after[k] == before[k]
    ensures outcomes.Keys !! Outcomes(held, results).Keys
    ensures TickedUpTo(swept, after, done + {d}, outcomes + Outcomes(held, results), now, me, capabilities)
  {
    var added := Outcomes(held, results);
    var o := outcomes + added;
    TickOneAdded(swept, before, done, outcomes, d, held, results, now, me, capabilities);
    forall k | k in swept
      ensures if swept[k].status == Pending && swept[k].finalDestination in done + {d}
              then k in o &&
                   (o[k].None? <==> swept[k].deliveryAttempts >= MAX_DELIVERY_ATTEMPTS) &&
                   after[k] == Settled(swept[k], now, o[k], me, capabilities)
              else after[k] == swept[k]
    {
      if swept[k].status == Pending && swept[k].finalDestination == d {
        assert IsRow(before, swept[k]);
        assert swept[k] in held;
        var j :| 0 <= j < |held| && held[j] == swept[k];
        assert added[k] == results[j];
      } else if swept[k].status == Pending && swept[k].finalDestination in done {
        if before[k] in held {
          assert false;
        }
        assert k !in added;
      } else {
        if before[k] in held {
          assert false;
        }
        assert k !in added;
      }
    }
  }

  /** The events of one more destination are all for messages held here again, as its outcomes record. */
  lemma TickEvents(e0: seq<MeshEvent>, before: seq<MeshEvent>, held: seq<StoredMessageEntity>,
                   results: seq<Option<MeshSendResult>>, outcomes: map<string, Option<MeshSendResult>>)
    requires |e0| <= |before| && before[..|e0|] == e0
    requires forall e :: e in before[|e0|..] ==>
               e.MessageStoredLocally? && e.messageId in outcomes && outcomes[e.messageId] == Some(StoredLocally)
    requires |results| == |held| && DistinctIds(held)
    requires outcomes.Keys !! Outcomes(held, results).Keys
    ensures var after := before + StoredEvents(held, results);
            var o := outcomes + Outcomes(held, results);
      |e0| <= |after| && after[..|e0|] == e0 &&
      forall e :: e in after[|e0|..] ==> e.MessageStoredLocally? && e.messageId in o && o[e.messageId] == Some(StoredLocally)
  {
    var added := StoredEvents(held, results);
    var after := before + added;
    var o := outcomes + Outcomes(held, results);
    assert after[..|e0|] == e0;
    assert after[|e0|..] == before[|e0|..] + added;
    forall e | e in after[|e0|..]
      ensures e.MessageStoredLocally? && e.messageId in o && o[e.messageId] == Some(StoredLocally)
    {
      if e in added {
        var j :| 0 <= j < |held| && results[j] == Some(StoredLocally) &&
                 e == MessageStoredLocally(held[j].messageId, held[j].finalDestination);
      } else {
        assert e in before[|e0|..];
      }
    }
  }

  /** The row of a held message after `DeliverOne` returned `result`: FAILED when it was not tried again. */
  function Settled(m: StoredMessageEntity, now: Int64, result: Option<MeshSendResult>, me: Option<string>,
                   capabilities: NodeCapabilities): (r: StoredMessageEntity)
    ensures r.messageId == m.messageId && r.finalDestination == m.finalDestination && r.payload == m.payload
    ensures result.None? ==> r.status == StoredMessageStatus.Failed && r.deliveryAttempts == m.deliveryAttempts
    ensures result == Some(SentDirect) || (result.Some? && result.value.Routed?) ==> r.status == StoredMessageStatus.Delivered
  {
    match result
    case None => m.(status := StoredMessageStatus.Failed)
    case Some(sent) => AfterAttempt(m, now, sent, me, capabilities)
  }

  /**
   * The row of a held message after a redelivery with result `sent`: a new
   * held copy when it was held here again, DELIVERED after a direct or
   * routed send, and otherwise still as it was, one attempt more.
   */
  function AfterAttempt(m: StoredMessageEntity, now: Int64, sent: MeshSendResult, me: Option<string>,
                        capabilities: NodeCapabilities): (r: StoredMessageEntity)
    ensures r.messageId == m.messageId && r.finalDestination == m.finalDestination && r.payload == m.payload
    ensures sent == StoredLocally && me.Some? ==> r.status == Pending && r.deliveryAttempts == 0 && r.storedAt == now
    ensures sent == SentDirect || sent.Routed? ==> r.status == StoredMessageStatus.Delivered && r.lastDeliveryAttempt == Some(now)
    ensures sent != SentDirect && !sent.Routed? && !(sent == StoredLocally && me.Some?) ==>
      r.status == m.status && r.lastDeliveryAttempt == Some(now)
  {
    if sent == StoredLocally && me.Some? then HeldCopy(m.messageId, me.value, m.finalDestination, m.payload, now, capabilities)
    else if sent == SentDirect || sent.Routed? then Attempted(m, now).(status := StoredMessageStatus.Delivered)
    else Attempted(m, now)
  }

  lemma OverwriteRow(rows: Rows, id: string, first: StoredMessageEntity, second: StoredMessageEntity)
    ensures rows[id := first][id := second] == rows[id := second]
  {
  }

  lemma AttemptUpdatesOneRow(rows: Rows, m: StoredMessageEntity, now: Int64)
    requires IsRow(rows, m)
    ensures WithAttempt(rows, m.messageId, now) == rows[m.messageId := Attempted(m, now)]
  {
  }

  lemma DeliveredUpdatesOneRow(rows: Rows, m: StoredMessageEntity)
    requires IsRow(rows, m)
    ensures WithStatus(rows, m.messageId, StoredMessageStatus.Delivered)
         == rows[m.messageId := m.(status := StoredMessageStatus.Delivered)]
  {
  }

  /** The row after one counted delivery attempt at `now`. */
  function Attempted(m: StoredMessageEntity, now: Int64): (a: StoredMessageEntity)
    ensures a.messageId == m.messageId && a.status == m.status && a.lastDeliveryAttempt == Some(now)
    ensures 0 <= m.deliveryAttempts < 0x7FFF_FFFF ==> a.deliveryAttempts == m.deliveryAttempts + 1
  {
    m.(deliveryAttempts := Wrap32(m.deliveryAttempts + 1), lastDeliveryAttempt := Some(now))
  }
}
