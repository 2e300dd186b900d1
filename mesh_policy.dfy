/**
 * The decisions the mesh manager takes, as functions of what it looks up:
 * the bounded window of message ids already seen, the retention of a held
 * message, the capabilities a node offers for its battery and network,
 * the order in which a send tries direct delivery, a route, local storage
 * and a remote store, and what a relay does with a routed message.
 */
module MeshPolicy {
  import opened Wrappers
  import opened JavaInt
  import opened Json
  import opened MeshProtocol
  import opened Routing
  import opened StoredMessages
  import MessageProtocol

  const MAX_SEEN_MESSAGES: int := 1000
  const MAX_DELIVERY_ATTEMPTS: int := 10
  /** Hop budget of a message this node originates. */
  const ORIGIN_TTL: Int32 := 10

  /** Periods of the background loops and the pause after a peer connects. */
  const TOPOLOGY_ANNOUNCE_INTERVAL_MS: int := 60_000
  const STORE_FORWARD_INTERVAL_MS: int := 60_000
  const CAPABILITIES_INTERVAL_MS: int := 30_000
  const ROUTE_CLEANUP_INTERVAL_MS: int := 5 * 60 * 1000
  const PEER_SETTLE_DELAY_MS: int := 500

  /** What became of a send. */
  datatype MeshSendResult =
    | NotInitialized
    | AlreadyProcessed
    | SentDirect
    | Routed(nextHop: string, totalHops: Int32)
    | StoredLocally
    | SentToStore(storeNodeId: string)
    | NoRoute

  /** What the mesh manager reports to the rest of the app. */
  datatype MeshEvent =
    | TopologyUpdated(knownNodes: nat)
    | MessageReceived(messageId: string, senderId: string, payload: seq<Byte>)
    | MessageAcknowledged(messageId: string, status: RouteAckStatus, storedBy: Option<string>)
    | MessageStoredLocally(messageId: string, forDestination: string)
    | MessageStoredRemotely(messageId: string, storer: string, expiresAt: Int64)

  predicate Distinct(s: seq<string>)
  {
    forall i, j :: 0 <= i < j < |s| ==> s[i] != s[j]
  }

  // ------------------------------------------------------ seen message ids

  /**
   * Record `id` in the insertion-ordered window of seen ids; when the window
   * grows past its bound, the oldest half of the bound is forgotten.
   */
  function MarkSeen(seen: seq<string>, id: string): (r: seq<string>)
    ensures id !in seen || |seen| <= MAX_SEEN_MESSAGES ==> id in r
    ensures forall x :: x in r ==> x in seen || x == id
    ensures |seen| <= MAX_SEEN_MESSAGES ==> |r| <= MAX_SEEN_MESSAGES
    ensures Distinct(seen) ==> Distinct(r)
  {
    var added := if id in seen then seen else seen + [id];
    if |added| > MAX_SEEN_MESSAGES then
      var kept := added[MAX_SEEN_MESSAGES / 2..];
      assert kept[|kept| - 1] == added[|added| - 1];
      kept
    else added
  }

  /**
   * Below the bound a new id is simply appended; at the bound the oldest 500
   * ids are forgotten and exactly the newest 500 survive beside the new one.
   */
  lemma MarkSeenWindow(seen: seq<string>, id: string)
    requires Distinct(seen) && |seen| <= MAX_SEEN_MESSAGES && id !in seen
    ensures |seen| < MAX_SEEN_MESSAGES ==> MarkSeen(seen, id) == seen + [id]
    ensures |seen| == MAX_SEEN_MESSAGES ==>
      MarkSeen(seen, id) == seen[500..] + [id] && |MarkSeen(seen, id)| == 501 &&
      forall i :: 0 <= i < 500 ==> seen[i] !in MarkSeen(seen, id)
  {
    if |seen| == MAX_SEEN_MESSAGES {
      var added := seen + [id];
      assert added[500..] == seen[500..] + [id];
      forall i | 0 <= i < 500
        ensures seen[i] !in seen[500..] + [id]
      {
        forall j | 0 <= j < |seen| - 500
          ensures seen[500..][j] != seen[i]
        {
          assert seen[500..][j] == seen[500 + j];
        }
      }
    }
  }

  // -------------------------------------------------------- held messages

  /** `messageRetentionHours * 60 * 60 * 1000L`: two `Int` products, then a `Long` one. */
  function RetentionMs(hours: Int32): (ms: Int64)
    ensures 0 <= hours <= 596_523 ==> ms == hours * 3_600_000
  {
    Wrap64(Wrap32(Wrap32(hours * 60) * 60) * 1000)
  }

  /** The record kept for a message held on behalf of `finalDestination`, stored at `now`. */
  function HeldCopy(messageId: string, originalSender: string, finalDestination: string,
                    payload: seq<Byte>, now: Int64, capabilities: NodeCapabilities): (m: StoredMessageEntity)
    ensures m.messageId == messageId && m.originalSender == originalSender && m.finalDestination == finalDestination
    ensures m.payload == payload && m.storedAt == now && m.originalTimestamp == now
    ensures m.status == Pending && m.deliveryAttempts == 0 && m.lastDeliveryAttempt.None?
    ensures 0 <= capabilities.messageRetentionHours <= 168 && 0 <= now < 0x7000_0000_0000_0000 ==>
      m.expiresAt == now + capabilities.messageRetentionHours * 3_600_000
  {
    NewStoredMessage(messageId, originalSender, finalDestination, payload, now, now,
                     Wrap64(now + RetentionMs(capabilities.messageRetentionHours)))
  }

  // ----------------------------------------------------- capability tiers

  /**
   * The first matching tier: Wi-Fi and charging, Wi-Fi alone, a battery
   * above 30%, a battery above 15%, and otherwise nothing offered.
   */
  function CapabilityTier(batteryLevel: int, isCharging: bool, isOnWifi: bool): (c: NodeCapabilities)
    ensures c.canStoreForward <==> isOnWifi || batteryLevel > 30
    ensures c.canForward <==> isOnWifi || batteryLevel > 15
    ensures c.canStoreForward ==> c.canForward && c.availableStorageMB > 0 && 0 < c.messageRetentionHours <= 168
    ensures !c.canStoreForward ==> c.availableStorageMB == 0 && c.messageRetentionHours == 0
    ensures c.uptimeClass == AlwaysOn <==> isOnWifi && isCharging
  {
    if isOnWifi && isCharging then NodeCapabilities(true, true, 100, 168, AlwaysOn, High)
    else if isOnWifi then NodeCapabilities(true, true, 50, 36, Frequent, High)
    else if batteryLevel > 30 then NodeCapabilities(true, true, 20, 18, Frequent, Medium)
    else if batteryLevel > 15 then NodeCapabilities(true, false, 0, 0, Occasional, Low)
    else NodeCapabilities(false, false, 0, 0, Occasional, Low)
  }

  /** A node on Wi-Fi and charging outranks every other tier as a store node. */
  lemma ChargingOnWifiIsBestStore(batteryLevel: int, other: int, isCharging: bool, isOnWifi: bool)
    requires CapabilityTier(other, isCharging, isOnWifi).canStoreForward
    ensures RanksNoWorse(CapabilityTier(batteryLevel, true, true), CapabilityTier(other, isCharging, isOnWifi))
  {
  }

  // ----------------------------------------------------------------- send

  /** What a send finds, in the order it looks: the destination as a neighbour, a route, local storage, a store node. */
  datatype SendLookup = SendLookup(
    isNeighbour: bool,
    destinationEndpoint: Option<string>,
    route: Option<RouteEntry>,
    nextHopEndpoint: Option<string>,
    canStoreForward: bool,
    storeNode: Option<NodeInfo>,
    storeEndpoint: Option<string>)

  predicate DirectOpen(l: SendLookup) { l.isNeighbour && l.destinationEndpoint.Some? }
  predicate RouteOpen(l: SendLookup) { l.route.Some? && l.nextHopEndpoint.Some? }
  predicate StoreOpen(l: SendLookup) { l.storeNode.Some? && l.storeEndpoint.Some? }

  /** A store node is looked for only when nothing before it in the order applies. */
  predicate ReachesStoreLookup(l: SendLookup)
  {
    !DirectOpen(l) && !RouteOpen(l) && !l.canStoreForward
  }

  /** The outcome of a send of a new message, first applicable option winning. */
  function DecideSend(l: SendLookup): (r: MeshSendResult)
    ensures r == SentDirect <==> DirectOpen(l)
    ensures r.Routed? <==> !DirectOpen(l) && RouteOpen(l)
    ensures r.Routed? ==> r.nextHop == l.route.value.nextHop && r.totalHops == l.route.value.hopCount
    ensures r == StoredLocally <==> !DirectOpen(l) && !RouteOpen(l) && l.canStoreForward
    ensures r.SentToStore? <==> ReachesStoreLookup(l) && StoreOpen(l)
    ensures r.SentToStore? ==> r.storeNodeId == l.storeNode.value.nodeId
    ensures r == NoRoute <==> ReachesStoreLookup(l) && !StoreOpen(l)
  {
    if DirectOpen(l) then SentDirect
    else if RouteOpen(l) then Routed(l.route.value.nextHop, l.route.value.hopCount)
    else if l.canStoreForward then StoredLocally
    else if StoreOpen(l) then SentToStore(l.storeNode.value.nodeId)
    else NoRoute
  }

  /** The endpoint the routed message is handed to, and its store-and-forward flag. */
  function SendTarget(l: SendLookup): (t: Option<(string, bool)>)
  {
    if DirectOpen(l) then Some((l.destinationEndpoint.value, false))
    else if RouteOpen(l) then Some((l.nextHopEndpoint.value, true))
    else if ReachesStoreLookup(l) && StoreOpen(l) then Some((l.storeEndpoint.value, true))
    else None
  }

  /**
   * A message leaves the node exactly when the result says it was sent,
   * routed or handed to a store, to the endpoint of the node the result
   * names; only a direct send leaves the store-and-forward flag off.
   */
  lemma SendTargetMatchesResult(l: SendLookup)
    ensures var r := DecideSend(l);
            var t := SendTarget(l);
            (t.Some? <==> r == SentDirect || r.Routed? || r.SentToStore?) &&
            (r == SentDirect ==> t == Some((l.destinationEndpoint.value, false))) &&
            (r.Routed? ==> t == Some((l.nextHopEndpoint.value, true))) &&
            (r.SentToStore? ==> t == Some((l.storeEndpoint.value, true)))
  {
  }

  // ---------------------------------------------------------------- relay

  /** What a relay finds about the destination of a routed message. */
  datatype RelayLookup = RelayLookup(
    isNeighbour: bool,
    destinationEndpoint: Option<string>,
    nextHop: Option<string>,
    nextHopEndpoint: Option<string>,
    canStoreForward: bool)

  datatype RelayOutcome = OutOfHops | ReachedDestination | ForwardTo(endpointId: string) | StoreHere | Unroutable

  /**
   * What node `me` does with a routed message it has not seen: drop it when
   * its hop budget is spent, take it when it is the destination, pass it to
   * the destination when that is a neighbour, to the route's next hop when
   * that hop is not already on the message's path, hold it when the sender
   * asked for store-and-forward and this node offers it, and otherwise fail.
   */
  function DecideRelay(me: string, m: MeshMessage, l: RelayLookup): (o: RelayOutcome)
    requires m.RoutedMessage?
    ensures o == OutOfHops <==> m.ttl <= 0
    ensures o == ReachedDestination <==> m.ttl > 0 && m.finalDestination == me
    ensures o.ForwardTo? ==>
              m.ttl > 0 && m.finalDestination != me &&
              ((l.isNeighbour && l.destinationEndpoint == Some(o.endpointId)) ||
               (l.nextHop.Some? && l.nextHop.value !in m.path && l.nextHopEndpoint == Some(o.endpointId)))
    ensures m.ttl > 0 && m.finalDestination != me && l.isNeighbour && l.destinationEndpoint.Some? ==>
      o == ForwardTo(l.destinationEndpoint.value)
    ensures o == StoreHere ==> m.requiresStoreForward && l.canStoreForward && !o.ForwardTo?
    ensures o == Unroutable ==> m.ttl > 0 && m.finalDestination != me && !(m.requiresStoreForward && l.canStoreForward)
  {
    if m.ttl <= 0 then OutOfHops
    else if m.finalDestination == me then ReachedDestination
    else if l.isNeighbour && l.destinationEndpoint.Some? then ForwardTo(l.destinationEndpoint.value)
    else if l.nextHop.Some? && l.nextHop.value !in m.path && l.nextHopEndpoint.Some? then ForwardTo(l.nextHopEndpoint.value)
    else if m.requiresStoreForward && l.canStoreForward then StoreHere
    else Unroutable
  }

  /** The acknowledgement status a relay outcome reports, and the storing node for STORED. */
  function AckFor(o: RelayOutcome, me: string): (a: (RouteAckStatus, Option<string>))
    ensures a.0 == RouteAckStatus.Stored <==> o == StoreHere
    ensures a.1.Some? <==> o == StoreHere
    ensures a.1.Some? ==> a.1.value == me
    ensures a.0 == RouteAckStatus.Failed <==> o == OutOfHops || o == Unroutable
  {
    match o
    case OutOfHops => (RouteAckStatus.Failed, None)
    case ReachedDestination => (RouteAckStatus.Delivered, None)
    case ForwardTo(_) => (RouteAckStatus.Forwarded, None)
    case StoreHere => (RouteAckStatus.Stored, Some(me))
    case Unroutable => (RouteAckStatus.Failed, None)
  }

  /** The message a relay passes on: one hop fewer, itself appended to the path, re-stamped. */
  function Forward(m: MeshMessage, me: string, now: Int64): (f: MeshMessage)
    requires m.RoutedMessage? && m.ttl > 0
    ensures f.RoutedMessage? && f.messageId == m.messageId && f.finalDestination == m.finalDestination
    ensures f.ttl == m.ttl - 1 && f.path == m.path + [me] && f.payload == m.payload
  {
    m.(ttl := m.ttl - 1, path := m.path + [me], timestamp := now)
  }

  /** The wire form of `Forward`. */
  function ForwardedCopy(m: MeshMessage, me: string, now: Int64): (doc: Json)
    requires m.RoutedMessage? && m.ttl > 0
    ensures doc.JObj?
  {
    CreateRoutedMessage(m.messageId, m.originalSender, m.finalDestination, m.payload, now,
                        m.ttl - 1, m.path + [me], m.requiresStoreForward)
  }

  /** The next node reads back exactly the forwarded message. */
  lemma ForwardedCopyParses(m: MeshMessage, me: string, now: Int64)
    requires m.RoutedMessage? && m.ttl > 0
    ensures MeshProtocol.ParseMessage(ForwardedCopy(m, me, now)) == Some(Forward(m, me, now))
  {
    RoutedMessageRoundTrip(m.messageId, m.originalSender, m.finalDestination, m.payload, now,
                           m.ttl - 1, m.path + [me], m.requiresStoreForward);
  }

  /** A chain of relays `relays` can forward `m` one after the other, each seeing budget left. */
  predicate ForwardsAlong(m: MeshMessage, relays: seq<string>, now: Int64)
    requires m.RoutedMessage?
    decreases |relays|
  {
    relays == [] || (m.ttl > 0 && ForwardsAlong(Forward(m, relays[0], now), relays[1..], now))
  }

  /** The message after the chain `relays` has forwarded it. */
  function Relayed(m: MeshMessage, relays: seq<string>, now: Int64): (f: MeshMessage)
    requires m.RoutedMessage? && ForwardsAlong(m, relays, now)
    ensures f.RoutedMessage? && f.messageId == m.messageId && f.payload == m.payload
    ensures f.path == m.path + relays
    ensures f.ttl == m.ttl - |relays|
    decreases |relays|
  {
    if relays == [] then m
    else
      var f := Relayed(Forward(m, relays[0], now), relays[1..], now);
      assert m.path + [relays[0]] + relays[1..] == m.path + relays;
      f
  }

  /** However the relays are arranged, a message crosses at most `ttl` of them. */
  lemma {:induction false} HopBudgetBoundsRelays(m: MeshMessage, relays: seq<string>, now: Int64)
    requires m.RoutedMessage? && ForwardsAlong(m, relays, now)
    ensures relays == [] || |relays| <= m.ttl
    decreases |relays|
  {
    if relays != [] {
      HopBudgetBoundsRelays(Forward(m, relays[0], now), relays[1..], now);
    }
  }

  // ---------------------------------------------------------------- wire

  /** Chat messages (types 1 to 7) are never taken for mesh messages (types 20 to 25). */
  lemma ChatMessagesAreNotMeshMessages(doc: Json)
    ensures MessageProtocol.ParseMessage(doc).Some? ==> MeshProtocol.ParseMessage(doc).None?
    ensures MeshProtocol.ParseMessage(doc).Some? ==> MessageProtocol.ParseMessage(doc).None?
  {
    if MessageProtocol.ParseMessage(doc).Some? {
      var t := MessageProtocol.ParseMessage(doc).value.TypeCode();
      assert OptInt(doc, "type", -1) == t;
    }
  }
}
