/**
 * The bookkeeping of the transport manager: which endpoints have been
 * discovered and which are connected, the mapping between peer ids (learnt
 * in the handshake) and transport endpoint ids, the advertising and
 * discovery flags and the connection state derived from them.
 *
 * The transport library itself is not modelled: its callbacks are the
 * `On...` methods, its success listeners the `...Succeeded` methods, and a
 * payload handed to it is appended to the log `sent`.
 */
module Nearby {
  import opened Wrappers
  import Json

  /** Status codes of a connection resolution. */
  const STATUS_OK: int := 0
  const STATUS_CONNECTION_REJECTED: int := 8004

  datatype ConnectionState =
    | Idle
    | Advertising
    | Discovering
    | AdvertisingAndDiscovering
    | Connecting(endpointId: string)
    | Connected(endpointId: string)
    | Error(message: string)

  datatype DiscoveredEndpoint = DiscoveredEndpoint(endpointId: string, endpointName: string, serviceId: string)

  datatype ConnectionRequest = ConnectionRequest(
    endpointId: string, endpointName: string, authenticationDigits: string, isIncomingConnection: bool)

  /** One payload handed to the transport for an endpoint. */
  datatype Outgoing = Outgoing(endpointId: string, payload: Json.Json)

  /** The state shown when nothing is in progress, from the two flags alone. */
  function DerivedState(isAdvertising: bool, isDiscovering: bool): (s: ConnectionState)
  {
    if isAdvertising && isDiscovering then AdvertisingAndDiscovering
    else if isAdvertising then Advertising
    else if isDiscovering then Discovering
    else Idle
  }

  /** The derived state is one of the four idle-or-active states, and tells both flags back. */
  lemma DerivedStateReflectsFlags(isAdvertising: bool, isDiscovering: bool)
    ensures var s := DerivedState(isAdvertising, isDiscovering);
            !s.Connecting? && !s.Connected? && !s.Error? &&
            ((s == Advertising || s == AdvertisingAndDiscovering) <==> isAdvertising) &&
            ((s == Discovering || s == AdvertisingAndDiscovering) <==> isDiscovering) &&
            (s == Idle <==> !isAdvertising && !isDiscovering)
  {
  }

  /** The discovered list without any entry for `endpointId`, order kept. */
  function WithoutEndpoint(s: seq<DiscoveredEndpoint>, endpointId: string): (r: seq<DiscoveredEndpoint>)
    ensures forall e :: e in r <==> e in s && e.endpointId != endpointId
    ensures |r| <= |s|
    ensures (forall e :: e in s ==> e.endpointId != endpointId) ==> r == s
  {
    if s == [] then []
    else if s[0].endpointId == endpointId then WithoutEndpoint(s[1..], endpointId)
    else [s[0]] + WithoutEndpoint(s[1..], endpointId)
  }

  class NearbyManager {
    var connectionState: ConnectionState
    var discoveredEndpoints: seq<DiscoveredEndpoint>
    var connectedEndpoints: set<string>
    var isAdvertising: bool
    var isDiscovering: bool
    var peerToEndpoint: map<string, string>
    var endpointToPeer: map<string, string>
    /** Connection requests and disconnections announced to listeners, oldest first. */
    var connectionRequests: seq<ConnectionRequest>
    var disconnectionEvents: seq<string>
    /** Payloads handed to the transport, oldest first. */
    var sent: seq<Outgoing>

    constructor()
      ensures connectionState == Idle && discoveredEndpoints == [] && connectedEndpoints == {}
      ensures !isAdvertising && !isDiscovering
      ensures peerToEndpoint == map[] && endpointToPeer == map[]
      ensures connectionRequests == [] && disconnectionEvents == [] && sent == []
    {
      connectionState := Idle;
      discoveredEndpoints := [];
      connectedEndpoints := {};
      isAdvertising := false;
      isDiscovering := false;
      peerToEndpoint := map[];
      endpointToPeer := map[];
      connectionRequests := [];
      disconnectionEvents := [];
      sent := [];
    }

    // ------------------------------------------------- transport callbacks

    /** A nearby endpoint was found: it is appended, even if already listed. */
    method OnEndpointFound(endpointId: string, endpointName: string, serviceId: string)
      modifies this`discoveredEndpoints
      ensures discoveredEndpoints == old(discoveredEndpoints) + [DiscoveredEndpoint(endpointId, endpointName, serviceId)]
      ensures connectedEndpoints == old(connectedEndpoints) && connectionState == old(connectionState)
      ensures peerToEndpoint == old(peerToEndpoint) && endpointToPeer == old(endpointToPeer) && sent == old(sent)
    {
      discoveredEndpoints := discoveredEndpoints + [DiscoveredEndpoint(endpointId, endpointName, serviceId)];
    }

    /** An endpoint went out of range: every entry with that id is dropped. */
    method OnEndpointLost(endpointId: string)
      modifies this`discoveredEndpoints
      ensures discoveredEndpoints == WithoutEndpoint(old(discoveredEndpoints), endpointId)
      ensures connectedEndpoints == old(connectedEndpoints) && connectionState == old(connectionState)
      ensures peerToEndpoint == old(peerToEndpoint) && endpointToPeer == old(endpointToPeer) && sent == old(sent)
    {
      discoveredEndpoints := WithoutEndpoint(discoveredEndpoints, endpointId);
    }

    method OnConnectionInitiated(endpointId: string, endpointName: string, authenticationDigits: string,
                                 isIncomingConnection: bool)
      modifies this`connectionState, this`connectionRequests
      ensures connectionState == Connecting(endpointId)
      ensures connectionRequests == old(connectionRequests) +
                [ConnectionRequest(endpointId, endpointName, authenticationDigits, isIncomingConnection)]
      ensures discoveredEndpoints == old(discoveredEndpoints) && connectedEndpoints == old(connectedEndpoints)
      ensures peerToEndpoint == old(peerToEndpoint) && endpointToPeer == old(endpointToPeer) && sent == old(sent)
    {
      connectionState := Connecting(endpointId);
      connectionRequests := connectionRequests +
        [ConnectionRequest(endpointId, endpointName, authenticationDigits, isIncomingConnection)];
    }

    /**
     * A connection attempt resolved. On success the endpoint becomes
     * connected and leaves the discovered list. Whatever the outcome, the
     * `Connected`/`Error` state set first is at once replaced by the state
     * derived from the flags.
     */
    method OnConnectionResult(endpointId: string, statusCode: int, statusMessage: string)
      modifies this`connectedEndpoints, this`discoveredEndpoints, this`connectionState
      ensures statusCode == STATUS_OK ==> connectedEndpoints == old(connectedEndpoints) + {endpointId}
      ensures statusCode == STATUS_OK ==> discoveredEndpoints == WithoutEndpoint(old(discoveredEndpoints), endpointId)
      ensures statusCode != STATUS_OK ==> connectedEndpoints == old(connectedEndpoints)
      ensures statusCode != STATUS_OK ==> discoveredEndpoints == old(discoveredEndpoints)
      ensures connectionState == DerivedState(isAdvertising, isDiscovering)
      ensures isAdvertising == old(isAdvertising) && isDiscovering == old(isDiscovering)
      ensures peerToEndpoint == old(peerToEndpoint) && endpointToPeer == old(endpointToPeer) && sent == old(sent)
    {
      if statusCode == STATUS_OK {
        connectedEndpoints := connectedEndpoints + {endpointId};
        discoveredEndpoints := WithoutEndpoint(discoveredEndpoints, endpointId);
        connectionState := Connected(endpointId);
      } else if statusCode == STATUS_CONNECTION_REJECTED {
        connectionState := Error("Connection rejected");
      } else {
        connectionState := Error("Connection failed: " + statusMessage);
      }
      UpdateConnectionState();
    }

    method OnDisconnected(endpointId: string)
      modifies this`connectedEndpoints, this`disconnectionEvents, this`connectionState
      ensures connectedEndpoints == old(connectedEndpoints) - {endpointId}
      ensures disconnectionEvents == old(disconnectionEvents) + [endpointId]
      ensures connectionState == DerivedState(isAdvertising, isDiscovering)
      ensures discoveredEndpoints == old(discoveredEndpoints)
      ensures isAdvertising == old(isAdvertising) && isDiscovering == old(isDiscovering)
      ensures peerToEndpoint == old(peerToEndpoint) && endpointToPeer == old(endpointToPeer) && sent == old(sent)
    {
      connectedEndpoints := connectedEndpoints - {endpointId};
      disconnectionEvents := disconnectionEvents + [endpointId];
      UpdateConnectionState();
    }

    // ------------------------------------------------ advertising, discovery

    /** The success listener of `startAdvertising`. */
    method AdvertisingStarted()
      modifies this`isAdvertising, this`connectionState
      ensures isAdvertising && isDiscovering == old(isDiscovering)
      ensures connectionState == DerivedState(true, isDiscovering)
      ensures connectedEndpoints == old(connectedEndpoints) && discoveredEndpoints == old(discoveredEndpoints)
      ensures peerToEndpoint == old(peerToEndpoint) && endpointToPeer == old(endpointToPeer) && sent == old(sent)
    {
      isAdvertising := true;
      UpdateConnectionState();
    }

    method StopAdvertising()
      modifies this`isAdvertising, this`connectionState
      ensures !isAdvertising && isDiscovering == old(isDiscovering)
      ensures connectionState == DerivedState(false, isDiscovering)
      ensures connectedEndpoints == old(connectedEndpoints) && discoveredEndpoints == old(discoveredEndpoints)
      ensures peerToEndpoint == old(peerToEndpoint) && endpointToPeer == old(endpointToPeer) && sent == old(sent)
    {
      isAdvertising := false;
      UpdateConnectionState();
    }

    /** The success listener of `startDiscovery`. */
    method DiscoveryStarted()
      modifies this`isDiscovering, this`connectionState
      ensures isDiscovering && isAdvertising == old(isAdvertising)
      ensures connectionState == DerivedState(isAdvertising, true)
      ensures connectedEndpoints == old(connectedEndpoints) && discoveredEndpoints == old(discoveredEndpoints)
      ensures peerToEndpoint == old(peerToEndpoint) && endpointToPeer == old(endpointToPeer) && sent == old(sent)
    {
      isDiscovering := true;
      UpdateConnectionState();
    }

    /** Stopping discovery forgets every discovered endpoint. */
    method StopDiscovery()
      modifies this`isDiscovering, this`discoveredEndpoints, this`connectionState
      ensures !isDiscovering && isAdvertising == old(isAdvertising)
      ensures discoveredEndpoints == []
      ensures connectionState == DerivedState(isAdvertising, false)
      ensures connectedEndpoints == old(connectedEndpoints)
      ensures peerToEndpoint == old(peerToEndpoint) && endpointToPeer == old(endpointToPeer) && sent == old(sent)
    {
      isDiscovering := false;
      discoveredEndpoints := [];
      UpdateConnectionState();
    }

    /** Leaves the connection state as it is. */
    method DisconnectFromEndpoint(endpointId: string)
      modifies this`connectedEndpoints
      ensures connectedEndpoints == old(connectedEndpoints) - {endpointId}
      ensures connectionState == old(connectionState) && discoveredEndpoints == old(discoveredEndpoints)
      ensures peerToEndpoint == old(peerToEndpoint) && endpointToPeer == old(endpointToPeer) && sent == old(sent)
    {
      connectedEndpoints := connectedEndpoints - {endpointId};
    }

    method StopAllEndpoints()
      modifies this`connectedEndpoints, this`discoveredEndpoints, this`peerToEndpoint, this`endpointToPeer,
               this`isAdvertising, this`isDiscovering, this`connectionState
      ensures connectedEndpoints == {} && discoveredEndpoints == []
      ensures peerToEndpoint == map[] && endpointToPeer == map[]
      ensures !isAdvertising && !isDiscovering && connectionState == Idle
      ensures sent == old(sent)
    {
      connectedEndpoints := {};
      discoveredEndpoints := [];
      peerToEndpoint := map[];
      endpointToPeer := map[];
      isAdvertising := false;
      isDiscovering := false;
      connectionState := Idle;
    }

    method UpdateConnectionState()
      modifies this`connectionState
      ensures connectionState == DerivedState(isAdvertising, isDiscovering)
      ensures isAdvertising == old(isAdvertising) && isDiscovering == old(isDiscovering)
      ensures connectedEndpoints == old(connectedEndpoints) && discoveredEndpoints == old(discoveredEndpoints)
      ensures peerToEndpoint == old(peerToEndpoint) && endpointToPeer == old(endpointToPeer)
      ensures disconnectionEvents == old(disconnectionEvents) && sent == old(sent)
    {
      connectionState := DerivedState(isAdvertising, isDiscovering);
    }

    // ----------------------------------------------- peer <-> endpoint map

    /** Record both directions of the mapping; earlier entries for other keys stay. */
    method RegisterPeerEndpoint(peerId: string, endpointId: string)
      modifies this`peerToEndpoint, this`endpointToPeer
      ensures peerToEndpoint == old(peerToEndpoint)[peerId := endpointId]
      ensures endpointToPeer == old(endpointToPeer)[endpointId := peerId]
      ensures GetEndpointIdForPeer(peerId) == Some(endpointId) && GetPeerIdForEndpoint(endpointId) == Some(peerId)
      ensures connectedEndpoints == old(connectedEndpoints) && sent == old(sent)
    {
      peerToEndpoint := peerToEndpoint[peerId := endpointId];
      endpointToPeer := endpointToPeer[endpointId := peerId];
    }

    /**
     * Forget `peerId` and the reverse entry of the endpoint it mapped to
     * (even if that endpoint has since been registered for another peer).
     */
    method UnregisterPeerEndpoint(peerId: string)
      modifies this`peerToEndpoint, this`endpointToPeer
      ensures peerToEndpoint == old(peerToEndpoint) - {peerId}
      ensures peerId in old(peerToEndpoint) ==> endpointToPeer == old(endpointToPeer) - {old(peerToEndpoint)[peerId]}
      ensures peerId !in old(peerToEndpoint) ==> endpointToPeer == old(endpointToPeer)
      ensures GetEndpointIdForPeer(peerId).None?
      ensures connectedEndpoints == old(connectedEndpoints) && sent == old(sent)
    {
      if peerId in peerToEndpoint {
        var endpointId := peerToEndpoint[peerId];
        peerToEndpoint := peerToEndpoint - {peerId};
        endpointToPeer := endpointToPeer - {endpointId};
      }
    }

    function GetEndpointIdForPeer(peerId: string): (r: Option<string>)
      reads this`peerToEndpoint
      ensures r.Some? <==> peerId in peerToEndpoint
      ensures r.Some? ==> r.value == peerToEndpoint[peerId]
    {
      if peerId in peerToEndpoint then Some(peerToEndpoint[peerId]) else None
    }

    function GetPeerIdForEndpoint(endpointId: string): (r: Option<string>)
      reads this`endpointToPeer
      ensures r.Some? <==> endpointId in endpointToPeer
      ensures r.Some? ==> r.value == endpointToPeer[endpointId]
    {
      if endpointId in endpointToPeer then Some(endpointToPeer[endpointId]) else None
    }

    /** A peer is connected iff it maps to an endpoint that is connected. */
    function IsConnectedToPeer(peerId: string): (r: bool)
      reads this`peerToEndpoint, this`connectedEndpoints
      ensures r <==> GetEndpointIdForPeer(peerId).Some? && GetEndpointIdForPeer(peerId).value in connectedEndpoints
    {
      peerId in peerToEndpoint && peerToEndpoint[peerId] in connectedEndpoints
    }

    /** Hand a payload to the transport; the transfer outcome is not modelled. */
    method SendPayload(endpointId: string, payload: Json.Json)
      modifies this`sent
      ensures sent == old(sent) + [Outgoing(endpointId, payload)]
      ensures peerToEndpoint == old(peerToEndpoint) && endpointToPeer == old(endpointToPeer)
      ensures connectedEndpoints == old(connectedEndpoints) && discoveredEndpoints == old(discoveredEndpoints)
      ensures connectionState == old(connectionState)
      ensures isAdvertising == old(isAdvertising) && isDiscovering == old(isDiscovering)
      ensures connectionRequests == old(connectionRequests) && disconnectionEvents == old(disconnectionEvents)
    {
      sent := sent + [Outgoing(endpointId, payload)];
    }
  }
}
