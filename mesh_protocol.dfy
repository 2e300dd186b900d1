/**
 * The mesh wire codec: six message kinds with type codes 20..25, each a
 * JSON object, plus the node-capability record they carry.
 *
 * Builders produce the JSON value that the source serialises; `ParseMessage`
 * reads a JSON value back. The clock reading that every builder stamps into
 * `timestamp` is the parameter `now`.
 */
module MeshProtocol {
  import opened Wrappers
  import opened JavaInt
  import opened Json
  import Base64

  const TYPE_TOPOLOGY_ANNOUNCE: int := 20
  const TYPE_TOPOLOGY_REQUEST: int := 21
  const TYPE_ROUTED_MESSAGE: int := 22
  const TYPE_ROUTE_ACK: int := 23
  const TYPE_STORE_CONFIRM: int := 24
  const TYPE_NODE_CAPABILITIES: int := 25

  /** How often a node is online; the declaration order is the ranking order. */
  datatype UptimeClass = AlwaysOn | Frequent | Occasional {
    function Ordinal(): (r: nat)
      ensures r < 3
    {
      match this
      case AlwaysOn => 0
      case Frequent => 1
      case Occasional => 2
    }

    function Name(): string
    {
      match this
      case AlwaysOn => "ALWAYS_ON"
      case Frequent => "FREQUENT"
      case Occasional => "OCCASIONAL"
    }
  }

  /** `UptimeClass.valueOf(name)`: None where the JVM throws. */
  function UptimeFromName(name: string): (r: Option<UptimeClass>)
    ensures r.Some? ==> r.value.Name() == name
    ensures forall u: UptimeClass :: u.Name() == name ==> r == Some(u)
  {
    if name == "ALWAYS_ON" then Some(AlwaysOn)
    else if name == "FREQUENT" then Some(Frequent)
    else if name == "OCCASIONAL" then Some(Occasional)
    else None
  }

  /** Link quality; the declaration order is the ranking order. */
  datatype ConnectionQuality = High | Medium | Low {
    function Ordinal(): (r: nat)
      ensures r < 3
    {
      match this
      case High => 0
      case Medium => 1
      case Low => 2
    }

    function Name(): string
    {
      match this
      case High => "HIGH"
      case Medium => "MEDIUM"
      case Low => "LOW"
    }
  }

  function QualityFromName(name: string): (r: Option<ConnectionQuality>)
    ensures r.Some? ==> r.value.Name() == name
    ensures forall q: ConnectionQuality :: q.Name() == name ==> r == Some(q)
  {
    if name == "HIGH" then Some(High)
    else if name == "MEDIUM" then Some(Medium)
    else if name == "LOW" then Some(Low)
    else None
  }

  /** Outcome reported one hop back for a routed message. */
  datatype RouteAckStatus = Delivered | Stored | Forwarded | Failed {
    function Name(): string
    {
      match this
      case Delivered => "DELIVERED"
      case Stored => "STORED"
      case Forwarded => "FORWARDED"
      case Failed => "FAILED"
    }
  }

  function AckStatusFromName(name: string): (r: Option<RouteAckStatus>)
    ensures r.Some? ==> r.value.Name() == name
    ensures forall st: RouteAckStatus :: st.Name() == name ==> r == Some(st)
  {
    if name == "DELIVERED" then Some(Delivered)
    else if name == "STORED" then Some(Stored)
    else if name == "FORWARDED" then Some(Forwarded)
    else if name == "FAILED" then Some(Failed)
    else None
  }

  /** What a node currently offers to the mesh. */
  datatype NodeCapabilities = NodeCapabilities(
    canForward: bool,
    canStoreForward: bool,
    availableStorageMB: Int32,
    messageRetentionHours: Int32,
    uptimeClass: UptimeClass,
    connectionQuality: ConnectionQuality)

  /** `NodeCapabilities()`: every field at its declared default. */
  const DefaultCapabilities: NodeCapabilities :=
    NodeCapabilities(true, true, 50, 168, Frequent, Medium)

  function CapabilitiesToJson(c: NodeCapabilities): (r: Json)
    ensures r.JObj?
  {
    JObj(map[
      "canForward" := JBool(c.canForward),
      "canStoreForward" := JBool(c.canStoreForward),
      "availableStorageMB" := JNum(c.availableStorageMB),
      "messageRetentionHours" := JNum(c.messageRetentionHours),
      "uptimeClass" := JStr(c.uptimeClass.Name()),
      "connectionQuality" := JStr(c.connectionQuality.Name())])
  }

  /**
   * `NodeCapabilities.fromJson`: never fails; a missing or unreadable field
   * takes its default, an unknown enum name falls back to FREQUENT / MEDIUM.
   */
  function CapabilitiesFromJson(o: Json): (r: NodeCapabilities)
    ensures Member(o, "canForward").None? ==> r.canForward
    ensures Member(o, "canStoreForward").None? ==> r.canStoreForward
    ensures Member(o, "availableStorageMB").None? ==> r.availableStorageMB == 50
    ensures Member(o, "messageRetentionHours").None? ==> r.messageRetentionHours == 168
    ensures UptimeFromName(OptString(o, "uptimeClass", Some("FREQUENT")).value).None? ==> r.uptimeClass == Frequent
    ensures QualityFromName(OptString(o, "connectionQuality", Some("MEDIUM")).value).None? ==> r.connectionQuality == Medium
  {
    NodeCapabilities(
      OptBoolean(o, "canForward", true),
      OptBoolean(o, "canStoreForward", true),
      OptInt(o, "availableStorageMB", 50),
      OptInt(o, "messageRetentionHours", 168),
      UptimeFromName(OptString(o, "uptimeClass", Some("FREQUENT")).value).GetOr(Frequent),
      QualityFromName(OptString(o, "connectionQuality", Some("MEDIUM")).value).GetOr(Medium))
  }

  /** A decoded mesh message (`ParsedMeshMessage`). */
  datatype MeshMessage =
    | TopologyAnnounce(nodeId: string, displayName: string, connectedPeers: seq<string>,
                       capabilities: NodeCapabilities, timestamp: Int64, ttl: Int32)
    | TopologyRequest(nodeId: string, timestamp: Int64)
    | RoutedMessage(messageId: string, originalSender: string, finalDestination: string,
                    payload: seq<Byte>, timestamp: Int64, ttl: Int32, path: seq<string>,
                    requiresStoreForward: bool)
    | RouteAck(messageId: string, originalSender: string, status: RouteAckStatus,
               storedBy: Option<string>, timestamp: Int64)
    | StoreConfirm(messageId: string, storer: string, finalDestination: string,
                   expiresAt: Int64, timestamp: Int64)
    | CapabilitiesUpdate(nodeId: string, capabilities: NodeCapabilities, timestamp: Int64)
  {
    /** The wire discriminator of this kind. */
    function TypeCode(): (t: int)
      ensures 20 <= t <= 25
    {
      match this
      case TopologyAnnounce(_, _, _, _, _, _) => TYPE_TOPOLOGY_ANNOUNCE
      case TopologyRequest(_, _) => TYPE_TOPOLOGY_REQUEST
      case RoutedMessage(_, _, _, _, _, _, _, _) => TYPE_ROUTED_MESSAGE
      case RouteAck(_, _, _, _, _) => TYPE_ROUTE_ACK
      case StoreConfirm(_, _, _, _, _) => TYPE_STORE_CONFIRM
      case CapabilitiesUpdate(_, _, _) => TYPE_NODE_CAPABILITIES
    }
  }

  /** The members a message of type `t` cannot be decoded without. */
  function RequiredMembers(t: int): set<string>
  {
    if t == TYPE_TOPOLOGY_ANNOUNCE then {"connectedPeers", "nodeId", "displayName", "capabilities", "timestamp", "ttl"}
    else if t == TYPE_TOPOLOGY_REQUEST then {"nodeId", "timestamp"}
    else if t == TYPE_ROUTED_MESSAGE then {"path", "messageId", "originalSender", "finalDestination", "payload", "timestamp", "ttl"}
    else if t == TYPE_ROUTE_ACK then {"messageId", "originalSender", "status", "timestamp"}
    else if t == TYPE_STORE_CONFIRM then {"messageId", "storedBy", "finalDestination", "expiresAt", "timestamp"}
    else if t == TYPE_NODE_CAPABILITIES then {"nodeId", "capabilities", "timestamp"}
    else {}
  }

  // ---------------------------------------------------------------- builders

  function CreateTopologyAnnounce(nodeId: string, displayName: string, connectedPeers: seq<string>,
                                  capabilities: NodeCapabilities, now: Int64, ttl: Int32 := 3): (r: Json)
    ensures r.JObj? && r.members.Keys == RequiredMembers(TYPE_TOPOLOGY_ANNOUNCE) + {"type"}
  {
    JObj(map[
      "type" := JNum(TYPE_TOPOLOGY_ANNOUNCE),
      "nodeId" := JStr(nodeId),
      "displayName" := JStr(displayName),
      "connectedPeers" := StringArray(connectedPeers),
      "capabilities" := CapabilitiesToJson(capabilities),
      "timestamp" := JNum(now),
      "ttl" := JNum(ttl)])
  }

  function CreateTopologyRequest(nodeId: string, now: Int64): (r: Json)
    ensures r.JObj? && r.members.Keys == RequiredMembers(TYPE_TOPOLOGY_REQUEST) + {"type"}
  {
    JObj(map["type" := JNum(TYPE_TOPOLOGY_REQUEST), "nodeId" := JStr(nodeId), "timestamp" := JNum(now)])
  }

  function CreateRoutedMessage(messageId: string, originalSender: string, finalDestination: string,
                               payload: seq<Byte>, now: Int64, ttl: Int32 := 10,
                               path: seq<string> := [], requiresStoreForward: bool := false): (r: Json)
    ensures r.JObj? && r.members.Keys == RequiredMembers(TYPE_ROUTED_MESSAGE) + {"type", "requiresStoreForward"}
  {
    JObj(map[
      "type" := JNum(TYPE_ROUTED_MESSAGE),
      "messageId" := JStr(messageId),
      "originalSender" := JStr(originalSender),
      "finalDestination" := JStr(finalDestination),
      "payload" := JStr(Base64.Encode(payload)),
      "timestamp" := JNum(now),
      "ttl" := JNum(ttl),
      "path" := StringArray(path),
      "requiresStoreForward" := JBool(requiresStoreForward)])
  }

  /** The route ack; `storedBy` is left out of the object when it is null. */
  function CreateRouteAck(messageId: string, originalSender: string, status: RouteAckStatus,
                          now: Int64, storedBy: Option<string> := None): (r: Json)
    ensures r.JObj?
    ensures r.members.Keys == RequiredMembers(TYPE_ROUTE_ACK) + {"type"} + (if storedBy.Some? then {"storedBy"} else {})
  {
    var base := map[
      "type" := JNum(TYPE_ROUTE_ACK),
      "messageId" := JStr(messageId),
      "originalSender" := JStr(originalSender),
      "status" := JStr(status.Name()),
      "timestamp" := JNum(now)];
    JObj(if storedBy.Some? then base["storedBy" := JStr(storedBy.value)] else base)
  }

  function CreateStoreConfirm(messageId: string, storedBy: string, finalDestination: string,
                              expiresAt: Int64, now: Int64): (r: Json)
    ensures r.JObj? && r.members.Keys == RequiredMembers(TYPE_STORE_CONFIRM) + {"type"}
  {
    JObj(map[
      "type" := JNum(TYPE_STORE_CONFIRM),
      "messageId" := JStr(messageId),
      "storedBy" := JStr(storedBy),
      "finalDestination" := JStr(finalDestination),
      "expiresAt" := JNum(expiresAt),
      "timestamp" := JNum(now)])
  }

  function CreateCapabilitiesUpdate(nodeId: string, capabilities: NodeCapabilities, now: Int64): (r: Json)
    ensures r.JObj? && r.members.Keys == RequiredMembers(TYPE_NODE_CAPABILITIES) + {"type"}
  {
    JObj(map[
      "type" := JNum(TYPE_NODE_CAPABILITIES),
      "nodeId" := JStr(nodeId),
      "capabilities" := CapabilitiesToJson(capabilities),
      "timestamp" := JNum(now)])
  }

  // ------------------------------------------------------------------ parser

  /**
   * `parseMessage`: None for anything that is not an object, for a `type`
   * other than 20..25 (a missing one reads as -1), and wherever the source
   * would throw (a missing or ill-typed required member, an unknown status
   * name, a payload that is not Base64).
   */
  function ParseMessage(doc: Json): (r: Option<MeshMessage>)
    ensures r.Some? ==> doc.JObj? && r.value.TypeCode() == OptInt(doc, "type", -1)
    ensures r.Some? ==> RequiredMembers(r.value.TypeCode()) <= doc.members.Keys
    ensures Member(doc, "type").None? ==> r.None?
  {
    if !doc.JObj? then None
    else
      var t := OptInt(doc, "type", -1);
      if t == TYPE_TOPOLOGY_ANNOUNCE then ParseTopologyAnnounce(doc)
      else if t == TYPE_TOPOLOGY_REQUEST then ParseTopologyRequest(doc)
      else if t == TYPE_ROUTED_MESSAGE then ParseRoutedMessage(doc)
      else if t == TYPE_ROUTE_ACK then ParseRouteAck(doc)
      else if t == TYPE_STORE_CONFIRM then ParseStoreConfirm(doc)
      else if t == TYPE_NODE_CAPABILITIES then ParseCapabilitiesUpdate(doc)
      else None
  }

  function ParseTopologyAnnounce(doc: Json): (r: Option<MeshMessage>)
    ensures r.Some? ==> r.value.TopologyAnnounce? && doc.JObj? && RequiredMembers(TYPE_TOPOLOGY_ANNOUNCE) <= doc.members.Keys
  {
    var items :- GetArray(doc, "connectedPeers");
    var peers :- ArrayStrings(items);
    var nodeId :- GetString(doc, "nodeId");
    var name :- GetString(doc, "displayName");
    var caps :- GetObject(doc, "capabilities");
    var ts :- GetLong(doc, "timestamp");
    var ttl :- GetInt(doc, "ttl");
    Some(TopologyAnnounce(nodeId, name, peers, CapabilitiesFromJson(caps), ts, ttl))
  }

  function ParseTopologyRequest(doc: Json): (r: Option<MeshMessage>)
    ensures r.Some? ==> r.value.TopologyRequest? && doc.JObj? && RequiredMembers(TYPE_TOPOLOGY_REQUEST) <= doc.members.Keys
  {
    var nodeId :- GetString(doc, "nodeId");
    var ts :- GetLong(doc, "timestamp");
    Some(TopologyRequest(nodeId, ts))
  }

  function ParseRoutedMessage(doc: Json): (r: Option<MeshMessage>)
    ensures r.Some? ==> r.value.RoutedMessage? && doc.JObj? && RequiredMembers(TYPE_ROUTED_MESSAGE) <= doc.members.Keys
  {
    var items :- GetArray(doc, "path");
    var path :- ArrayStrings(items);
    var id :- GetString(doc, "messageId");
    var sender :- GetString(doc, "originalSender");
    var dest :- GetString(doc, "finalDestination");
    var text :- GetString(doc, "payload");
    var payload :- Base64.Decode(text);
    var ts :- GetLong(doc, "timestamp");
    var ttl :- GetInt(doc, "ttl");
    Some(RoutedMessage(id, sender, dest, payload, ts, ttl, path, OptBoolean(doc, "requiresStoreForward", false)))
  }

  function ParseRouteAck(doc: Json): (r: Option<MeshMessage>)
    ensures r.Some? ==> r.value.RouteAck? && doc.JObj? && RequiredMembers(TYPE_ROUTE_ACK) <= doc.members.Keys
  {
    var id :- GetString(doc, "messageId");
    var sender :- GetString(doc, "originalSender");
    var name :- GetString(doc, "status");
    var status :- AckStatusFromName(name);
    var ts :- GetLong(doc, "timestamp");
    Some(RouteAck(id, sender, status, OptString(doc, "storedBy", None), ts))
  }

  function ParseStoreConfirm(doc: Json): (r: Option<MeshMessage>)
    ensures r.Some? ==> r.value.StoreConfirm? && doc.JObj? && RequiredMembers(TYPE_STORE_CONFIRM) <= doc.members.Keys
  {
    var id :- GetString(doc, "messageId");
    var storer :- GetString(doc, "storedBy");
    var dest :- GetString(doc, "finalDestination");
    var expiresAt :- GetLong(doc, "expiresAt");
    var ts :- GetLong(doc, "timestamp");
    Some(StoreConfirm(id, storer, dest, expiresAt, ts))
  }

  function ParseCapabilitiesUpdate(doc: Json): (r: Option<MeshMessage>)
    ensures r.Some? ==> r.value.CapabilitiesUpdate? && doc.JObj? && RequiredMembers(TYPE_NODE_CAPABILITIES) <= doc.members.Keys
  {
    var nodeId :- GetString(doc, "nodeId");
    var caps :- GetObject(doc, "capabilities");
    var ts :- GetLong(doc, "timestamp");
    Some(CapabilitiesUpdate(nodeId, CapabilitiesFromJson(caps), ts))
  }

  // ---------------------------------------------------------------- lemmas

  /** `fromJson(c.toJson()) == c`. */
  lemma CapabilitiesRoundTrip(c: NodeCapabilities)
    ensures CapabilitiesFromJson(CapabilitiesToJson(c)) == c
  {
    CapabilitiesFields(c);
    assert UptimeFromName(c.uptimeClass.Name()) == Some(c.uptimeClass);
    assert QualityFromName(c.connectionQuality.Name()) == Some(c.connectionQuality);
  }

  lemma CapabilitiesFields(c: NodeCapabilities)
    ensures var o := CapabilitiesToJson(c);
      OptBoolean(o, "canForward", true) == c.canForward &&
      OptBoolean(o, "canStoreForward", true) == c.canStoreForward &&
      OptInt(o, "availableStorageMB", 50) == c.availableStorageMB &&
      OptInt(o, "messageRetentionHours", 168) == c.messageRetentionHours &&
      OptString(o, "uptimeClass", Some("FREQUENT")) == Some(c.uptimeClass.Name()) &&
      OptString(o, "connectionQuality", Some("MEDIUM")) == Some(c.connectionQuality.Name())
  {
  }

  /** An empty object decodes to the declared defaults. */
  lemma CapabilitiesDefaults()
    ensures CapabilitiesFromJson(JObj(map[])) == DefaultCapabilities
  {
  }

  lemma TopologyAnnounceRoundTrip(nodeId: string, displayName: string, peers: seq<string>,
                                  caps: NodeCapabilities, now: Int64, ttl: Int32)
    ensures ParseMessage(CreateTopologyAnnounce(nodeId, displayName, peers, caps, now, ttl))
         == Some(TopologyAnnounce(nodeId, displayName, peers, caps, now, ttl))
  {
    var doc := CreateTopologyAnnounce(nodeId, displayName, peers, caps, now, ttl);
    TopologyAnnounceFields(nodeId, displayName, peers, caps, now, ttl);
    ArrayStringsRoundTrip(peers);
    CapabilitiesRoundTrip(caps);
    assert ParseTopologyAnnounce(doc) == Some(TopologyAnnounce(nodeId, displayName, peers, caps, now, ttl));
  }

  lemma TopologyAnnounceFields(nodeId: string, displayName: string, peers: seq<string>,
                               caps: NodeCapabilities, now: Int64, ttl: Int32)
    ensures var doc := CreateTopologyAnnounce(nodeId, displayName, peers, caps, now, ttl);
      OptInt(doc, "type", -1) == TYPE_TOPOLOGY_ANNOUNCE &&
      GetArray(doc, "connectedPeers") == Some(StringArray(peers).items) &&
      GetString(doc, "nodeId") == Some(nodeId) &&
      GetString(doc, "displayName") == Some(displayName) &&
      GetObject(doc, "capabilities") == Some(CapabilitiesToJson(caps)) &&
      GetLong(doc, "timestamp") == Some(now) &&
      GetInt(doc, "ttl") == Some(ttl)
  {
  }

  lemma TopologyRequestRoundTrip(nodeId: string, now: Int64)
    ensures ParseMessage(CreateTopologyRequest(nodeId, now)) == Some(TopologyRequest(nodeId, now))
  {
  }

  lemma RoutedMessageRoundTrip(id: string, sender: string, dest: string, payload: seq<Byte>,
                               now: Int64, ttl: Int32, path: seq<string>, storeForward: bool)
    ensures ParseMessage(CreateRoutedMessage(id, sender, dest, payload, now, ttl, path, storeForward))
         == Some(RoutedMessage(id, sender, dest, payload, now, ttl, path, storeForward))
  {
    var doc := CreateRoutedMessage(id, sender, dest, payload, now, ttl, path, storeForward);
    RoutedMessageFields(id, sender, dest, payload, now, ttl, path, storeForward);
    ArrayStringsRoundTrip(path);
    Base64.RoundTrip(payload);
    assert ParseRoutedMessage(doc) == Some(RoutedMessage(id, sender, dest, payload, now, ttl, path, storeForward));
  }

  lemma RoutedMessageFields(id: string, sender: string, dest: string, payload: seq<Byte>,
                            now: Int64, ttl: Int32, path: seq<string>, storeForward: bool)
    ensures var doc := CreateRoutedMessage(id, sender, dest, payload, now, ttl, path, storeForward);
      OptInt(doc, "type", -1) == TYPE_ROUTED_MESSAGE &&
      GetArray(doc, "path") == Some(StringArray(path).items) &&
      GetString(doc, "messageId") == Some(id) &&
      GetString(doc, "originalSender") == Some(sender) &&
      GetString(doc, "finalDestination") == Some(dest) &&
      GetString(doc, "payload") == Some(Base64.Encode(payload)) &&
      GetLong(doc, "timestamp") == Some(now) &&
      GetInt(doc, "ttl") == Some(ttl) &&
      OptBoolean(doc, "requiresStoreForward", false) == storeForward
  {
  }

  lemma RouteAckRoundTrip(id: string, sender: string, status: RouteAckStatus, now: Int64, storedBy: Option<string>)
    ensures ParseMessage(CreateRouteAck(id, sender, status, now, storedBy))
         == Some(RouteAck(id, sender, status, storedBy, now))
  {
    var doc := CreateRouteAck(id, sender, status, now, storedBy);
    assert GetString(doc, "status") == Some(status.Name());
  }

  lemma StoreConfirmRoundTrip(id: string, storedBy: string, dest: string, expiresAt: Int64, now: Int64)
    ensures ParseMessage(CreateStoreConfirm(id, storedBy, dest, expiresAt, now))
         == Some(StoreConfirm(id, storedBy, dest, expiresAt, now))
  {
  }

  lemma CapabilitiesUpdateRoundTrip(nodeId: string, caps: NodeCapabilities, now: Int64)
    ensures ParseMessage(CreateCapabilitiesUpdate(nodeId, caps, now)) == Some(CapabilitiesUpdate(nodeId, caps, now))
  {
    var doc := CreateCapabilitiesUpdate(nodeId, caps, now);
    CapabilitiesUpdateFields(nodeId, caps, now);
    CapabilitiesRoundTrip(caps);
    assert ParseCapabilitiesUpdate(doc) == Some(CapabilitiesUpdate(nodeId, caps, now));
  }

  lemma CapabilitiesUpdateFields(nodeId: string, caps: NodeCapabilities, now: Int64)
    ensures var doc := CreateCapabilitiesUpdate(nodeId, caps, now);
      OptInt(doc, "type", -1) == TYPE_NODE_CAPABILITIES &&
      GetString(doc, "nodeId") == Some(nodeId) &&
      GetObject(doc, "capabilities") == Some(CapabilitiesToJson(caps)) &&
      GetLong(doc, "timestamp") == Some(now)
  {
  }

  /** The builders' defaults: ttl 3 for announces; ttl 10, empty path, no store-forward for routed messages. */
  lemma BuilderDefaults(nodeId: string, displayName: string, peers: seq<string>, caps: NodeCapabilities,
                        id: string, sender: string, dest: string, payload: seq<Byte>, now: Int64)
    ensures ParseMessage(CreateTopologyAnnounce(nodeId, displayName, peers, caps, now)).value.ttl == 3
    ensures ParseMessage(CreateRoutedMessage(id, sender, dest, payload, now))
         == Some(RoutedMessage(id, sender, dest, payload, now, 10, [], false))
  {
    TopologyAnnounceRoundTrip(nodeId, displayName, peers, caps, now, 3);
    RoutedMessageRoundTrip(id, sender, dest, payload, now, 10, [], false);
  }

  /** A routed message whose `requiresStoreForward` member is absent decodes with false. */
  lemma StoreForwardFlagDefaultsToFalse(doc: Json)
    requires ParseMessage(doc).Some? && ParseMessage(doc).value.RoutedMessage?
    requires Member(doc, "requiresStoreForward").None?
    ensures !ParseMessage(doc).value.requiresStoreForward
  {
  }

  /** An ack whose status names no `RouteAckStatus` constant is rejected, not defaulted. */
  lemma UnknownAckStatusRejected(doc: Json)
    requires OptInt(doc, "type", -1) == TYPE_ROUTE_ACK
    requires GetString(doc, "status").Some? && AckStatusFromName(GetString(doc, "status").value).None?
    ensures ParseMessage(doc).None?
  {
  }
}
