# Nearby mesh core in Dafny

This project models the mesh-networking core of the Nearby Android messenger. Every phone runs it. It lets phones that are not in range of each other exchange messages by relaying through other phones. The model covers the following parts.

- **Wire codecs.**
  - The mesh envelopes: topology announce and request, routed message, route acknowledgement, store confirmation and capabilities update.
  - The one-hop chat envelopes: handshake, message, receipts and disconnect.
  - Both are modelled on JSON values, with `org.json`'s get/opt accessors. Byte payloads and keys use Base64 (RFC 4648, section 4).
- **Routing table.** Each node's direct neighbours, known nodes and destination-to-next-hop routes. It learns routes from topology gossip, drops the routes through a departed neighbour, removes stale routes and ranks store nodes.
- **Store of held messages.** The Room table of stored messages with the queries of its DAO. It is a class whose rows are a map keyed by message id. `REPLACE` inserts, status and attempt updates, expiry and clean-up sweeps, and the ordered selections are all modelled.
- **Connection layer.** The peer/endpoint bookkeeping of the connection manager: discovered and connected endpoints, the peer-to-endpoint maps, the derived connection state, and a log of outgoing payloads.
- **Mesh manager.** It originates, relays, acknowledges, holds and redelivers messages, and gossips topology. It keeps a bounded window of seen message ids to stop loops. It also derives the node's store-and-forward capabilities from battery and network.
- **Heartbeat manager.** It picks a discovery schedule from battery, charging and Wi-Fi, and connects to endpoints not yet synced in the session.

**How the side effects are modelled.**

- Clocks, device readings and user lookups become parameters (`now`, `level`, `scale`, `batteryStatus`, `isOnWifi`, `user`).
- Each periodic coroutine loop becomes a tick method that runs one iteration.
- Sends are appended to the connection manager's `sent` log.
- Events for the UI are appended to `events`.

**Java and Kotlin arithmetic.**

- 32-bit and 64-bit wrap-around and truncating division are written out explicitly in module `JavaInt`.
- So are the `String`, `ByteArray` and `Long` hash codes of the stored-message entity.

## Model

| member | source | states |
|---|---|---|
| JavaInt.Signed | app/src/main/java/com/nearby/data/local/entity/StoredMessageEntity.kt:69-81 | the signed value of a byte, congruent to it modulo 256, as `ByteArray` hashing reads it |
| JavaInt.Wrap32 | app/src/main/java/com/nearby/data/nearby/mesh/MeshManager.kt:456 | the 32-bit two's-complement value congruent to x; the identity on values that fit |
| JavaInt.Wrap64 | app/src/main/java/com/nearby/data/nearby/mesh/MeshManager.kt:466 | the 64-bit two's-complement value congruent to x; the identity on values that fit |
| JavaInt.TruncDiv | app/src/main/java/com/nearby/data/nearby/mesh/MeshManager.kt:650 | JVM division: the quotient is truncated toward zero, bounded on each side for non-negative and negative dividends |
| Json.Member | app/src/main/java/com/nearby/data/nearby/mesh/MeshProtocol.kt:140-206 | a key is present exactly when the value is an object holding it, and the member returned is that key's value |
| Json.AsText | app/src/main/java/com/nearby/data/nearby/mesh/MeshProtocol.kt:166-170 | a string member reads as its text; arrays and objects do not read as text |
| Json.GetString | app/src/main/java/com/nearby/data/nearby/mesh/MeshProtocol.kt:153 | a missing key fails; otherwise the member's text as `AsText` gives it, so a string member is read back unchanged |
| Json.OptString | app/src/main/java/com/nearby/data/nearby/mesh/MeshProtocol.kt:236 | a missing key gives the fallback; a string member gives its text |
| Json.GetInt | app/src/main/java/com/nearby/data/nearby/mesh/MeshProtocol.kt:158 | succeeds exactly on numeric members, with the number narrowed to 32 bits (`Wrap32`) |
| Json.OptInt | app/src/main/java/com/nearby/data/nearby/mesh/MeshProtocol.kt:143 | the fallback exactly when `GetInt` fails, and otherwise its value |
| Json.GetLong | app/src/main/java/com/nearby/data/nearby/mesh/MeshProtocol.kt:157 | succeeds exactly on numeric members, with the number narrowed to 64 bits (`Wrap64`) |
| Json.GetBoolean | app/src/main/java/com/nearby/data/nearby/protocol/MessageProtocol.kt:125 | succeeds exactly on boolean members, with the member's boolean |
| Json.OptBoolean | app/src/main/java/com/nearby/data/nearby/mesh/MeshProtocol.kt:179 | the fallback exactly when `GetBoolean` fails, and otherwise its value |
| Json.GetArray | app/src/main/java/com/nearby/data/nearby/mesh/MeshProtocol.kt:148 | succeeds exactly on array members, with the member's items |
| Json.GetObject | app/src/main/java/com/nearby/data/nearby/mesh/MeshProtocol.kt:156 | succeeds exactly on object members, and returns that member |
| Json.StringArray | app/src/main/java/com/nearby/data/nearby/mesh/MeshProtocol.kt:34 | the JSON array has one string item per input string, in order |
| Json.ArrayStrings | app/src/main/java/com/nearby/data/nearby/mesh/MeshProtocol.kt:166-170 | reads an array of texts: succeeds exactly when every item reads as text, keeps the length, and each result is its item's text |
| Json.ReadStringArray | app/src/main/java/com/nearby/data/nearby/mesh/MeshProtocol.kt:166-170 | the index loop that builds the list computes exactly `ArrayStrings` |
| Json.ArrayStringsRoundTrip | app/src/main/java/com/nearby/data/nearby/protocol/MessageProtocol.kt:151-155 | a list of strings written as a JSON array reads back unchanged |
| Base64.CharOf | app/src/main/java/com/nearby/data/nearby/mesh/MeshProtocol.kt:72 | every 6-bit value has an alphabet character that decodes back to it |
| Base64.IndexOf | app/src/main/java/com/nearby/data/nearby/mesh/MeshProtocol.kt:175 | decoding a character gives a 6-bit value, and the pad character is not in the alphabet |
| Base64.EncodeTriple | app/src/main/java/com/nearby/data/nearby/mesh/MeshProtocol.kt:72 | three octets encode as four characters |
| Base64.EncodeOne | app/src/main/java/com/nearby/data/nearby/mesh/MeshProtocol.kt:72 | a final single octet encodes as four characters ending in two pads |
| Base64.EncodePair | app/src/main/java/com/nearby/data/nearby/mesh/MeshProtocol.kt:72 | a final two octets encode as four characters ending in one pad |
| Base64.Encode | app/src/main/java/com/nearby/data/nearby/mesh/MeshProtocol.kt:72 | the encoding is a whole number of 4-character groups, one group for at most two octets |
| Base64.DecodeQuad | app/src/main/java/com/nearby/data/nearby/mesh/MeshProtocol.kt:175 | a group decodes to 1 to 3 octets, and only the last group may be short |
| Base64.Decode | app/src/main/java/com/nearby/data/nearby/mesh/MeshProtocol.kt:175 | only text made of whole 4-character groups decodes |
| Base64.TripleRoundTrip | app/src/main/java/com/nearby/data/nearby/mesh/MeshProtocol.kt:72-175 | a full group decodes back to its three octets, as the last group or not |
| Base64.SingleRoundTrip | app/src/main/java/com/nearby/data/nearby/mesh/MeshProtocol.kt:72-175 | a one-octet group decodes back to its octet |
| Base64.PairRoundTrip | app/src/main/java/com/nearby/data/nearby/mesh/MeshProtocol.kt:72-175 | a two-octet group decodes back to its octets |
| Base64.RoundTrip | app/src/main/java/com/nearby/data/nearby/mesh/MeshProtocol.kt:72-175 | decoding the encoding of any byte string gives it back |
| Device.BatteryLevel | app/src/main/java/com/nearby/data/nearby/mesh/MeshManager.kt:645-651 | a 32-bit percentage, and 50 when the level or scale extra is unusable |
| Device.BatteryLevelIsPercentage | app/src/main/java/com/nearby/data/nearby/mesh/MeshManager.kt:645-651 | for a level within a positive scale the result is the floor percentage, between 0 and 100 |
| MeshProtocol.UptimeFromName | app/src/main/java/com/nearby/data/nearby/mesh/MeshProtocol.kt:235-239 | inverts `Name`: a result has the given name, and a name of a class is always recognised |
| MeshProtocol.QualityFromName | app/src/main/java/com/nearby/data/nearby/mesh/MeshProtocol.kt:240-244 | inverts `Name`: a result has the given name, and a name of a quality is always recognised |
| MeshProtocol.AckStatusFromName | app/src/main/java/com/nearby/data/nearby/mesh/MeshProtocol.kt:185 | inverts `Name`: a result has the given name, and a status's name is always recognised |
| MeshProtocol.CapabilitiesToJson | app/src/main/java/com/nearby/data/nearby/mesh/MeshProtocol.kt:220-227 | the capabilities are written as a JSON object |
| MeshProtocol.CapabilitiesFromJson | app/src/main/java/com/nearby/data/nearby/mesh/MeshProtocol.kt:230-245 | each missing or unrecognised field takes its documented default (true, true, 50, 168, FREQUENT, MEDIUM) |
| MeshProtocol.MeshMessage.TypeCode | app/src/main/java/com/nearby/data/nearby/mesh/MeshProtocol.kt:12-17 | mesh type codes lie in 20..25 |
| MeshProtocol.CreateTopologyAnnounce | app/src/main/java/com/nearby/data/nearby/mesh/MeshProtocol.kt:23-40 | the object has exactly the announce's required members and `type` |
| MeshProtocol.CreateTopologyRequest | app/src/main/java/com/nearby/data/nearby/mesh/MeshProtocol.kt:46-53 | the object has exactly the request's required members and `type` |
| MeshProtocol.CreateRoutedMessage | app/src/main/java/com/nearby/data/nearby/mesh/MeshProtocol.kt:58-79 | the object has exactly the routed message's members, the store-and-forward flag included |
| MeshProtocol.CreateRouteAck | app/src/main/java/com/nearby/data/nearby/mesh/MeshProtocol.kt:84-99 | the object has the ack's members, with `storedBy` exactly when one is given |
| MeshProtocol.CreateStoreConfirm | app/src/main/java/com/nearby/data/nearby/mesh/MeshProtocol.kt:104-119 | the object has exactly the confirmation's required members and `type` |
| MeshProtocol.CreateCapabilitiesUpdate | app/src/main/java/com/nearby/data/nearby/mesh/MeshProtocol.kt:124-135 | the object has exactly the update's required members and `type` |
| MeshProtocol.ParseMessage | app/src/main/java/com/nearby/data/nearby/mesh/MeshProtocol.kt:140-206 | a parsed message's kind is the document's `type`, all members that kind requires are present, and a document without `type` is refused |
| MeshProtocol.ParseTopologyAnnounce | app/src/main/java/com/nearby/data/nearby/mesh/MeshProtocol.kt:146-160 | only an object with the announce's required members parses, and it parses to an announce |
| MeshProtocol.ParseTopologyRequest | app/src/main/java/com/nearby/data/nearby/mesh/MeshProtocol.kt:161-164 | only an object with the request's required members parses, and it parses to a request |
| MeshProtocol.ParseRoutedMessage | app/src/main/java/com/nearby/data/nearby/mesh/MeshProtocol.kt:165-181 | only an object with the routed message's required members parses, and it parses to a routed message |
| MeshProtocol.ParseRouteAck | app/src/main/java/com/nearby/data/nearby/mesh/MeshProtocol.kt:182-188 | only an object with the ack's required members parses, and it parses to an ack |
| MeshProtocol.ParseStoreConfirm | app/src/main/java/com/nearby/data/nearby/mesh/MeshProtocol.kt:189-195 | only an object with the confirmation's required members parses, and it parses to a confirmation |
| MeshProtocol.ParseCapabilitiesUpdate | app/src/main/java/com/nearby/data/nearby/mesh/MeshProtocol.kt:196-200 | only an object with the update's required members parses, and it parses to an update |
| MeshProtocol.CapabilitiesRoundTrip | app/src/main/java/com/nearby/data/nearby/mesh/MeshProtocol.kt:220-245 | capabilities written to JSON read back unchanged |
| MeshProtocol.CapabilitiesDefaults | app/src/main/java/com/nearby/data/nearby/mesh/MeshProtocol.kt:230-245 | an empty object reads as the default capabilities |
| MeshProtocol.TopologyAnnounceRoundTrip | app/src/main/java/com/nearby/data/nearby/mesh/MeshProtocol.kt:23-40 | a built announce parses back to the announce it was built from |
| MeshProtocol.TopologyRequestRoundTrip | app/src/main/java/com/nearby/data/nearby/mesh/MeshProtocol.kt:46-53 | a built request parses back to the request it was built from |
| MeshProtocol.RoutedMessageRoundTrip | app/src/main/java/com/nearby/data/nearby/mesh/MeshProtocol.kt:58-79 | a built routed message parses back with its id, endpoints, payload, hop budget, path and flag |
| MeshProtocol.RouteAckRoundTrip | app/src/main/java/com/nearby/data/nearby/mesh/MeshProtocol.kt:84-99 | a built ack parses back, `storedBy` included |
| MeshProtocol.StoreConfirmRoundTrip | app/src/main/java/com/nearby/data/nearby/mesh/MeshProtocol.kt:104-119 | a built store confirmation parses back unchanged |
| MeshProtocol.CapabilitiesUpdateRoundTrip | app/src/main/java/com/nearby/data/nearby/mesh/MeshProtocol.kt:124-135 | a built capabilities update parses back unchanged |
| MeshProtocol.BuilderDefaults | app/src/main/java/com/nearby/data/nearby/mesh/MeshProtocol.kt:23-79 | an announce built with the default hop budget carries 3 and a routed message 10, with the flag off and an empty path |
| MeshProtocol.StoreForwardFlagDefaultsToFalse | app/src/main/java/com/nearby/data/nearby/mesh/MeshProtocol.kt:179 | a routed message without the flag parses with store-and-forward off |
| MeshProtocol.UnknownAckStatusRejected | app/src/main/java/com/nearby/data/nearby/mesh/MeshProtocol.kt:185 | an ack whose status names no status is refused as a whole |
| MessageProtocol.ParsedMessage.TypeCode | app/src/main/java/com/nearby/data/nearby/protocol/MessageProtocol.kt:7-13 | chat type codes lie in 1..7, and the typing indicator has no parsed form |
| MessageProtocol.CreateHandshakeInit | app/src/main/java/com/nearby/data/nearby/protocol/MessageProtocol.kt:15-29 | the object has exactly the handshake members and carries protocol version 1 |
| MessageProtocol.CreateHandshakeResponse | app/src/main/java/com/nearby/data/nearby/protocol/MessageProtocol.kt:31-46 | the object has exactly the response members |
| MessageProtocol.CreateMessage | app/src/main/java/com/nearby/data/nearby/protocol/MessageProtocol.kt:48-62 | the object has exactly the plain message members, with no `encrypted` flag |
| MessageProtocol.CreateEncryptedMessage | app/src/main/java/com/nearby/data/nearby/protocol/MessageProtocol.kt:64-79 | the object has the encrypted message members, with type MESSAGE and `encrypted` true |
| MessageProtocol.CreateDeliveryReceipt | app/src/main/java/com/nearby/data/nearby/protocol/MessageProtocol.kt:81-88 | the object has exactly the receipt members |
| MessageProtocol.CreateReadReceipt | app/src/main/java/com/nearby/data/nearby/protocol/MessageProtocol.kt:90-97 | the object has the receipt members, with one array item per message id |
| MessageProtocol.CreateDisconnect | app/src/main/java/com/nearby/data/nearby/protocol/MessageProtocol.kt:99-106 | the object has exactly the disconnect members |
| MessageProtocol.ParseMessage | app/src/main/java/com/nearby/data/nearby/protocol/MessageProtocol.kt:108-170 | a parsed message's kind is the document's `type`; a missing type and the typing indicator are refused |
| MessageProtocol.ParseHandshakeInit | app/src/main/java/com/nearby/data/nearby/protocol/MessageProtocol.kt:114-120 | a handshake without `version` reads as version 1 |
| MessageProtocol.ParseHandshakeResponse | app/src/main/java/com/nearby/data/nearby/protocol/MessageProtocol.kt:121-127 | the acceptance read is the document's `accepted` |
| MessageProtocol.ParseChatMessage | app/src/main/java/com/nearby/data/nearby/protocol/MessageProtocol.kt:128-145 | a chat message is the encrypted kind exactly when its `encrypted` flag (default false) is set |
| MessageProtocol.ParseDeliveryReceipt | app/src/main/java/com/nearby/data/nearby/protocol/MessageProtocol.kt:146-149 | the receipt's message id is the document's `messageId` |
| MessageProtocol.ParseReadReceipt | app/src/main/java/com/nearby/data/nearby/protocol/MessageProtocol.kt:150-160 | one message id per array item, each the text of its item |
| MessageProtocol.ParseDisconnect | app/src/main/java/com/nearby/data/nearby/protocol/MessageProtocol.kt:161-164 | the disconnecting peer is the document's `peerId` |
| MessageProtocol.HandshakeInitRoundTrip | app/src/main/java/com/nearby/data/nearby/protocol/MessageProtocol.kt:15-29 | a built handshake parses back with its peer, name, key and version 1 |
| MessageProtocol.HandshakeResponseRoundTrip | app/src/main/java/com/nearby/data/nearby/protocol/MessageProtocol.kt:31-46 | a built handshake response parses back unchanged |
| MessageProtocol.PlainMessageRoundTrip | app/src/main/java/com/nearby/data/nearby/protocol/MessageProtocol.kt:48-62 | a built plain message parses back as a plain message |
| MessageProtocol.EncryptedMessageRoundTrip | app/src/main/java/com/nearby/data/nearby/protocol/MessageProtocol.kt:64-79 | a built encrypted message parses back as an encrypted message with its ciphertext |
| MessageProtocol.DeliveryReceiptRoundTrip | app/src/main/java/com/nearby/data/nearby/protocol/MessageProtocol.kt:81-88 | a built delivery receipt parses back unchanged |
| MessageProtocol.ReadReceiptRoundTrip | app/src/main/java/com/nearby/data/nearby/protocol/MessageProtocol.kt:90-97 | a built read receipt parses back with the same ids in order |
| MessageProtocol.DisconnectRoundTrip | app/src/main/java/com/nearby/data/nearby/protocol/MessageProtocol.kt:99-106 | a built disconnect parses back unchanged |
| MessageProtocol.HandshakeVersionDefaultsToOne | app/src/main/java/com/nearby/data/nearby/protocol/MessageProtocol.kt:119 | a handshake document without `version` parses with version 1 |
| Routing.CapabilitiesOf | app/src/main/java/com/nearby/data/nearby/mesh/RoutingTable.kt:99 | an unknown node has no known capabilities |
| Routing.TwoHopRoute | app/src/main/java/com/nearby/data/nearby/mesh/RoutingTable.kt:97-103 | a learned route reaches its peer through the announcer in two hops, stamped with the announce's time |
| Routing.LearnStep | app/src/main/java/com/nearby/data/nearby/mesh/RoutingTable.kt:86-104 | a skipped peer changes nothing; any other peer is in the table afterwards, with the two-hop route exactly when the refresh rule holds; every other entry stays |
| Routing.LearnRoutes | app/src/main/java/com/nearby/data/nearby/mesh/RoutingTable.kt:86-104 | the table gains exactly the listed peers that are not skipped, and entries for unlisted nodes stay |
| Routing.LearnStepExtends | app/src/main/java/com/nearby/data/nearby/mesh/RoutingTable.kt:84-105 | one more listed peer changes the learned table exactly as one more turn of the loop does |
| Routing.LearnRoutesIsLearnedRoutes | app/src/main/java/com/nearby/data/nearby/mesh/RoutingTable.kt:84-105 | the recursive definition of the learning loop agrees with its peer-by-peer definition |
| Routing.LearnedRouteShape | app/src/main/java/com/nearby/data/nearby/mesh/RoutingTable.kt:84-105 | every route after learning is either untouched or a two-hop route through the announcer to a listed, non-skipped peer |
| Routing.LearnKeepsOtherRoutes | app/src/main/java/com/nearby/data/nearby/mesh/RoutingTable.kt:92-96 | a route the refresh rule does not allow to be replaced survives learning unchanged |
| Routing.LearnPreservesWellFormed | app/src/main/java/com/nearby/data/nearby/mesh/RoutingTable.kt:84-105 | learning keeps every route keyed by its destination with a positive hop count |
| Routing.LearnPreservesNeighbourRoutes | app/src/main/java/com/nearby/data/nearby/mesh/RoutingTable.kt:84-105 | when the announcer is skipped, every direct neighbour keeps its one-hop route to itself |
| Routing.LearnAsWrittenKeepsNeighboursDirect | app/src/main/java/com/nearby/data/nearby/mesh/RoutingTable.kt:84-105 | with only the local node skipped, every neighbour is still routed through itself |
| Routing.LearnAsWrittenDemotesNeighbour | app/src/main/java/com/nearby/data/nearby/mesh/RoutingTable.kt:94-96 | with only the local node skipped, a relayed announce that lists its own sender turns the sender's hop-1 route into a hop-2 route |
| Routing.WithoutRoutesVia | app/src/main/java/com/nearby/data/nearby/mesh/RoutingTable.kt:51-52 | exactly the routes whose next hop is not the departed node remain, unchanged |
| Routing.WithoutStaleRoutes | app/src/main/java/com/nearby/data/nearby/mesh/RoutingTable.kt:190-200 | exactly the routes that are fresh or lead to a direct neighbour remain, unchanged |
| Routing.StaleByElapsedTime | app/src/main/java/com/nearby/data/nearby/mesh/RoutingTable.kt:190-200 | for non-negative times a route is stale exactly when more than the maximum age has passed since its update |
| Routing.StaleWrapsAround | app/src/main/java/com/nearby/data/nearby/mesh/RoutingTable.kt:193 | the 64-bit subtraction wraps: a route stamped at the least `Long` is not stale at the greatest |
| Routing.RemovePreservesInvariants | app/src/main/java/com/nearby/data/nearby/mesh/RoutingTable.kt:47-55 | removing a neighbour keeps routes well formed, keeps the other neighbours' one-hop routes and drops the neighbour's own |
| Routing.CleanupKeepsNeighbours | app/src/main/java/com/nearby/data/nearby/mesh/RoutingTable.kt:190-200 | clean-up never touches a direct neighbour's route |
| Routing.RankingIsTotalPreorder | app/src/main/java/com/nearby/data/nearby/mesh/RoutingTable.kt:174-184 | the store-node ranking is total and transitive, so a best node exists |
| Routing.AlwaysOnOutranksStorage | app/src/main/java/com/nearby/data/nearby/mesh/RoutingTable.kt:176-181 | uptime class is compared before storage: an always-on node with less storage outranks a frequent one with more |
| Routing.RoutingTable.constructor | app/src/main/java/com/nearby/data/nearby/mesh/RoutingTable.kt:12-26 | a new table has no routes, known nodes or neighbours |
| Routing.RoutingTable.AddDirectNeighbor | app/src/main/java/com/nearby/data/nearby/mesh/RoutingTable.kt:31-42 | the node is known, is a direct neighbour and has a one-hop route to itself; nothing else changes |
| Routing.RoutingTable.RemoveDirectNeighbor | app/src/main/java/com/nearby/data/nearby/mesh/RoutingTable.kt:47-55 | the node stops being a neighbour, every route through it goes, and its node record stays |
| Routing.RoutingTable.ProcessTopologyAnnounce | app/src/main/java/com/nearby/data/nearby/mesh/RoutingTable.kt:60-109 | records the announced node, refreshes the announcer's own route, and learns two-hop routes, skipping both this node and the announcer |
| Routing.RoutingTable.AnnouncerRoute | app/src/main/java/com/nearby/data/nearby/mesh/RoutingTable.kt:73-81 | a self-announce refreshes the announcer's one-hop route; any other announce leaves the routes; route invariants are kept |
| Routing.RoutingTable.FindRoute | app/src/main/java/com/nearby/data/nearby/mesh/RoutingTable.kt:114-117 | no route to this node itself; otherwise the stored route exactly when one exists |
| Routing.RoutingTable.GetNextHop | app/src/main/java/com/nearby/data/nearby/mesh/RoutingTable.kt:122-124 | the next hop of the route found; a direct neighbour is its own next hop |
| Routing.RoutingTable.IsDirectNeighbor | app/src/main/java/com/nearby/data/nearby/mesh/RoutingTable.kt:129-131 | membership of the neighbour set, and every neighbour is reachable |
| Routing.RoutingTable.CanReach | app/src/main/java/com/nearby/data/nearby/mesh/RoutingTable.kt:136-138 | a route exists, which for another node means `FindRoute` finds one |
| Routing.RoutingTable.FindBestStoreNode | app/src/main/java/com/nearby/data/nearby/mesh/RoutingTable.kt:170-185 | none exactly when no known node is a store candidate; otherwise a candidate that ranks no worse than every other candidate |
| Routing.RoutingTable.CleanupStaleRoutes | app/src/main/java/com/nearby/data/nearby/mesh/RoutingTable.kt:190-200 | the routes become `WithoutStaleRoutes` of the old ones; the nodes and neighbours stay |
| Routing.RoutingTable.GetConnectedPeerIds | app/src/main/java/com/nearby/data/nearby/mesh/RoutingTable.kt:205-207 | each direct neighbour exactly once |
| StoredMessages.NewStoredMessage | app/src/main/java/com/nearby/data/local/entity/StoredMessageEntity.kt:18-47 | all ten fields: the given id, sender, destination, payload, timestamp, storage time and expiry, PENDING, no attempts and no attempt time |
| StoredMessages.ContentEqualsIsEquality | app/src/main/java/com/nearby/data/local/entity/StoredMessageEntity.kt:49-67 | the hand-written `equals`, comparing the payload by content, holds exactly for equal records |
| StoredMessages.StringHash | app/src/main/java/com/nearby/data/local/entity/StoredMessageEntity.kt:69-81 | a 32-bit `String.hashCode`, 0 for the empty string |
| StoredMessages.BytesHash | app/src/main/java/com/nearby/data/local/entity/StoredMessageEntity.kt:69-81 | a 32-bit `contentHashCode`, 1 for the empty array |
| StoredMessages.LongHash | app/src/main/java/com/nearby/data/local/entity/StoredMessageEntity.kt:69-81 | `Long.hashCode` is a 32-bit value |
| StoredMessages.Mix | app/src/main/java/com/nearby/data/local/entity/StoredMessageEntity.kt:69-81 | one `31 * result + h` step stays 32-bit |
| StoredMessages.HashCode | app/src/main/java/com/nearby/data/local/entity/StoredMessageEntity.kt:69-81 | the record's hash code is a 32-bit value |
| StoredMessages.HashAgreesWithEquals | app/src/main/java/com/nearby/data/local/entity/StoredMessageEntity.kt:49-81 | records that are `equals` have the same hash code |
| StoredMessageStore.PendingIds | app/src/main/java/com/nearby/data/local/dao/StoredMessageDao.kt:57-58 | exactly the ids of PENDING rows |
| StoredMessageStore.WithStatus | app/src/main/java/com/nearby/data/local/dao/StoredMessageDao.kt:39-40 | only the named row changes, and only its status |
| StoredMessageStore.WithAttempt | app/src/main/java/com/nearby/data/local/dao/StoredMessageDao.kt:42-43 | only the named row changes: its attempts go up by one (32-bit) and its attempt time is set |
| StoredMessageStore.WithoutExpired | app/src/main/java/com/nearby/data/local/dao/StoredMessageDao.kt:51-52 | exactly the rows not yet past their expiry remain, unchanged |
| StoredMessageStore.WithoutDestination | app/src/main/java/com/nearby/data/local/dao/StoredMessageDao.kt:48-49 | exactly the rows for other destinations remain, unchanged |
| StoredMessageStore.MarkExpiredSpec | app/src/main/java/com/nearby/data/local/dao/StoredMessageDao.kt:54-55 | every PENDING row past its expiry becomes EXPIRED, others stay, and the pending set loses exactly those rows |
| StoredMessageStore.CleanupSpec | app/src/main/java/com/nearby/data/local/dao/StoredMessageDao.kt:66-67 | exactly the PENDING and DELIVERING rows remain, and no pending row is lost |
| StoredMessageStore.ReinsertResetsAttempts | app/src/main/java/com/nearby/data/local/dao/StoredMessageDao.kt:15-16 | re-inserting a record under its id replaces the old row, attempts back at zero and PENDING |
| StoredMessageStore.InsertPosition | app/src/main/java/com/nearby/data/local/dao/StoredMessageDao.kt:24-28 | the insertion point lies after every row with a smaller or equal key and before every greater one |
| StoredMessageStore.InsertSorted | app/src/main/java/com/nearby/data/local/dao/StoredMessageDao.kt:24-28 | inserting keeps the list sorted, adds exactly the new row and keeps ids distinct |
| StoredMessageStore.InsertKeepsSorted | app/src/main/java/com/nearby/data/local/dao/StoredMessageDao.kt:24-28 | a row inserted at its insertion point leaves the list sorted |
| StoredMessageStore.InsertKeepsDistinct | app/src/main/java/com/nearby/data/local/dao/StoredMessageDao.kt:24-28 | a row with a new id leaves the ids distinct |
| StoredMessageStore.TotalPayloadRemove | app/src/main/java/com/nearby/data/local/dao/StoredMessageDao.kt:60-61 | the summed payload size splits into one row's size and the rest |
| StoredMessageStore.StoredMessageDao.constructor | app/src/main/java/com/nearby/data/local/dao/StoredMessageDao.kt:12-13 | a new table is empty |
| StoredMessageStore.StoredMessageDao.InsertStoredMessage | app/src/main/java/com/nearby/data/local/dao/StoredMessageDao.kt:15-16 | `REPLACE`: the row under the record's id becomes the record |
| StoredMessageStore.StoredMessageDao.UpdateStoredMessage | app/src/main/java/com/nearby/data/local/dao/StoredMessageDao.kt:18-19 | an existing row is replaced; an unknown id changes nothing |
| StoredMessageStore.StoredMessageDao.GetStoredMessageById | app/src/main/java/com/nearby/data/local/dao/StoredMessageDao.kt:21-22 | found exactly when the id is stored, and it is that row |
| StoredMessageStore.StoredMessageDao.UpdateStatus | app/src/main/java/com/nearby/data/local/dao/StoredMessageDao.kt:39-40 | the rows become `WithStatus` of the old rows |
| StoredMessageStore.StoredMessageDao.IncrementDeliveryAttempts | app/src/main/java/com/nearby/data/local/dao/StoredMessageDao.kt:42-43 | the rows become `WithAttempt` of the old rows |
| StoredMessageStore.StoredMessageDao.DeleteStoredMessage | app/src/main/java/com/nearby/data/local/dao/StoredMessageDao.kt:45-46 | the row with that id is gone and no other |
| StoredMessageStore.StoredMessageDao.DeleteStoredMessagesForDestination | app/src/main/java/com/nearby/data/local/dao/StoredMessageDao.kt:48-49 | the rows become `WithoutDestination` of the old rows |
| StoredMessageStore.StoredMessageDao.DeleteExpiredMessages | app/src/main/java/com/nearby/data/local/dao/StoredMessageDao.kt:51-52 | the rows become `WithoutExpired` of the old rows |
| StoredMessageStore.StoredMessageDao.MarkExpiredMessages | app/src/main/java/com/nearby/data/local/dao/StoredMessageDao.kt:54-55 | the rows become `MarkExpired` of the old rows |
| StoredMessageStore.StoredMessageDao.CleanupCompletedMessages | app/src/main/java/com/nearby/data/local/dao/StoredMessageDao.kt:66-67 | the rows become `WithoutCompleted` of the old rows |
| StoredMessageStore.StoredMessageDao.GetPendingMessageCount | app/src/main/java/com/nearby/data/local/dao/StoredMessageDao.kt:57-58 | the number of PENDING rows, zero exactly when there is none |
| StoredMessageStore.StoredMessageDao.Select | app/src/main/java/com/nearby/data/local/dao/StoredMessageDao.kt:24-31 | exactly the rows the filter keeps, sorted by the key, each once |
| StoredMessageStore.StoredMessageDao.GetStoredMessagesForDestination | app/src/main/java/com/nearby/data/local/dao/StoredMessageDao.kt:24-28 | exactly the rows for the destination with the given status, each once |
| StoredMessageStore.StoredMessageDao.GetPendingMessagesForDestination | app/src/main/java/com/nearby/data/local/dao/StoredMessageDao.kt:30-31 | exactly the destination's PENDING rows, oldest first, each once |
| StoredMessageStore.StoredMessageDao.GetDestinationsWithPendingMessages | app/src/main/java/com/nearby/data/local/dao/StoredMessageDao.kt:36-37 | each destination with a PENDING row exactly once |
| StoredMessageStore.StoredMessageDao.GetOldestPendingMessages | app/src/main/java/com/nearby/data/local/dao/StoredMessageDao.kt:63-64 | at most `limit` PENDING rows, soonest expiry first, none left out that expires sooner, and all of them when fewer exist |
| StoredMessageStore.StoredMessageDao.GetTotalStoredSize | app/src/main/java/com/nearby/data/local/dao/StoredMessageDao.kt:60-61 | no value without PENDING rows, otherwise the sum of their payload sizes |
| Nearby.DerivedStateReflectsFlags | app/src/main/java/com/nearby/data/nearby/NearbyManager.kt:339-346 | the derived state reports advertising and discovering exactly as the flags say, and is never a connection state |
| Nearby.WithoutEndpoint | app/src/main/java/com/nearby/data/nearby/NearbyManager.kt:82-84 | exactly the endpoints with another id remain, in order |
| Nearby.NearbyManager.constructor | app/src/main/java/com/nearby/data/nearby/NearbyManager.kt:38-70 | idle, with nothing discovered, connected, mapped or sent |
| Nearby.NearbyManager.OnEndpointFound | app/src/main/java/com/nearby/data/nearby/NearbyManager.kt:73-80 | the endpoint is appended to the discovered list, repeats included |
| Nearby.NearbyManager.OnEndpointLost | app/src/main/java/com/nearby/data/nearby/NearbyManager.kt:82-84 | every discovered entry with that id is dropped |
| Nearby.NearbyManager.OnConnectionInitiated | app/src/main/java/com/nearby/data/nearby/NearbyManager.kt:88-97 | the state becomes connecting to the endpoint and the request is recorded |
| Nearby.NearbyManager.OnConnectionResult | app/src/main/java/com/nearby/data/nearby/NearbyManager.kt:99-116 | success connects the endpoint and drops it from the discovered list; the state is then overwritten with the flag-derived one |
| Nearby.NearbyManager.OnDisconnected | app/src/main/java/com/nearby/data/nearby/NearbyManager.kt:118-122 | the endpoint is no longer connected, the event is recorded, and the state follows the flags |
| Nearby.NearbyManager.AdvertisingStarted | app/src/main/java/com/nearby/data/nearby/NearbyManager.kt:164-167 | advertising is on and the state follows the flags |
| Nearby.NearbyManager.StopAdvertising | app/src/main/java/com/nearby/data/nearby/NearbyManager.kt:177-181 | advertising is off and the state follows the flags |
| Nearby.NearbyManager.DiscoveryStarted | app/src/main/java/com/nearby/data/nearby/NearbyManager.kt:192-195 | discovering is on and the state follows the flags |
| Nearby.NearbyManager.StopDiscovery | app/src/main/java/com/nearby/data/nearby/NearbyManager.kt:205-210 | discovering is off, the discovered list is cleared, and the state follows the flags |
| Nearby.NearbyManager.DisconnectFromEndpoint | app/src/main/java/com/nearby/data/nearby/NearbyManager.kt:282-285 | the endpoint is no longer connected; nothing else changes |
| Nearby.NearbyManager.StopAllEndpoints | app/src/main/java/com/nearby/data/nearby/NearbyManager.kt:287-296 | everything is cleared and the state is idle |
| Nearby.NearbyManager.UpdateConnectionState | app/src/main/java/com/nearby/data/nearby/NearbyManager.kt:339-346 | the state becomes the one the flags derive |
| Nearby.NearbyManager.RegisterPeerEndpoint | app/src/main/java/com/nearby/data/nearby/NearbyManager.kt:302-305 | the peer and endpoint map to each other in both directions |
| Nearby.NearbyManager.UnregisterPeerEndpoint | app/src/main/java/com/nearby/data/nearby/NearbyManager.kt:310-315 | the peer and its endpoint are unmapped in both directions |
| Nearby.NearbyManager.GetEndpointIdForPeer | app/src/main/java/com/nearby/data/nearby/NearbyManager.kt:320-322 | the peer's endpoint exactly when it is registered |
| Nearby.NearbyManager.GetPeerIdForEndpoint | app/src/main/java/com/nearby/data/nearby/NearbyManager.kt:327-329 | the endpoint's peer exactly when it is registered |
| Nearby.NearbyManager.IsConnectedToPeer | app/src/main/java/com/nearby/data/nearby/NearbyManager.kt:334-337 | the peer is registered and its endpoint is connected |
| Nearby.NearbyManager.SendPayload | app/src/main/java/com/nearby/data/nearby/NearbyManager.kt:250-264 | the payload is appended to the send log for the endpoint; nothing else changes |
| MeshPolicy.MarkSeen | app/src/main/java/com/nearby/data/nearby/mesh/MeshManager.kt:653-660 | the new id is remembered, nothing else is added, the window stays within 1000, and ids stay distinct |
| MeshPolicy.MarkSeenWindow | app/src/main/java/com/nearby/data/nearby/mesh/MeshManager.kt:653-660 | below the bound the id is appended; at the bound the oldest 500 ids are forgotten and the newest 500 remain beside the new id |
| MeshPolicy.RetentionMs | app/src/main/java/com/nearby/data/nearby/mesh/MeshManager.kt:456 | hours times 3 600 000 for every retention a node can offer |
| MeshPolicy.HeldCopy | app/src/main/java/com/nearby/data/nearby/mesh/MeshManager.kt:449-473 | the held record keeps the message's id, sender, destination and payload, is PENDING with no attempts and no attempt time, is stamped now, and expires after the node's retention period |
| MeshPolicy.CapabilityTier | app/src/main/java/com/nearby/data/nearby/mesh/MeshManager.kt:558-612 | stores exactly on Wi-Fi or above 30% battery, forwards exactly on Wi-Fi or above 15%, and is always-on exactly on Wi-Fi while charging |
| MeshPolicy.ChargingOnWifiIsBestStore | app/src/main/java/com/nearby/data/nearby/mesh/MeshManager.kt:565-573 | a charging node on Wi-Fi ranks no worse as a store node than any node that stores |
| MeshPolicy.DecideSend | app/src/main/java/com/nearby/data/nearby/mesh/MeshManager.kt:139-200 | each of the five outcomes holds exactly when its option is the first one open; a neighbour without an endpoint falls through to the route lookup |
| MeshPolicy.SendTargetMatchesResult | app/src/main/java/com/nearby/data/nearby/mesh/MeshManager.kt:139-200 | a payload leaves exactly on SentDirect, Routed or SentToStore, to the endpoint of the node the result names, with the store-and-forward flag set except on a direct send |
| MeshPolicy.DecideRelay | app/src/main/java/com/nearby/data/nearby/mesh/MeshManager.kt:291-369 | out of hops exactly when ttl <= 0, taken exactly at the destination, a neighbour destination is always forwarded to, and a next hop already on the path is never used |
| MeshPolicy.AckFor | app/src/main/java/com/nearby/data/nearby/mesh/MeshManager.kt:294-369 | STORED with this node as `storedBy` exactly when held here, FAILED exactly when out of hops or unroutable |
| MeshPolicy.Forward | app/src/main/java/com/nearby/data/nearby/mesh/MeshManager.kt:313-349 | a forwarded copy keeps id, destination and payload, has one hop fewer and this node appended to the path |
| MeshPolicy.ForwardedCopy | app/src/main/java/com/nearby/data/nearby/mesh/MeshManager.kt:319-328 | the forwarded copy is written as a JSON object |
| MeshPolicy.ForwardedCopyParses | app/src/main/java/com/nearby/data/nearby/mesh/MeshManager.kt:319-328 | the next node parses exactly the forwarded message |
| MeshPolicy.Relayed | app/src/main/java/com/nearby/data/nearby/mesh/MeshManager.kt:313-349 | after a chain of relays the path has grown by exactly the relays and the hop budget has fallen by their number |
| MeshPolicy.HopBudgetBoundsRelays | app/src/main/java/com/nearby/data/nearby/mesh/MeshManager.kt:291-296 | a message crosses at most `ttl` relays |
| MeshPolicy.ChatMessagesAreNotMeshMessages | app/src/main/java/com/nearby/data/nearby/mesh/MeshProtocol.kt:12-17 | no document parses both as a chat message and as a mesh message |
| Mesh.SendsTo | app/src/main/java/com/nearby/data/nearby/mesh/MeshManager.kt:417-421 | one send per node, in order, to that node's endpoint |
| Mesh.AckSends | app/src/main/java/com/nearby/data/nearby/mesh/MeshManager.kt:425-447 | at most one ack, sent exactly when the path's last node has an endpoint, and to that endpoint |
| Mesh.AckReachesPreviousHop | app/src/main/java/com/nearby/data/nearby/mesh/MeshManager.kt:437-444 | the previous hop parses the ack with the message's id, sender, status and storing node |
| Mesh.Attempted | app/src/main/java/com/nearby/data/local/dao/StoredMessageDao.kt:42-43 | one counted attempt: the attempt count goes up by one and the time is recorded |
| Mesh.SettleOne | app/src/main/java/com/nearby/data/nearby/mesh/MeshManager.kt:478-508 | one more turn of the delivery loop settles the next held row and leaves every other row as before |
| Mesh.OriginSend | app/src/main/java/com/nearby/data/nearby/mesh/MeshManager.kt:139-200 | at most one send, made exactly when the result is SentDirect, Routed or SentToStore, to the endpoint of the destination, the next hop or the store node respectively, carrying the routed message with a hop budget of 10 and path `[me]`, flagged store-and-forward unless direct |
| Mesh.Resent | app/src/main/java/com/nearby/data/nearby/mesh/MeshManager.kt:486-491 | a try sends at most once, and never when the row was not tried, was already processed or the node is not set up |
| Mesh.ResentAll | app/src/main/java/com/nearby/data/nearby/mesh/MeshManager.kt:478-507 | the tries of a pass send at most once per held row |
| Mesh.StoredEvents | app/src/main/java/com/nearby/data/nearby/mesh/MeshManager.kt:478-507 | every event of a pass reports a held row whose try returned StoredLocally, and there is at most one per row |
| Mesh.Outcomes | app/src/main/java/com/nearby/data/nearby/mesh/MeshManager.kt:530-535 | each tried message id maps to its own try's result, and only tried ids are keys |
| Mesh.TickOneAdded | app/src/main/java/com/nearby/data/nearby/mesh/MeshManager.kt:530-535 | the messages of a destination not yet tried have no outcome yet and are untouched rows for it |
| Mesh.TickOne | app/src/main/java/com/nearby/data/nearby/mesh/MeshManager.kt:530-535 | trying one more destination settles exactly its held rows and keeps every row settled before |
| Mesh.TickEvents | app/src/main/java/com/nearby/data/nearby/mesh/MeshManager.kt:530-535 | after one more destination the new events still report only messages whose outcome was StoredLocally |
| Mesh.Settled | app/src/main/java/com/nearby/data/nearby/mesh/MeshManager.kt:478-507 | the id, destination and payload stay; with no try the row is FAILED and its attempt count unchanged; a direct or routed send makes it DELIVERED |
| Mesh.AfterAttempt | app/src/main/java/com/nearby/data/nearby/mesh/MeshManager.kt:484-507 | the id, destination and payload stay; a direct or routed send makes the row DELIVERED and stamps the attempt; a message held here again is a fresh PENDING copy with no attempts; otherwise the status stays and the attempt is stamped |
| Mesh.MeshManager.constructor | app/src/main/java/com/nearby/data/nearby/mesh/MeshManager.kt:53-75 | not set up, default capabilities, no seen ids or events |
| Mesh.MeshManager.Initialize | app/src/main/java/com/nearby/data/nearby/mesh/MeshManager.kt:80-95 | with a user, the node id is the user's and a fresh table for it exists; capabilities follow the device; nothing is sent |
| Mesh.MeshManager.UpdateCapabilities | app/src/main/java/com/nearby/data/nearby/mesh/MeshManager.kt:558-627 | capabilities become the tier of the readings; a change on a set-up node is sent once to every neighbour with an endpoint |
| Mesh.MeshManager.Broadcast | app/src/main/java/com/nearby/data/nearby/mesh/MeshManager.kt:417-421 | each target with an endpoint is sent the payload exactly once, and no other endpoint is sent anything |
| Mesh.MeshManager.SendMeshMessage | app/src/main/java/com/nearby/data/nearby/mesh/MeshManager.kt:125-201 | before set-up NotInitialized and nothing changes; a seen id AlreadyProcessed and nothing changes; otherwise the id is remembered, the result is `DecideSend` of the lookup, the only send is `OriginSend`'s, and only a StoredLocally result holds a copy and reports it |
| Mesh.MeshManager.SendNew | app/src/main/java/com/nearby/data/nearby/mesh/MeshManager.kt:139-200 | the result is `DecideSend` of the lookup, with the best store node when a store is consulted; the only send is `OriginSend`'s; a StoredLocally result holds the copy and reports it, any other result leaves the rows and events |
| Mesh.MeshManager.HoldOrHandOver | app/src/main/java/com/nearby/data/nearby/mesh/MeshManager.kt:175-200 | held here when this node stores; otherwise handed to the best store node with an endpoint, or NoRoute |
| Mesh.MeshManager.StoreMessageForDelivery | app/src/main/java/com/nearby/data/nearby/mesh/MeshManager.kt:449-473 | the row becomes the held copy and MessageStoredLocally is reported |
| Mesh.MeshManager.SendRouteAck | app/src/main/java/com/nearby/data/nearby/mesh/MeshManager.kt:425-447 | the sends are exactly `AckSends` when the node is set up, and nothing otherwise |
| Mesh.MeshManager.SendTopologyAnnounce | app/src/main/java/com/nearby/data/nearby/mesh/MeshManager.kt:401-423 | without a table or a user nothing is sent; otherwise the announce goes to the given endpoint or once to every neighbour with an endpoint |
| Mesh.MeshManager.ResolveSender | app/src/main/java/com/nearby/data/nearby/mesh/MeshManager.kt:100-108 | a known node whose endpoint is the sender's, and otherwise the endpoint id itself |
| Mesh.MeshManager.ProcessMessage | app/src/main/java/com/nearby/data/nearby/mesh/MeshManager.kt:98-120 | handled exactly when the document parses; a refused document changes nothing; the sender is the known node whose endpoint sent it, else the endpoint id; acks and confirmations are reported, a capabilities update changes nothing, a topology request is answered with an announce to the sending endpoint; an announce updates the table and reports the node count; only an announce changes the table; a fresh routed message is remembered, a duplicate changes nothing |
| Mesh.MeshManager.HandleTopologyAnnounce | app/src/main/java/com/nearby/data/nearby/mesh/MeshManager.kt:240-271 | the table learns the announce; with more than one hop left it is passed on; the known-node count is reported |
| Mesh.MeshManager.PassOnAnnounce | app/src/main/java/com/nearby/data/nearby/mesh/MeshManager.kt:250-268 | one send of the re-stamped announce, one hop fewer, to every neighbour with an endpoint other than the sender and the subject |
| Mesh.MeshManager.HandleRoutedMessage | app/src/main/java/com/nearby/data/nearby/mesh/MeshManager.kt:277-370 | a duplicate or a message before set-up changes nothing; otherwise the id is remembered and `DecideRelay`'s outcome is carried out and acked as `AckFor` says |
| Mesh.MeshManager.CarryOut | app/src/main/java/com/nearby/data/nearby/mesh/MeshManager.kt:298-366 | arrival is reported, a copy goes to the forward endpoint, or the message is held, as the outcome says |
| Mesh.MeshManager.HandleRouteAck | app/src/main/java/com/nearby/data/nearby/mesh/MeshManager.kt:372-380 | the ack is reported as it arrived |
| Mesh.MeshManager.HandleStoreConfirm | app/src/main/java/com/nearby/data/nearby/mesh/MeshManager.kt:382-390 | the confirmation is reported as it arrived |
| Mesh.MeshManager.OnPeerConnected | app/src/main/java/com/nearby/data/nearby/mesh/MeshManager.kt:204-219 | on a set-up node the peer becomes a direct neighbour with a one-hop route and no known capabilities |
| Mesh.MeshManager.OnPeerSettled | app/src/main/java/com/nearby/data/nearby/mesh/MeshManager.kt:221-227 | the node's announce, listing its neighbours, goes to the peer's endpoint first; then exactly the peer's PENDING rows are tried: each row settles as its result says, the sends are `ResentAll` of the tries and the events `StoredEvents`; no other row changes; each try's result is NotInitialized before set-up, AlreadyProcessed only for an id seen before the pass, and otherwise `DecideSend` of its lookup, as `AllTriedAsSent` says try by try; the seen list ends as `SeenAfter` of the tries |
| Mesh.MeshManager.OnPeerDisconnected | app/src/main/java/com/nearby/data/nearby/mesh/MeshManager.kt:233-236 | the peer stops being a neighbour and every route through it goes |
| Mesh.MeshManager.DeliverOne | app/src/main/java/com/nearby/data/nearby/mesh/MeshManager.kt:478-507 | no result exactly when the row has 10 attempts or more; the row becomes `Settled`; the try behaves as `SendMeshMessage` on the row (NotInitialized before set-up, AlreadyProcessed for a seen id, otherwise `DecideSend` and the id remembered); the sends are `Resent` and a StoredLocally result is reported; no other row changes |
| Mesh.MeshManager.Redeliver | app/src/main/java/com/nearby/data/nearby/mesh/MeshManager.kt:484-507 | the row becomes `AfterAttempt` of the send result; the result is NotInitialized before set-up, AlreadyProcessed exactly for a seen id, otherwise `DecideSend` of the lookup with the id remembered; the message is resent under its own id, as `Resent` says |
| Mesh.MeshManager.DeliverStoredMessagesTo | app/src/main/java/com/nearby/data/nearby/mesh/MeshManager.kt:475-509 | exactly the PENDING rows for the destination are tried, oldest first, each once; a row with 10 attempts or more gets no result; every tried row is `Settled` by its result and no other row changes; the sends are `ResentAll` and the events `StoredEvents` of the tries, in order; each try's result is NotInitialized before set-up, AlreadyProcessed only for an id seen before the pass, and otherwise `DecideSend` of its lookup, as `AllTriedAsSent` says try by try; the seen list ends as `SeenAfter` of the tries |
| Mesh.MeshManager.StoreForwardTick | app/src/main/java/com/nearby/data/nearby/mesh/MeshManager.kt:520-538 | rows are first expired and purged; then every PENDING row whose destination has a route is tried and `Settled` by its outcome, with no outcome exactly at 10 attempts or more; every other surviving row is unchanged; the new events report only messages whose outcome was StoredLocally; the tries of the whole pass are returned in order, each the lookup of its own destination, with the sends `ResentAll` of them, the seen list `SeenAfter` of them, and each result NotInitialized before set-up, AlreadyProcessed only for an id seen before the pass, otherwise `DecideSend` of its lookup |
| Mesh.MeshManager.Dispatch | app/src/main/java/com/nearby/data/nearby/mesh/MeshManager.kt:109-116 | per message kind as `ProcessMessage` says; also an announce with more than one hop left goes once to each neighbour with an endpoint other than the sender and the subject, and a fresh routed message is relayed, acked, reported and held as `DecideRelay` and `AckFor` say |
| Mesh.MeshManager.DeliverNext | app/src/main/java/com/nearby/data/nearby/mesh/MeshManager.kt:478-507 | one more turn of the delivery loop: the next row is settled and its sends and events are appended, keeping what the loop has settled, sent and reported so far; the try is added to `AllTriedAsSent` and the seen list to `SeenAfter` of the tries so far |
| Mesh.MeshManager.AllLookupSend | app/src/main/java/com/nearby/data/nearby/mesh/MeshManager.kt:139-170 | every lookup of a delivery pass is the destination's lookup, whatever store node it consulted |
| Mesh.SeenAfter | app/src/main/java/com/nearby/data/nearby/mesh/MeshManager.kt:478-507 | the seen list after a pass of tries stays distinct and within 1000 ids, and holds only ids seen before or of the tried messages |
| Mesh.TriedResults | app/src/main/java/com/nearby/data/nearby/mesh/MeshManager.kt:478-507 | from `AllTriedAsSent`: each try behaves as `SendMeshMessage` given the ids seen before it; a result is NotInitialized before set-up, AlreadyProcessed only for an id seen before the pass, and otherwise `DecideSend` of its lookup |
| Mesh.SeenAfterAppend | app/src/main/java/com/nearby/data/nearby/mesh/MeshManager.kt:520-538 | two passes in a row leave the seen list one pass over both would |
| Mesh.AllTriedAsSentAppend | app/src/main/java/com/nearby/data/nearby/mesh/MeshManager.kt:520-538 | two passes in a row, the second starting from what the first remembered, behave as one pass over both |
| Mesh.ResentAllAppend | app/src/main/java/com/nearby/data/nearby/mesh/MeshManager.kt:520-538 | the sends of two passes in a row are those of one pass over both |
| Mesh.TriesMadeAppend | app/src/main/java/com/nearby/data/nearby/mesh/MeshManager.kt:520-538 | two passes of tries in a row, each from where the previous stopped, are one pass over both for sends, seen ids and results |
| Mesh.OutcomesAppend | app/src/main/java/com/nearby/data/nearby/mesh/MeshManager.kt:530-535 | the outcomes of two passes over distinct messages are those of one pass over both |
| Mesh.TickHeld | app/src/main/java/com/nearby/data/nearby/mesh/MeshManager.kt:530-535 | the rows tried for one more destination are rows of the sweep for it, distinct from every row tried before |
| Mesh.TickedAll | app/src/main/java/com/nearby/data/nearby/mesh/MeshManager.kt:520-538 | once every destination with pending rows has been considered, exactly the pending rows with a reachable destination are settled and every other row is as the sweep left it |
| Mesh.ReachedStep | app/src/main/java/com/nearby/data/nearby/mesh/MeshManager.kt:530-535 | the reachable destinations among the first i + 1 are those among the first i, plus the next one when reachable |
| Mesh.MeshManager.LookupSendIn | app/src/main/java/com/nearby/data/nearby/mesh/MeshManager.kt:139-170 | what a send finds is fixed by the routes, neighbours, peer endpoints and store flag it reads |
| Mesh.MeshManager.LookupsAppend | app/src/main/java/com/nearby/data/nearby/mesh/MeshManager.kt:530-535 | the lookups of a pass, each the lookup of its message's destination, stay so when the next destination's lookups are added |
| Mesh.MeshManager.LookupsNow | app/src/main/java/com/nearby/data/nearby/mesh/MeshManager.kt:530-535 | lookups taken in an unchanged state are what a send to each destination finds now |
| Mesh.MeshManager.TickDestination | app/src/main/java/com/nearby/data/nearby/mesh/MeshManager.kt:530-535 | one more reachable destination of the pass: its pending rows are tried and settled, its tries appended to those of the pass, the earlier ones kept |
| Mesh.MeshManager.ForwardToDestinations | app/src/main/java/com/nearby/data/nearby/mesh/MeshManager.kt:529-535 | each destination with a route is tried in turn: exactly the pending rows with a reachable destination are settled by their outcomes, every other row stays, and the tries of the pass are returned with their sends, seen ids and results as `TriesMade` says |
| Mesh.MeshManager.RouteCleanupTick | app/src/main/java/com/nearby/data/nearby/mesh/MeshManager.kt:549-556 | the table drops its stale routes |
| Heartbeat.HeartbeatConfig.DiscoveryDurationMs | app/src/main/java/com/nearby/data/nearby/mesh/HeartbeatManager.kt:294-324 | a burst takes no time exactly when heartbeats are disabled |
| Heartbeat.HeartbeatConfig.IntervalMs | app/src/main/java/com/nearby/data/nearby/mesh/HeartbeatManager.kt:294-324 | the period is zero exactly when heartbeats are disabled |
| Heartbeat.CalculateConfig | app/src/main/java/com/nearby/data/nearby/mesh/HeartbeatManager.kt:201-228 | disabled exactly below 30%; otherwise each setting holds exactly under its Wi-Fi, charging and battery condition |
| Heartbeat.MoreBatteryNeverSlower | app/src/main/java/com/nearby/data/nearby/mesh/HeartbeatManager.kt:201-228 | more battery, everything else equal, never disables the heartbeat or lengthens its period |
| Heartbeat.InitialStats | app/src/main/java/com/nearby/data/nearby/mesh/HeartbeatManager.kt:329-334 | every counter starts at zero |
| Heartbeat.NewEndpoints | app/src/main/java/com/nearby/data/nearby/mesh/HeartbeatManager.kt:135-138 | exactly the discovered endpoints neither synced nor pending |
| Heartbeat.NewEndpointsCount | app/src/main/java/com/nearby/data/nearby/mesh/HeartbeatManager.kt:135-138 | each kept endpoint appears as often as it was discovered, every other one not at all |
| Heartbeat.NewEndpointsSnoc | app/src/main/java/com/nearby/data/nearby/mesh/HeartbeatManager.kt:135-138 | one more discovered endpoint is added at the end exactly when it is neither synced nor pending |
| Heartbeat.NewEndpointsAppend | app/src/main/java/com/nearby/data/nearby/mesh/HeartbeatManager.kt:135-138 | the filter keeps discovery order: the new endpoints of two lists in a row are those of the first followed by those of the second |
| Heartbeat.SuccessCount | app/src/main/java/com/nearby/data/nearby/mesh/HeartbeatManager.kt:177-185 | no more successes than attempts |
| Heartbeat.SucceededAreTheConnected | app/src/main/java/com/nearby/data/nearby/mesh/HeartbeatManager.kt:177-181 | an attempted endpoint is synced exactly when its request succeeds, and only attempted endpoints are synced |
| Heartbeat.SuccessCountExtremes | app/src/main/java/com/nearby/data/nearby/mesh/HeartbeatManager.kt:182-184 | every attempt counted exactly when all succeed, none when none does |
| Heartbeat.AttemptOneMore | app/src/main/java/com/nearby/data/nearby/mesh/HeartbeatManager.kt:144-146 | one more attempt adds exactly its own outcome to the synced set and the count |
| Heartbeat.BurstAsWritten | app/src/main/java/com/nearby/data/nearby/mesh/HeartbeatManager.kt:144-196 | as written, a burst gets past its connection loop exactly when there was nothing to connect to |
| Heartbeat.BurstAsWrittenStallsAfterFirstEndpoint | app/src/main/java/com/nearby/data/nearby/mesh/HeartbeatManager.kt:176-192 | as written, with two willing endpoints the second is never tried, the first stays pending and the burst is not counted |
| Heartbeat.HeartbeatManager.constructor | app/src/main/java/com/nearby/data/nearby/mesh/HeartbeatManager.kt:74-108 | not running, disabled, zero counters, no synced or pending endpoints |
| Heartbeat.HeartbeatManager.Start | app/src/main/java/com/nearby/data/nearby/mesh/HeartbeatManager.kt:74-95 | the loop runs; a second start changes nothing else |
| Heartbeat.HeartbeatManager.Stop | app/src/main/java/com/nearby/data/nearby/mesh/HeartbeatManager.kt:101-108 | the loop stops and the synced and pending sets are cleared |
| Heartbeat.HeartbeatManager.ClearSyncHistory | app/src/main/java/com/nearby/data/nearby/mesh/HeartbeatManager.kt:286-288 | the synced set is cleared and nothing else |
| Heartbeat.HeartbeatManager.AutoConnectForRelay | app/src/main/java/com/nearby/data/nearby/mesh/HeartbeatManager.kt:165-196 | a success adds the endpoint to the synced set and counts it; afterwards it is not pending |
| Heartbeat.HeartbeatManager.ConnectAll | app/src/main/java/com/nearby/data/nearby/mesh/HeartbeatManager.kt:144-146 | the synced set gains exactly the successful endpoints and the count grows by their number |
| Heartbeat.HeartbeatManager.PerformHeartbeat | app/src/main/java/com/nearby/data/nearby/mesh/HeartbeatManager.kt:113-159 | without a user nothing changes; otherwise the burst is counted and stamped, each new endpoint is tried, and their number is added to the discovered count |
| Heartbeat.HeartbeatManager.Tick | app/src/main/java/com/nearby/data/nearby/mesh/HeartbeatManager.kt:80-93 | a running loop takes the configuration from the readings, bursts unless disabled, and sleeps the period or one minute |

## Left out

- The text layer of both protocols. Documents are JSON values, and UTF-8 encoding and JSON text parsing are not modelled.
- `org.json` coercions. The getters accept only a member of the matching kind; the Android library also converts between strings, numbers and booleans.
- Json.AsText: an array or object read as a string is refused, where `org.json` prints it as JSON text.
- Fractional JSON numbers. Only integers are modelled.
- Json.GetInt, Json.GetLong: a member is taken as an unbounded integer narrowed by wrap-around (`Wrap32`, `Wrap64`). `org.json` reads an integer literal beyond the `Long` range as a `Double`, whose `intValue()` and `longValue()` saturate at the type's bounds instead; the model does not capture that saturation.
- Base64.Decode: strict. Android's `Base64.decode` skips every character outside the alphabet (line breaks, spaces, anything else) and accepts a last group without padding; the model refuses both, so only the round trip is a property of Android's decoder.
- Coroutines, `delay`, cancellation and concurrency. Each periodic loop is one tick method, and concurrent handlers are not interleaved.
- The Android context: battery, charging and Wi-Fi readings, the user repository and service intents are parameters.
- Cryptography, logging and `toString` diagnostics.
- `getAllRoutes`, `getAllKnownNodes`, `getStoreCapableNodes`, `incrementTopologyVersion` and the topology version flow. The version is a change marker only and no decision reads it.
- `observePendingMessages`. It is a flow of a query modelled by `GetPendingMessagesForDestination`.
- `handleCapabilitiesUpdate` and `handleTopologyRequest`. The first changes nothing, and the second is `SendTopologyAnnounce` to the sender.
- `sendPayloadToMultiple`, `acceptConnection`, `rejectConnection`, payload callbacks and the Nearby Connections client itself.
- Nearby.NearbyManager.SendPayload: the outcome of a send is not modelled. The mesh manager never reads it.
- Heartbeat.HeartbeatManager.AutoConnectForRelay: the request completes with its first result. As written the request flow is never closed (see Findings). The `connects` parameter gives the outcome per endpoint id.
- StoredMessages.HashCode: the enum's hash code is a parameter, because the JVM gives it an identity hash.
- StoredMessages.StringHash: it is exact for text in the Basic Multilingual Plane; code points are summed without UTF-16 surrogate pairs.
- StoredMessageStore.StoredMessageDao.GetTotalStoredSize: the SQL `SUM` is not bounded to 64 bits.
- Heartbeat.HeartbeatStats: its counters are unbounded naturals, not 32-bit `Int`s.
- Routing.RoutingTable.FindBestStoreNode: ties between equally ranked store nodes may resolve to any of them. Kotlin's stable `sortedWith(...).firstOrNull()` takes the first in the iteration order of the `ConcurrentHashMap`, which the model does not fix.
- Mesh.MeshManager.Broadcast: the order of the sends is left open, since iteration over a set has no order the model can fix.
- Routing.RoutingTable.ProcessTopologyAnnounce: the learning loop skips the announcer as well as the local node. As written it skips only the local node (see Findings). `LearnAsWrittenDemotesNeighbour` states the behaviour as written.
- Mesh.MeshManager.HandleTopologyAnnounce: it learns through `ProcessTopologyAnnounce`, so it also skips the announcer (see Findings).
- Mesh.MeshManager.ProcessMessage: its contract states the per-kind effects that do not send, plus the topology-request reply. The forwarding of an announce and the relaying of a routed message are stated on `Dispatch`, which it calls with the resolved sender.

## Findings

| source | as written | input that shows it | evidently intended | confidence | as-written member | corrected member |
|---|---|---|---|---|---|---|
| app/src/main/java/com/nearby/data/nearby/mesh/RoutingTable.kt:94-96 | the refresh rule replaces any route whose next hop is the announcer, and the loop skips only the local node, so a relayed announce that lists the announcer itself overwrites the announcer's hop-1 route with a hop-2 route through itself | node C has neighbour B with route (B, via B, 1 hop); B relays X's announce, whose peers include B | a direct neighbour keeps its one-hop route (the announcer is skipped as a learned peer) | high, not executed | Routing.LearnAsWrittenDemotesNeighbour | Routing.LearnPreservesNeighbourRoutes |
| app/src/main/java/com/nearby/data/nearby/mesh/HeartbeatManager.kt:176-192 | `collect` on the callback flow returned by `requestConnection`, which only closes on cancellation, never returns, so the burst stops at the first new endpoint, which stays pending | two newly discovered endpoints that both accept a connection | every new endpoint is tried in turn, each removed from pending once its request completes, and the burst counted | medium, not executed | Heartbeat.BurstAsWrittenStallsAfterFirstEndpoint | Heartbeat.HeartbeatManager.PerformHeartbeat |
