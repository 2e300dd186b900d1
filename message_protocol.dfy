/**
 * The direct (one-hop) chat codec: seven type codes 1..7, each message a
 * JSON object. Builders produce the JSON value that the source serialises;
 * `ParseMessage` reads one back. Where a builder stamps the clock, the
 * reading is the parameter `now`.
 */
module MessageProtocol {
  import opened Wrappers
  import opened JavaInt
  import opened Json
  import Base64

  const TYPE_HANDSHAKE_INIT: int := 1
  const TYPE_HANDSHAKE_RESPONSE: int := 2
  const TYPE_MESSAGE: int := 3
  const TYPE_DELIVERY_RECEIPT: int := 4
  const TYPE_READ_RECEIPT: int := 5
  const TYPE_TYPING_INDICATOR: int := 6
  const TYPE_DISCONNECT: int := 7

  /** The protocol version a handshake announces. */
  const HANDSHAKE_VERSION: int := 1

  /** A decoded chat message (`ParsedMessage`). */
  datatype ParsedMessage =
    | HandshakeInit(peerId: string, displayName: string, publicKey: seq<Byte>, timestamp: Int64, version: Int32)
    | HandshakeResponse(peerId: string, displayName: string, publicKey: seq<Byte>, accepted: bool, timestamp: Int64)
    | PlainMessage(id: string, senderId: string, content: string, timestamp: Int64)
    | EncryptedMessage(id: string, senderId: string, encryptedContent: seq<Byte>, timestamp: Int64)
    | DeliveryReceipt(messageId: string, timestamp: Int64)
    | ReadReceipt(messageIds: seq<string>, timestamp: Int64)
    | Disconnect(peerId: string, timestamp: Int64)
  {
    /** The wire discriminator of this kind; plain and encrypted messages share 3. */
    function TypeCode(): (t: int)
      ensures 1 <= t <= 7 && t != TYPE_TYPING_INDICATOR
    {
      match this
      case HandshakeInit(_, _, _, _, _) => TYPE_HANDSHAKE_INIT
      case HandshakeResponse(_, _, _, _, _) => TYPE_HANDSHAKE_RESPONSE
      case PlainMessage(_, _, _, _) => TYPE_MESSAGE
      case EncryptedMessage(_, _, _, _) => TYPE_MESSAGE
      case DeliveryReceipt(_, _) => TYPE_DELIVERY_RECEIPT
      case ReadReceipt(_, _) => TYPE_READ_RECEIPT
      case Disconnect(_, _) => TYPE_DISCONNECT
    }
  }

  // ---------------------------------------------------------------- builders

  function CreateHandshakeInit(peerId: string, displayName: string, publicKey: seq<Byte>, now: Int64): (r: Json)
    ensures r.JObj? && r.members.Keys == {"type", "peerId", "displayName", "publicKey", "timestamp", "version"}
    ensures r.members["version"] == JNum(HANDSHAKE_VERSION)
  {
    JObj(map[
      "type" := JNum(TYPE_HANDSHAKE_INIT),
      "peerId" := JStr(peerId),
      "displayName" := JStr(displayName),
      "publicKey" := JStr(Base64.Encode(publicKey)),
      "timestamp" := JNum(now),
      "version" := JNum(HANDSHAKE_VERSION)])
  }

  function CreateHandshakeResponse(peerId: string, displayName: string, publicKey: seq<Byte>,
                                   accepted: bool, now: Int64): (r: Json)
    ensures r.JObj? && r.members.Keys == {"type", "peerId", "displayName", "publicKey", "accepted", "timestamp"}
  {
    JObj(map[
      "type" := JNum(TYPE_HANDSHAKE_RESPONSE),
      "peerId" := JStr(peerId),
      "displayName" := JStr(displayName),
      "publicKey" := JStr(Base64.Encode(publicKey)),
      "accepted" := JBool(accepted),
      "timestamp" := JNum(now)])
  }

  /** A plain-text message; the caller supplies its timestamp. */
  function CreateMessage(messageId: string, senderId: string, content: string, timestamp: Int64): (r: Json)
    ensures r.JObj? && r.members.Keys == {"type", "id", "senderId", "content", "timestamp"}
    ensures "encrypted" !in r.members
  {
    JObj(map[
      "type" := JNum(TYPE_MESSAGE),
      "id" := JStr(messageId),
      "senderId" := JStr(senderId),
      "content" := JStr(content),
      "timestamp" := JNum(timestamp)])
  }

  /** An encrypted message: the same type code as a plain one, told apart by `encrypted`. */
  function CreateEncryptedMessage(messageId: string, senderId: string, encryptedContent: seq<Byte>,
                                  timestamp: Int64): (r: Json)
    ensures r.JObj? && r.members.Keys == {"type", "id", "senderId", "encryptedContent", "encrypted", "timestamp"}
    ensures r.members["type"] == JNum(TYPE_MESSAGE) && r.members["encrypted"] == JBool(true)
  {
    JObj(map[
      "type" := JNum(TYPE_MESSAGE),
      "id" := JStr(messageId),
      "senderId" := JStr(senderId),
      "encryptedContent" := JStr(Base64.Encode(encryptedContent)),
      "encrypted" := JBool(true),
      "timestamp" := JNum(timestamp)])
  }

  function CreateDeliveryReceipt(messageId: string, now: Int64): (r: Json)
    ensures r.JObj? && r.members.Keys == {"type", "messageId", "timestamp"}
  {
    JObj(map["type" := JNum(TYPE_DELIVERY_RECEIPT), "messageId" := JStr(messageId), "timestamp" := JNum(now)])
  }

  function CreateReadReceipt(messageIds: seq<string>, now: Int64): (r: Json)
    ensures r.JObj? && r.members.Keys == {"type", "messageIds", "timestamp"}
    ensures r.members["messageIds"].JArr? && |r.members["messageIds"].items| == |messageIds|
  {
    JObj(map["type" := JNum(TYPE_READ_RECEIPT), "messageIds" := StringArray(messageIds), "timestamp" := JNum(now)])
  }

  function CreateDisconnect(peerId: string, now: Int64): (r: Json)
    ensures r.JObj? && r.members.Keys == {"type", "peerId", "timestamp"}
  {
    JObj(map["type" := JNum(TYPE_DISCONNECT), "peerId" := JStr(peerId), "timestamp" := JNum(now)])
  }

  // ------------------------------------------------------------------ parser

  /**
   * `parseMessage`: `type` is read with `getInt`, so a missing or
   * non-numeric one fails; codes other than 1..5 and 7 (the typing
   * indicator 6 included) yield None, as does every case where the source
   * throws (a missing required member, a key that is not Base64).
   */
  function ParseMessage(doc: Json): (r: Option<ParsedMessage>)
    ensures r.Some? ==> GetInt(doc, "type") == Some(r.value.TypeCode())
    ensures GetInt(doc, "type").None? ==> r.None?
    ensures GetInt(doc, "type") == Some(TYPE_TYPING_INDICATOR) ==> r.None?
  {
    var t :- GetInt(doc, "type");
    if t == TYPE_HANDSHAKE_INIT then ParseHandshakeInit(doc)
    else if t == TYPE_HANDSHAKE_RESPONSE then ParseHandshakeResponse(doc)
    else if t == TYPE_MESSAGE then ParseChatMessage(doc)
    else if t == TYPE_DELIVERY_RECEIPT then ParseDeliveryReceipt(doc)
    else if t == TYPE_READ_RECEIPT then ParseReadReceipt(doc)
    else if t == TYPE_DISCONNECT then ParseDisconnect(doc)
    else None
  }

  function ParseHandshakeInit(doc: Json): (r: Option<ParsedMessage>)
    ensures r.Some? ==> r.value.HandshakeInit?
    ensures r.Some? && Member(doc, "version").None? ==> r.value.version == HANDSHAKE_VERSION
  {
    var peerId :- GetString(doc, "peerId");
    var name :- GetString(doc, "displayName");
    var keyText :- GetString(doc, "publicKey");
    var key :- Base64.Decode(keyText);
    var ts :- GetLong(doc, "timestamp");
    Some(HandshakeInit(peerId, name, key, ts, OptInt(doc, "version", HANDSHAKE_VERSION)))
  }

  function ParseHandshakeResponse(doc: Json): (r: Option<ParsedMessage>)
    ensures r.Some? ==> r.value.HandshakeResponse? && GetBoolean(doc, "accepted") == Some(r.value.accepted)
  {
    var peerId :- GetString(doc, "peerId");
    var name :- GetString(doc, "displayName");
    var keyText :- GetString(doc, "publicKey");
    var key :- Base64.Decode(keyText);
    var accepted :- GetBoolean(doc, "accepted");
    var ts :- GetLong(doc, "timestamp");
    Some(HandshakeResponse(peerId, name, key, accepted, ts))
  }

  /** Type 3: the `encrypted` flag (false when absent) selects the variant. */
  function ParseChatMessage(doc: Json): (r: Option<ParsedMessage>)
    ensures r.Some? ==> (r.value.EncryptedMessage? <==> OptBoolean(doc, "encrypted", false))
    ensures r.Some? ==> r.value.PlainMessage? || r.value.EncryptedMessage?
  {
    var id :- GetString(doc, "id");
    var sender :- GetString(doc, "senderId");
    if OptBoolean(doc, "encrypted", false) then
      var text :- GetString(doc, "encryptedContent");
      var content :- Base64.Decode(text);
      var ts :- GetLong(doc, "timestamp");
      Some(EncryptedMessage(id, sender, content, ts))
    else
      var content :- GetString(doc, "content");
      var ts :- GetLong(doc, "timestamp");
      Some(PlainMessage(id, sender, content, ts))
  }

  function ParseDeliveryReceipt(doc: Json): (r: Option<ParsedMessage>)
    ensures r.Some? ==> r.value.DeliveryReceipt? && GetString(doc, "messageId") == Some(r.value.messageId)
  {
    var id :- GetString(doc, "messageId");
    var ts :- GetLong(doc, "timestamp");
    Some(DeliveryReceipt(id, ts))
  }

  function ParseReadReceipt(doc: Json): (r: Option<ParsedMessage>)
    ensures r.Some? ==> r.value.ReadReceipt? && GetArray(doc, "messageIds").Some?
    ensures r.Some? ==> |r.value.messageIds| == |GetArray(doc, "messageIds").value|
    ensures r.Some? ==> Some(r.value.messageIds) == ArrayStrings(GetArray(doc, "messageIds").value)
  {
    var items :- GetArray(doc, "messageIds");
    var ids :- ArrayStrings(items);
    var ts :- GetLong(doc, "timestamp");
    Some(ReadReceipt(ids, ts))
  }

  function ParseDisconnect(doc: Json): (r: Option<ParsedMessage>)
    ensures r.Some? ==> r.value.Disconnect? && GetString(doc, "peerId") == Some(r.value.peerId)
  {
    var peerId :- GetString(doc, "peerId");
    var ts :- GetLong(doc, "timestamp");
    Some(Disconnect(peerId, ts))
  }

  // ---------------------------------------------------------------- lemmas

  /** A built handshake decodes with every field, and version 1. */
  lemma HandshakeInitRoundTrip(peerId: string, displayName: string, publicKey: seq<Byte>, now: Int64)
    ensures ParseMessage(CreateHandshakeInit(peerId, displayName, publicKey, now))
         == Some(HandshakeInit(peerId, displayName, publicKey, now, HANDSHAKE_VERSION))
  {
    var doc := CreateHandshakeInit(peerId, displayName, publicKey, now);
    HandshakeInitFields(peerId, displayName, publicKey, now);
    Base64.RoundTrip(publicKey);
    assert ParseHandshakeInit(doc) == Some(HandshakeInit(peerId, displayName, publicKey, now, HANDSHAKE_VERSION));
  }

  lemma HandshakeInitFields(peerId: string, displayName: string, publicKey: seq<Byte>, now: Int64)
    ensures var doc := CreateHandshakeInit(peerId, displayName, publicKey, now);
      GetInt(doc, "type") == Some(TYPE_HANDSHAKE_INIT) &&
      GetString(doc, "peerId") == Some(peerId) && GetString(doc, "displayName") == Some(displayName) &&
      GetString(doc, "publicKey") == Some(Base64.Encode(publicKey)) &&
      GetLong(doc, "timestamp") == Some(now) && OptInt(doc, "version", HANDSHAKE_VERSION) == HANDSHAKE_VERSION
  {
  }

  lemma HandshakeResponseRoundTrip(peerId: string, displayName: string, publicKey: seq<Byte>, accepted: bool, now: Int64)
    ensures ParseMessage(CreateHandshakeResponse(peerId, displayName, publicKey, accepted, now))
         == Some(HandshakeResponse(peerId, displayName, publicKey, accepted, now))
  {
    var doc := CreateHandshakeResponse(peerId, displayName, publicKey, accepted, now);
    HandshakeResponseFields(peerId, displayName, publicKey, accepted, now);
    Base64.RoundTrip(publicKey);
    assert ParseHandshakeResponse(doc) == Some(HandshakeResponse(peerId, displayName, publicKey, accepted, now));
  }

  lemma HandshakeResponseFields(peerId: string, displayName: string, publicKey: seq<Byte>, accepted: bool, now: Int64)
    ensures var doc := CreateHandshakeResponse(peerId, displayName, publicKey, accepted, now);
      GetInt(doc, "type") == Some(TYPE_HANDSHAKE_RESPONSE) &&
      GetString(doc, "peerId") == Some(peerId) && GetString(doc, "displayName") == Some(displayName) &&
      GetString(doc, "publicKey") == Some(Base64.Encode(publicKey)) &&
      GetBoolean(doc, "accepted") == Some(accepted) && GetLong(doc, "timestamp") == Some(now)
  {
  }

  /** `createMessage` decodes as a plain message. */
  lemma PlainMessageRoundTrip(id: string, senderId: string, content: string, timestamp: Int64)
    ensures ParseMessage(CreateMessage(id, senderId, content, timestamp))
         == Some(PlainMessage(id, senderId, content, timestamp))
  {
  }

  /** `createEncryptedMessage` shares type 3 but decodes as an encrypted message. */
  lemma EncryptedMessageRoundTrip(id: string, senderId: string, content: seq<Byte>, timestamp: Int64)
    ensures ParseMessage(CreateEncryptedMessage(id, senderId, content, timestamp))
         == Some(EncryptedMessage(id, senderId, content, timestamp))
  {
    var doc := CreateEncryptedMessage(id, senderId, content, timestamp);
    EncryptedMessageFields(id, senderId, content, timestamp);
    Base64.RoundTrip(content);
    assert ParseChatMessage(doc) == Some(EncryptedMessage(id, senderId, content, timestamp));
  }

  lemma EncryptedMessageFields(id: string, senderId: string, content: seq<Byte>, timestamp: Int64)
    ensures var doc := CreateEncryptedMessage(id, senderId, content, timestamp);
      GetInt(doc, "type") == Some(TYPE_MESSAGE) &&
      GetString(doc, "id") == Some(id) && GetString(doc, "senderId") == Some(senderId) &&
      OptBoolean(doc, "encrypted", false) &&
      GetString(doc, "encryptedContent") == Some(Base64.Encode(content)) &&
      GetLong(doc, "timestamp") == Some(timestamp)
  {
  }

  lemma DeliveryReceiptRoundTrip(messageId: string, now: Int64)
    ensures ParseMessage(CreateDeliveryReceipt(messageId, now)) == Some(DeliveryReceipt(messageId, now))
  {
  }

  /** The receipt's ids come back in the order they were given. */
  lemma ReadReceiptRoundTrip(messageIds: seq<string>, now: Int64)
    ensures ParseMessage(CreateReadReceipt(messageIds, now)) == Some(ReadReceipt(messageIds, now))
  {
    var doc := CreateReadReceipt(messageIds, now);
    ArrayStringsRoundTrip(messageIds);
    assert GetArray(doc, "messageIds") == Some(StringArray(messageIds).items);
  }

  lemma DisconnectRoundTrip(peerId: string, now: Int64)
    ensures ParseMessage(CreateDisconnect(peerId, now)) == Some(Disconnect(peerId, now))
  {
  }

  /** A handshake without `version` decodes with version 1. */
  lemma HandshakeVersionDefaultsToOne(doc: Json)
    requires GetInt(doc, "type") == Some(TYPE_HANDSHAKE_INIT)
    requires Member(doc, "version").None?
    requires ParseMessage(doc).Some?
    ensures ParseMessage(doc).value.version == HANDSHAKE_VERSION
  {
  }
}
