/**
 * The record a store-and-forward node keeps for a message it holds on
 * behalf of an offline destination, with its delivery status, and the
 * JVM `equals`/`hashCode` of that record.
 */
module StoredMessages {
  import opened Wrappers
  import opened JavaInt

  /** The life cycle of a held message. */
  datatype StoredMessageStatus = Pending | Delivering | Delivered | Expired | Failed {
    function Name(): string
    {
      match this
      case Pending => "PENDING"
      case Delivering => "DELIVERING"
      case Delivered => "DELIVERED"
      case Expired => "EXPIRED"
      case Failed => "FAILED"
    }

    /** Delivered, expired and failed records are finished and may be purged. */
    predicate IsCompleted()
    {
      this == Delivered || this == Expired || this == Failed
    }
  }

  datatype StoredMessageEntity = StoredMessageEntity(
    messageId: string,
    originalSender: string,
    finalDestination: string,
    payload: seq<Byte>,
    originalTimestamp: Int64,
    storedAt: Int64,
    expiresAt: Int64,
    deliveryAttempts: Int32,
    lastDeliveryAttempt: Option<Int64>,
    status: StoredMessageStatus)

  /** A new record: no attempts yet, no last attempt, waiting for its destination. */
  function NewStoredMessage(messageId: string, originalSender: string, finalDestination: string,
                            payload: seq<Byte>, originalTimestamp: Int64, storedAt: Int64,
                            expiresAt: Int64): (r: StoredMessageEntity)
    ensures r.messageId == messageId && r.originalSender == originalSender && r.finalDestination == finalDestination
    ensures r.payload == payload && r.originalTimestamp == originalTimestamp
    ensures r.storedAt == storedAt && r.expiresAt == expiresAt
    ensures r.deliveryAttempts == 0 && r.lastDeliveryAttempt.None? && r.status == Pending
  {
    StoredMessageEntity(messageId, originalSender, finalDestination, payload, originalTimestamp,
                        storedAt, expiresAt, 0, None, Pending)
  }

  /** `equals`: the ten fields compared one by one, the payload by content. */
  predicate ContentEquals(a: StoredMessageEntity, b: StoredMessageEntity)
  {
    a.messageId == b.messageId &&
    a.originalSender == b.originalSender &&
    a.finalDestination == b.finalDestination &&
    |a.payload| == |b.payload| && (forall i :: 0 <= i < |a.payload| ==> a.payload[i] == b.payload[i]) &&
    a.originalTimestamp == b.originalTimestamp &&
    a.storedAt == b.storedAt &&
    a.expiresAt == b.expiresAt &&
    a.deliveryAttempts == b.deliveryAttempts &&
    a.lastDeliveryAttempt == b.lastDeliveryAttempt &&
    a.status == b.status
  }

  /** Field-by-field equality is exactly equality of records. */
  lemma ContentEqualsIsEquality(a: StoredMessageEntity, b: StoredMessageEntity)
    ensures ContentEquals(a, b) <==> a == b
  {
    if ContentEquals(a, b) {
      assert a.payload == b.payload;
    }
  }

  // ------------------------------------------------------------ JVM hashes

  /** `String.hashCode`: h = 31 * h + c over the characters, in 32-bit arithmetic. */
  function StringHash(s: string): (h: int)
    ensures IsInt32(h)
    ensures s == [] ==> h == 0
  {
    if s == [] then 0
    else Wrap32(31 * StringHash(s[..|s| - 1]) + s[|s| - 1] as int)
  }

  /** `ByteArray.contentHashCode`: starts at 1, adds each byte as a signed value. */
  function BytesHash(bs: seq<Byte>): (h: int)
    ensures IsInt32(h)
    ensures bs == [] ==> h == 1
  {
    if bs == [] then 1
    else Wrap32(31 * BytesHash(bs[..|bs| - 1]) + Signed(bs[|bs| - 1]))
  }

  /** `Long.hashCode`: the two 32-bit halves exclusive-or'ed, read as a signed `Int`. */
  function LongHash(v: Int64): (h: int)
    ensures IsInt32(h)
  {
    var unsigned := if v < 0 then v + 0x1_0000_0000_0000_0000 else v;
    assert IsInt64(v) && 0 <= unsigned < 0x1_0000_0000_0000_0000;
    var u: bv64 := unsigned as bv64;
    var low := ((u ^ (u >> 32)) & 0xFFFF_FFFF) as int;
    Wrap32(low)
  }

  /** One step of the generated `hashCode`: `31 * result + h`. */
  function Mix(acc: int, h: int): (r: int)
    ensures IsInt32(r)
  {
    Wrap32(31 * acc + h)
  }

  /**
   * The record's `hashCode`. The status enum's hash is `Object.hashCode`,
   * an identity hash the JVM chooses per run; it is the parameter `statusHash`.
   */
  function HashCode(e: StoredMessageEntity, statusHash: StoredMessageStatus -> Int32): (h: int)
    ensures IsInt32(h)
  {
    var h0 := StringHash(e.messageId);
    var h1 := Mix(h0, StringHash(e.originalSender));
    var h2 := Mix(h1, StringHash(e.finalDestination));
    var h3 := Mix(h2, BytesHash(e.payload));
    var h4 := Mix(h3, LongHash(e.originalTimestamp));
    var h5 := Mix(h4, LongHash(e.storedAt));
    var h6 := Mix(h5, LongHash(e.expiresAt));
    var h7 := Mix(h6, e.deliveryAttempts);
    var h8 := Mix(h7, if e.lastDeliveryAttempt.Some? then LongHash(e.lastDeliveryAttempt.value) else 0);
    Mix(h8, statusHash(e.status))
  }

  /** Records that are `equals` have the same `hashCode`. */
  lemma HashAgreesWithEquals(a: StoredMessageEntity, b: StoredMessageEntity, statusHash: StoredMessageStatus -> Int32)
    requires ContentEquals(a, b)
    ensures HashCode(a, statusHash) == HashCode(b, statusHash)
  {
    ContentEqualsIsEquality(a, b);
  }
}
