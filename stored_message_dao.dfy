/**
 * The `stored_messages` table and the queries run against it. The table is
 * a map from primary key (`messageId`) to row; each query is a method of
 * `StoredMessageDao` and each table update is stated by a function of the
 * rows before it. Where a query defaults its time argument to the clock,
 * the reading is the parameter `now`.
 */
module StoredMessageStore {
  import opened Wrappers
  import opened JavaInt
  import opened StoredMessages

  type Rows = map<string, StoredMessageEntity>

  /** The primary key of every row is its `messageId`. */
  predicate KeyedById(rows: Rows)
  {
    forall id :: id in rows ==> rows[id].messageId == id
  }

  /** `m` is one of the rows of the table. */
  predicate IsRow(rows: Rows, m: StoredMessageEntity)
  {
    m.messageId in rows && rows[m.messageId] == m
  }

  /** The keys of the PENDING rows. */
  function PendingIds(rows: Rows): (ids: set<string>)
    ensures ids <= rows.Keys
    ensures forall id :: id in ids <==> id in rows && rows[id].status == Pending
  {
    set id | id in rows && rows[id].status == Pending
  }

  // ------------------------------------------------------- table updates

  /** `UPDATE ... SET status = :status WHERE messageId = :messageId`. */
  function WithStatus(rows: Rows, id: string, status: StoredMessageStatus): (r: Rows)
    ensures r.Keys == rows.Keys
    ensures id in rows ==> r[id] == rows[id].(status := status)
    ensures forall k :: k in rows && k != id ==> r[k] == rows[k]
    ensures KeyedById(rows) ==> KeyedById(r)
  {
    if id in rows then rows[id := rows[id].(status := status)] else rows
  }

  /** `deliveryAttempts = deliveryAttempts + 1, lastDeliveryAttempt = :timestamp` on one row, read back as an `Int`. */
  function WithAttempt(rows: Rows, id: string, timestamp: Int64): (r: Rows)
    ensures r.Keys == rows.Keys
    ensures id in rows ==> r[id] == rows[id].(deliveryAttempts := Wrap32(rows[id].deliveryAttempts + 1),
                                              lastDeliveryAttempt := Some(timestamp))
    ensures forall k :: k in rows && k != id ==> r[k] == rows[k]
    ensures id !in rows ==> r == rows
    ensures KeyedById(rows) ==> KeyedById(r)
  {
    if id in rows then
      rows[id := rows[id].(deliveryAttempts := Wrap32(rows[id].deliveryAttempts + 1),
                           lastDeliveryAttempt := Some(timestamp))]
    else rows
  }

  /** A row that `markExpiredMessages(now)` touches: PENDING and past its expiry (strictly). */
  predicate ExpiresBefore(m: StoredMessageEntity, now: Int64)
  {
    m.status == Pending && m.expiresAt < now
  }

  function MarkExpired(rows: Rows, now: Int64): (r: Rows)
  {
    map id | id in rows :: if ExpiresBefore(rows[id], now) then rows[id].(status := Expired) else rows[id]
  }

  function WithoutCompleted(rows: Rows): (r: Rows)
  {
    map id | id in rows && !rows[id].status.IsCompleted() :: rows[id]
  }

  function WithoutExpired(rows: Rows, now: Int64): (r: Rows)
    ensures forall id :: id in r <==> id in rows && !(rows[id].expiresAt < now)
    ensures forall id :: id in r ==> r[id] == rows[id]
  {
    map id | id in rows && !(rows[id].expiresAt < now) :: rows[id]
  }

  function WithoutDestination(rows: Rows, destinationId: string): (r: Rows)
    ensures forall id :: id in r <==> id in rows && rows[id].finalDestination != destinationId
    ensures forall id :: id in r ==> r[id] == rows[id]
  {
    map id | id in rows && rows[id].finalDestination != destinationId :: rows[id]
  }

  /**
   * Marking expiry changes exactly the PENDING rows whose expiry is before
   * `now`, and only their status; afterwards no PENDING row is past expiry,
   * and the PENDING rows are those that were PENDING and not past it.
   */
  lemma MarkExpiredSpec(rows: Rows, now: Int64)
    requires KeyedById(rows)
    ensures var r := MarkExpired(rows, now);
            r.Keys == rows.Keys && KeyedById(r) &&
            (forall id :: id in rows && ExpiresBefore(rows[id], now) ==> r[id] == rows[id].(status := Expired)) &&
            (forall id :: id in rows && !ExpiresBefore(rows[id], now) ==> r[id] == rows[id]) &&
            (forall id :: id in r ==> !ExpiresBefore(r[id], now)) &&
            PendingIds(r) == set id | id in PendingIds(rows) && !(rows[id].expiresAt < now)
  {
  }

  /** Clean-up deletes exactly the DELIVERED, EXPIRED and FAILED rows; PENDING ones are all kept. */
  lemma CleanupSpec(rows: Rows)
    requires KeyedById(rows)
    ensures var r := WithoutCompleted(rows);
            KeyedById(r) &&
            (forall id :: id in r <==> id in rows && (rows[id].status == Pending || rows[id].status == Delivering)) &&
            (forall id :: id in r ==> r[id] == rows[id]) &&
            PendingIds(r) == PendingIds(rows)
  {
  }

  /** REPLACE on an existing key overwrites the old row, attempts and status included. */
  lemma ReinsertResetsAttempts(rows: Rows, m: StoredMessageEntity, originalSender: string, payload: seq<Byte>,
                               originalTimestamp: Int64, storedAt: Int64, expiresAt: Int64)
    requires m.messageId in rows
    ensures var renewed := NewStoredMessage(m.messageId, originalSender, m.finalDestination, payload,
                                          originalTimestamp, storedAt, expiresAt);
            var r := rows[m.messageId := renewed];
            r[m.messageId].deliveryAttempts == 0 && r[m.messageId].status == Pending &&
            r.Keys == rows.Keys
  {
  }

  // --------------------------------------------------------- sorted lists

  predicate SortedBy(s: seq<StoredMessageEntity>, key: StoredMessageEntity -> int)
  {
    forall i, j :: 0 <= i < j < |s| ==> key(s[i]) <= key(s[j])
  }

  predicate DistinctIds(s: seq<StoredMessageEntity>)
  {
    forall i, j :: 0 <= i < j < |s| ==> s[i].messageId != s[j].messageId
  }

  /** Where `m` goes in a list sorted by `key`: after every element that does not sort after it. */
  function InsertPosition(s: seq<StoredMessageEntity>, m: StoredMessageEntity, key: StoredMessageEntity -> int): (p: nat)
    requires SortedBy(s, key)
    ensures p <= |s|
    ensures forall i :: 0 <= i < p ==> key(s[i]) <= key(m)
    ensures forall i :: p <= i < |s| ==> key(m) < key(s[i])
  {
    if s == [] || key(m) < key(s[0]) then 0
    else 1 + InsertPosition(s[1..], m, key)
  }

  /** `s` with `m` inserted in key order. */
  function InsertSorted(s: seq<StoredMessageEntity>, m: StoredMessageEntity, key: StoredMessageEntity -> int)
    : (r: seq<StoredMessageEntity>)
    requires SortedBy(s, key)
    ensures SortedBy(r, key)
    ensures forall x :: x in r <==> x in s || x == m
    ensures DistinctIds(s) && (forall x :: x in s ==> x.messageId != m.messageId) ==> DistinctIds(r)
  {
    var p := InsertPosition(s, m, key);
    InsertKeepsSorted(s, m, key, p);
    InsertMembers(s, m, p);
    InsertKeepsDistinct(s, m, p);
    s[..p] + [m] + s[p..]
  }

  lemma InsertKeepsSorted(s: seq<StoredMessageEntity>, m: StoredMessageEntity, key: StoredMessageEntity -> int, p: nat)
    requires SortedBy(s, key) && p <= |s|
    requires forall i :: 0 <= i < p ==> key(s[i]) <= key(m)
    requires forall i :: p <= i < |s| ==> key(m) < key(s[i])
    ensures SortedBy(s[..p] + [m] + s[p..], key)
  {
    var r := s[..p] + [m] + s[p..];
    forall i, j | 0 <= i < j < |r| ensures key(r[i]) <= key(r[j]) {
      var i' := if i < p then i else i - 1;
      var j' := if j < p then j else j - 1;
      if i == p {
        assert r[j] == s[j'];
      } else if j == p {
        assert r[i] == s[i'];
      } else {
        assert r[i] == s[i'] && r[j] == s[j'] && i' < j';
      }
    }
  }

  lemma InsertMembers(s: seq<StoredMessageEntity>, m: StoredMessageEntity, p: nat)
    requires p <= |s|
    ensures forall x :: x in s[..p] + [m] + s[p..] <==> x in s || x == m
  {
    assert s == s[..p] + s[p..];
  }

  /** Putting a row with a fresh id anywhere into a list of distinct ids keeps them distinct. */
  lemma InsertKeepsDistinct(s: seq<StoredMessageEntity>, m: StoredMessageEntity, p: nat)
    requires p <= |s|
    ensures DistinctIds(s) && (forall x :: x in s ==> x.messageId != m.messageId) ==> DistinctIds(s[..p] + [m] + s[p..])
  {
    var r := s[..p] + [m] + s[p..];
    if DistinctIds(s) && (forall x :: x in s ==> x.messageId != m.messageId) {
      forall i, j | 0 <= i < j < |r| ensures r[i].messageId != r[j].messageId {
        if i == p {
          assert r[j] == s[j - 1] && s[j - 1] in s;
        } else if j == p {
          assert r[i] == s[i] && s[i] in s;
        } else {
          var i' := if i < p then i else i - 1;
          var j' := if j < p then j else j - 1;
          assert r[i] == s[i'] && r[j] == s[j'] && i' < j';
        }
      }
    }
  }

  // ---------------------------------------------------------- the table

  class StoredMessageDao {
    var rows: Rows

    predicate Valid()
      reads this
    {
      KeyedById(rows)
    }

    constructor()
      ensures Valid() && rows == map[]
    {
      rows := map[];
    }

    /** `@Insert(onConflict = REPLACE)`: the row with that key, if any, is replaced whole. */
    method InsertStoredMessage(message: StoredMessageEntity)
      requires Valid()
      modifies this
      ensures Valid()
      ensures rows == old(rows)[message.messageId := message]
    {
      rows := rows[message.messageId := message];
    }

    /** `@Update`: overwrites the row with the same key; nothing happens if there is none. */
    method UpdateStoredMessage(message: StoredMessageEntity)
      requires Valid()
      modifies this
      ensures Valid()
      ensures message.messageId in old(rows) ==> rows == old(rows)[message.messageId := message]
      ensures message.messageId !in old(rows) ==> rows == old(rows)
    {
      if message.messageId in rows {
        rows := rows[message.messageId := message];
      }
    }

    function GetStoredMessageById(messageId: string): (r: Option<StoredMessageEntity>)
      reads this
      ensures r.Some? <==> messageId in rows
      ensures r.Some? ==> IsRow(rows, r.value) || !Valid()
    {
      if messageId in rows then Some(rows[messageId]) else None
    }

    method UpdateStatus(messageId: string, status: StoredMessageStatus)
      requires Valid()
      modifies this
      ensures Valid()
      ensures rows == WithStatus(old(rows), messageId, status)
    {
      rows := WithStatus(rows, messageId, status);
    }

    method IncrementDeliveryAttempts(messageId: string, timestamp: Int64)
      requires Valid()
      modifies this
      ensures Valid()
      ensures rows == WithAttempt(old(rows), messageId, timestamp)
    {
      rows := WithAttempt(rows, messageId, timestamp);
    }

    method DeleteStoredMessage(messageId: string)
      requires Valid()
      modifies this
      ensures Valid()
      ensures rows == old(rows) - {messageId}
    {
      rows := rows - {messageId};
    }

    method DeleteStoredMessagesForDestination(destinationId: string)
      requires Valid()
      modifies this
      ensures Valid()
      ensures rows == WithoutDestination(old(rows), destinationId)
    {
      rows := WithoutDestination(rows, destinationId);
    }

    /** `DELETE ... WHERE expiresAt < :currentTime`, whatever the status. */
    method DeleteExpiredMessages(now: Int64)
      requires Valid()
      modifies this
      ensures Valid()
      ensures rows == WithoutExpired(old(rows), now)
    {
      rows := WithoutExpired(rows, now);
    }

    method MarkExpiredMessages(now: Int64)
      requires Valid()
      modifies this
      ensures Valid()
      ensures rows == MarkExpired(old(rows), now)
    {
      MarkExpiredSpec(rows, now);
      rows := MarkExpired(rows, now);
    }

    method CleanupCompletedMessages()
      requires Valid()
      modifies this
      ensures Valid()
      ensures rows == WithoutCompleted(old(rows))
    {
      CleanupSpec(rows);
      rows := WithoutCompleted(rows);
    }

    /** `SELECT COUNT(*) ... WHERE status = 'PENDING'`. */
    function GetPendingMessageCount(): (n: nat)
      reads this
      ensures n == |PendingIds(rows)|
      ensures n == 0 <==> forall id :: id in rows ==> rows[id].status != Pending
    {
      |PendingIds(rows)|
    }

    /**
     * The rows that satisfy `keep`, each once, ordered by `key` (rows with
     * equal keys in no particular order).
     */
    method Select(keep: StoredMessageEntity -> bool, key: StoredMessageEntity -> int)
      returns (r: seq<StoredMessageEntity>)
      requires Valid()
      ensures forall m :: m in r <==> IsRow(rows, m) && keep(m)
      ensures SortedBy(r, key) && DistinctIds(r)
    {
      r := [];
      var remaining := rows.Keys;
      while remaining != {}
        invariant remaining <= rows.Keys
        invariant forall m :: m in r <==> IsRow(rows, m) && m.messageId !in remaining && keep(m)
        invariant SortedBy(r, key) && DistinctIds(r)
        decreases remaining
      {
        var id :| id in remaining;
        var m := rows[id];
        if keep(m) {
          r := InsertSorted(r, m, key);
        }
        remaining := remaining - {id};
      }
    }

    /** `WHERE finalDestination = :destinationId AND status = :status`, in no particular order. */
    method GetStoredMessagesForDestination(destinationId: string, status: StoredMessageStatus := Pending)
      returns (r: seq<StoredMessageEntity>)
      requires Valid()
      ensures forall m :: m in r <==> IsRow(rows, m) && m.finalDestination == destinationId && m.status == status
      ensures DistinctIds(r)
    {
      r := Select((m: StoredMessageEntity) => m.finalDestination == destinationId && m.status == status, (m: StoredMessageEntity) => 0);
    }

    /** The PENDING rows for one destination, oldest `originalTimestamp` first. */
    method GetPendingMessagesForDestination(destinationId: string) returns (r: seq<StoredMessageEntity>)
      requires Valid()
      ensures forall m :: m in r <==> IsRow(rows, m) && m.finalDestination == destinationId && m.status == Pending
      ensures forall i, j :: 0 <= i < j < |r| ==> r[i].originalTimestamp <= r[j].originalTimestamp
      ensures DistinctIds(r)
    {
      r := Select((m: StoredMessageEntity) => m.finalDestination == destinationId && m.status == Pending, (m: StoredMessageEntity) => m.originalTimestamp);
    }

    /** `SELECT DISTINCT finalDestination ... WHERE status = 'PENDING'`, in no particular order. */
    method GetDestinationsWithPendingMessages() returns (r: seq<string>)
      ensures forall d :: d in r <==> exists id :: id in rows && rows[id].status == Pending && rows[id].finalDestination == d
      ensures forall i, j :: 0 <= i < j < |r| ==> r[i] != r[j]
    {
      r := [];
      var remaining := rows.Keys;
      while remaining != {}
        invariant remaining <= rows.Keys
        invariant forall d :: d in r <==> exists id :: id in rows && id !in remaining && rows[id].status == Pending && rows[id].finalDestination == d
        invariant forall i, j :: 0 <= i < j < |r| ==> r[i] != r[j]
        decreases remaining
      {
        var id :| id in remaining;
        var m := rows[id];
        if m.status == Pending && m.finalDestination !in r {
          r := r + [m.finalDestination];
        }
        remaining := remaining - {id};
      }
    }

    /**
     * `ORDER BY expiresAt ASC LIMIT :limit` over the PENDING rows; a negative
     * limit means no limit, as in SQLite.
     */
    method GetOldestPendingMessages(limit: Int32) returns (r: seq<StoredMessageEntity>)
      requires Valid()
      ensures limit >= 0 ==> |r| <= limit
      ensures forall m :: m in r ==> IsRow(rows, m) && m.status == Pending
      ensures forall i, j :: 0 <= i < j < |r| ==> r[i].expiresAt <= r[j].expiresAt
      ensures DistinctIds(r)
      ensures forall m, x :: IsRow(rows, m) && m.status == Pending && m !in r && x in r ==> x.expiresAt <= m.expiresAt
      ensures limit < 0 || |r| < limit ==> forall m :: IsRow(rows, m) && m.status == Pending ==> m in r
    {
      var all := Select((m: StoredMessageEntity) => m.status == Pending, (m: StoredMessageEntity) => m.expiresAt);
      if limit < 0 || |all| <= limit {
        r := all;
      } else {
        r := all[..limit];
        forall m | m in r
          ensures IsRow(rows, m) && m.status == Pending
        {
          var j :| 0 <= j < limit && r[j] == m;
          assert m == all[j];
        }
        forall m, x | IsRow(rows, m) && m.status == Pending && m !in r && x in r
          ensures x.expiresAt <= m.expiresAt
        {
          var i :| 0 <= i < |all| && all[i] == m;
          var j :| 0 <= j < limit && r[j] == x;
          assert i >= limit;
        }
      }
    }

    /** `SELECT SUM(LENGTH(payload)) ... WHERE status = 'PENDING'`: NULL when there is no such row. */
    method GetTotalStoredSize() returns (r: Option<int>)
      ensures r.None? <==> PendingIds(rows) == {}
      ensures r.Some? ==> r.value == TotalPayload(rows, PendingIds(rows))
    {
      var total := 0;
      var found := false;
      var remaining := rows.Keys;
      ghost var pending := PendingIds(rows);
      assert pending * remaining == pending;
      while remaining != {}
        invariant remaining <= rows.Keys
        invariant total + TotalPayload(rows, pending * remaining) == TotalPayload(rows, pending)
        invariant found <==> pending - remaining != {}
        decreases remaining
      {
        var id :| id in remaining;
        if rows[id].status == Pending {
          TotalPayloadRemove(rows, pending * remaining, id);
          assert pending * remaining - {id} == pending * (remaining - {id});
          total := total + |rows[id].payload|;
          found := true;
        } else {
          assert pending * remaining == pending * (remaining - {id});
        }
        remaining := remaining - {id};
      }
      assert pending * remaining == {};
      r := if found then Some(total) else None;
    }
  }

  /** The total payload length of the rows `ids`. */
  ghost function TotalPayload(rows: Rows, ids: set<string>): int
    requires ids <= rows.Keys
    decreases ids
  {
    if ids == {} then 0
    else
      var id :| id in ids;
      |rows[id].payload| + TotalPayload(rows, ids - {id})
  }

  /** The total does not depend on the order the rows are summed in. */
  lemma {:induction false} TotalPayloadRemove(rows: Rows, ids: set<string>, x: string)
    requires ids <= rows.Keys && x in ids
    ensures TotalPayload(rows, ids) == |rows[x].payload| + TotalPayload(rows, ids - {x})
    decreases ids
  {
    var y :| y in ids && TotalPayload(rows, ids) == |rows[y].payload| + TotalPayload(rows, ids - {y});
    if y != x {
      TotalPayloadRemove(rows, ids - {y}, x);
      TotalPayloadRemove(rows, ids - {x}, y);
      assert ids - {y} - {x} == ids - {x} - {y};
    }
  }
}
