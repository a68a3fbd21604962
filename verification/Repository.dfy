/**
 The shared table and the conditional writes on it. Every method is one request to the table,
 which the database carries out as a whole.
 */
module Repository {
  import opened Text
  import opened Decision

  /** Partition key and sort key. */
  type Key = (string, string)

  /** A canonical UUID, as the validation of events demands; all that counts here is that it holds no separator. */
  type EventId = id: string | '#' !in id

  datatype Event = Event(timestamp: string, eventId: EventId, payload: string)

  datatype Item =
    | DecisionItem(bodyHash: string, response: Response, idempotencyExpiresAt: int, audit: Audit)
    | EventItem(bodyHash: string, sourceId: string, event: Event)
    | NonceItem(ttl: int)

  type Table = map<Key, Item>

  function DecisionKey(requestId: string): Key {
    ("REQUEST#" + requestId, "DECISION")
  }

  function EventKey(sourceId: string, event: Event): Key {
    ("SOURCE#" + sourceId, "EVENT#" + event.timestamp + "#" + event.eventId)
  }

  function NonceKey(keyId: string, nonce: string): Key {
    ("AUTH#" + keyId, "NONCE#" + nonce)
  }

  datatype Kind = Decisions | Events | Nonces | Unknown

  function KindOf(key: Key): Kind {
    if "REQUEST#" <= key.0 then Decisions
    else if "SOURCE#" <= key.0 then Events
    else if "AUTH#" <= key.0 then Nonces
    else Unknown
  }

  predicate Fits(key: Key, item: Item) {
    match KindOf(key)
    case Decisions => item.DecisionItem?
    case Events => item.EventItem? && key == EventKey(item.sourceId, item.event)
    case Nonces => item.NonceItem?
    case Unknown => false
  }

  /** Keys of one kind hold items of that kind, events under the key of their own source and event. */
  ghost predicate Typed(table: Table) {
    forall key :: key in table ==> Fits(key, table[key])
  }

  /** The three kinds of keys never meet. */
  lemma Kinds(id: string, source: string, event: Event, keyId: string, nonce: string)
    ensures KindOf(DecisionKey(id)) == Decisions
    ensures KindOf(EventKey(source, event)) == Events
    ensures KindOf(NonceKey(keyId, nonce)) == Nonces
  {
    assert DecisionKey(id).0[0] == 'R' && EventKey(source, event).0[0] == 'S' && NonceKey(keyId, nonce).0[0] == 'A';
  }

  lemma PrefixCancels(prefix: string, a: string, b: string)
    ensures prefix + a == prefix + b <==> a == b
  {
    assert (prefix + a)[|prefix|..] == a && (prefix + b)[|prefix|..] == b;
  }

  lemma DecisionKeyIsInjective(a: string, b: string)
    ensures DecisionKey(a) == DecisionKey(b) <==> a == b
  {
    PrefixCancels("REQUEST#", a, b);
  }

  lemma NonceKeyIsInjective(a: string, x: string, b: string, y: string)
    ensures NonceKey(a, x) == NonceKey(b, y) <==> a == b && x == y
  {
    PrefixCancels("AUTH#", a, b);
    PrefixCancels("NONCE#", x, y);
  }

  lemma LastSeparator(a: string, x: EventId, b: string, y: EventId)
    requires a + "#" + x == b + "#" + y
    ensures |x| <= |y|
  {
    var text := b + "#" + y;
    assert text[|b|] == '#';
    assert |b| == |text| - 1 - |y|;
    assert text[|a| + 1..] == x;
    assert forall i :: |a| < i < |text| ==> text[i] == x[i - |a| - 1];
  }

  /** An event's key is that of its source, its time and its id, and of no other. */
  lemma EventKeyIsInjective(s: string, e: Event, t: string, f: Event)
    ensures EventKey(s, e) == EventKey(t, f) <==> s == t && e.timestamp == f.timestamp && e.eventId == f.eventId
  {
    PrefixCancels("SOURCE#", s, t);
    var a, x, b, y := e.timestamp, e.eventId, f.timestamp, f.eventId;
    assert EventKey(s, e).1 == "EVENT#" + (a + "#" + x) && EventKey(t, f).1 == "EVENT#" + (b + "#" + y);
    PrefixCancels("EVENT#", a + "#" + x, b + "#" + y);
    if a + "#" + x == b + "#" + y {
      LastSeparator(a, x, b, y);
      LastSeparator(b, y, a, x);
      assert a == (a + "#" + x)[..|a|] && b == (b + "#" + y)[..|b|];
      assert x == (a + "#" + x)[|a| + 1..] && y == (b + "#" + y)[|b| + 1..];
    }
  }

  // ---------- recorded events ----------

  ghost predicate IsRecordOf(item: Item, sourceId: string, timestamp: string, eventId: EventId) {
    item.EventItem? && item.sourceId == sourceId && item.event.timestamp == timestamp && item.event.eventId == eventId
  }

  /** Some item records this event, under whatever key. */
  ghost predicate Recorded(table: Table, sourceId: string, timestamp: string, eventId: EventId) {
    exists key :: key in table && IsRecordOf(table[key], sourceId, timestamp, eventId)
  }

  /** Some item records this event with this body. */
  ghost predicate RecordedWith(table: Table, sourceId: string, timestamp: string, eventId: EventId, bodyHash: string) {
    exists key ::
      key in table && IsRecordOf(table[key], sourceId, timestamp, eventId) && table[key].bodyHash == bodyHash
  }

  lemma RecordIsAt(table: Table, key: Key)
    requires Typed(table) && key in table && table[key].EventItem?
    ensures key == EventKey(table[key].sourceId, table[key].event)
  {
    assert Fits(key, table[key]);
  }

  /** An event is recorded exactly when its key is taken, and with the body found there. */
  lemma RecordedIsKeyed(table: Table, sourceId: string, event: Event, bodyHash: string)
    requires Typed(table)
    ensures var key := EventKey(sourceId, event);
      && (Recorded(table, sourceId, event.timestamp, event.eventId) <==> key in table)
      && (RecordedWith(table, sourceId, event.timestamp, event.eventId, bodyHash)
          <==> key in table && table[key].EventItem? && table[key].bodyHash == bodyHash)
      && (key in table ==> table[key].EventItem?)
  {
    var key := EventKey(sourceId, event);
    Kinds("", sourceId, event, "", "");
    if key in table {
      assert Fits(key, table[key]);
      EventKeyIsInjective(sourceId, event, table[key].sourceId, table[key].event);
      assert IsRecordOf(table[key], sourceId, event.timestamp, event.eventId);
    }
    forall k | k in table && IsRecordOf(table[k], sourceId, event.timestamp, event.eventId)
      ensures k == key
    {
      RecordIsAt(table, k);
      EventKeyIsInjective(sourceId, event, table[k].sourceId, table[k].event);
    }
    hide EventKey, KindOf, Typed;
  }

  datatype Saved = Created | Duplicate | Conflict

  class DynamoRepository {
    var items: Table

    ghost predicate Valid()
      reads this
    {
      Typed(items)
    }

    constructor ()
      ensures Valid() && items == map[]
    {
      items := map[];
    }

    /** Writes an item unless its key is taken. */
    method PutIfAbsent(key: Key, item: Item) returns (ok: bool)
      modifies this
      ensures ok <==> key !in old(items)
      ensures items == if ok then old(items)[key := item] else old(items)
    {
      ok := key !in items;
      if ok {
        items := items[key := item];
      }
    }

    method GetDecision(requestId: string) returns (row: Option<(string, Response)>)
      requires Valid()
      ensures row == StoredDecision(items, requestId)
    {
      Kinds(requestId, "", Event("", "", ""), "", "");
      var key := DecisionKey(requestId);
      if key !in items {
        return None;
      }
      row := Some((items[key].bodyHash, items[key].response));
    }

    /** False stands for a failed condition. */
    method SaveDecision(requestId: string, bodyHash: string, response: Response, ttl: int,
            audit: Audit) returns (ok: bool)
      requires Valid()
      modifies this
      ensures Valid()
      ensures ok <==> DecisionKey(requestId) !in old(items)
      ensures items
        == if ok then old(items)[DecisionKey(requestId) := DecisionItem(bodyHash, response, ttl, audit)] else old(items)
    {
      Kinds(requestId, "", Event("", "", ""), "", "");
      ok := PutIfAbsent(DecisionKey(requestId), DecisionItem(bodyHash, response, ttl, audit));
    }

    method ClaimNonce(keyId: string, nonce: string, expiresEpoch: int) returns (ok: bool)
      requires Valid()
      modifies this
      ensures Valid()
      ensures ok <==> NonceKey(keyId, nonce) !in old(items)
      ensures items == if ok then old(items)[NonceKey(keyId, nonce) := NonceItem(expiresEpoch)] else old(items)
    {
      Kinds("", "", Event("", "", ""), keyId, nonce);
      ok := PutIfAbsent(NonceKey(keyId, nonce), NonceItem(expiresEpoch));
    }

    /**
     Creates an event, named by its source, time and id, unless it is recorded already; the same
     content again is a duplicate, other content a conflict.
     */
    method SaveTradeEvent(sourceId: string, event: Event, bodyHash: string) returns (saved: Saved)
      requires Valid()
      modifies this
      ensures Valid()
      ensures saved == Created <==> !Recorded(old(items), sourceId, event.timestamp, event.eventId)
      ensures saved == Duplicate <==> RecordedWith(old(items), sourceId, event.timestamp, event.eventId, bodyHash)
      ensures saved == Conflict
        <==> Recorded(old(items), sourceId, event.timestamp, event.eventId)
             && !RecordedWith(old(items), sourceId, event.timestamp, event.eventId, bodyHash)
      ensures items
        == if saved == Created then old(items)[EventKey(sourceId, event) := EventItem(bodyHash, sourceId, event)]
           else old(items)
      ensures saved == Created ==> EventKey(sourceId, event) !in old(items)
    {
      Kinds("", sourceId, event, "", "");
      RecordedIsKeyed(items, sourceId, event, bodyHash);
      hide Recorded, RecordedWith, EventKey, KindOf;
      var key := EventKey(sourceId, event);
      var ok := PutIfAbsent(key, EventItem(bodyHash, sourceId, event));
      if ok {
        return Created;
      }
      saved := if key in items && items[key].bodyHash == bodyHash then Duplicate else Conflict;
    }

    /** What other workers write meanwhile: they add items but replace none. */
    method OthersWrite(written: Table)
      requires Valid() && Typed(written)
      modifies this
      ensures Valid() && items == written + old(items)
    {
      items := written + items;
    }
  }

  function StoredDecision(table: Table, requestId: string): Option<(string, Response)>
    requires Typed(table)
  {
    Kinds(requestId, "", Event("", "", ""), "", "");
    var key := DecisionKey(requestId);
    if key in table then Some((table[key].bodyHash, table[key].response)) else None
  }
}
