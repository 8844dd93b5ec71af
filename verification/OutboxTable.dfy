/** The Outbox table and the statements the writer and the relays run on it. Every
    statement is one atomic step; times are in nanoseconds of the database clock. */
module OutboxTable {
  import opened Options

  /** A UUID; the zero value is the nil UUID. */
  type EventId = nat

  datatype Event = Event(
    domainId: int, eventType: string, schemaVersion: int, dedupKey: string,
    exchange: string, routingKey: string, payload: string)

  /** Only a row in processing has a lease, as the table requires. */
  datatype State =
    | Pending
    | Processing(owner: string, until: int)
    | Published(at: int)
    | Failed(reason: string)

  datatype Row = Row(event: Event, state: State, attempts: nat, nextAttemptAt: int, createdAt: int)

  type Rows = map<EventId, Row>

  /** OutboxEvent.Validate. */
  predicate Valid(id: EventId, e: Event) {
    && id != 0 && e.domainId > 0 && e.schemaVersion >= 1
    && e.eventType != "" && e.exchange != "" && e.routingKey != "" && e.payload != ""
  }

  predicate LeasedTo(row: Row, owner: string) {
    row.state.Processing? && row.state.owner == owner
  }

  predicate Due(row: Row, now: int) {
    row.state.Pending? && row.nextAttemptAt <= now
  }

  /** A live row with the same business key; an empty key never conflicts. */
  predicate Duplicate(rows: Rows, e: Event) {
    && e.dedupKey != ""
    && exists id :: id in rows && rows[id].event.eventType == e.eventType && rows[id].event.dedupKey == e.dedupKey
  }

  // ---------------------------------------------------------------------------
  // What the statements do to the table.

  function Appended(rows: Rows, id: EventId, e: Event, now: int): Rows {
    if Duplicate(rows, e) then rows else rows[id := Row(e, Pending, 0, now, now)]
  }

  predicate Recoverable(row: Row, now: int, owner: string, own: bool) {
    row.state.Processing? && (row.state.until < now || (own && row.state.owner == owner))
  }

  function Recovered(rows: Rows, now: int, owner: string, own: bool): Rows {
    map id | id in rows ::
      if Recoverable(rows[id], now, owner, own) then rows[id].(state := Pending) else rows[id]
  }

  function Claimed(rows: Rows, ids: seq<EventId>, owner: string, until: int): Rows {
    map id | id in rows :: if id in ids then rows[id].(state := Processing(owner, until)) else rows[id]
  }

  function MarkedPublished(rows: Rows, owner: string, id: EventId, now: int): Rows {
    if id in rows && LeasedTo(rows[id], owner) then rows[id := rows[id].(state := Published(now))] else rows
  }

  function MarkedFailed(rows: Rows, owner: string, id: EventId, reason: string): Rows {
    if id in rows && LeasedTo(rows[id], owner)
    then rows[id := rows[id].(state := Failed(Cut(reason)), attempts := rows[id].attempts + 1)]
    else rows
  }

  function Cut(reason: string): string {
    if |reason| <= 1024 then reason else reason[..1024]
  }

  function Released(rows: Rows, owner: string, ids: seq<EventId>, at: int): Rows {
    map id | id in rows ::
      if id in ids && LeasedTo(rows[id], owner) then rows[id].(state := Pending, nextAttemptAt := at) else rows[id]
  }

  predicate Expired(row: Row, before: int) {
    row.state.Published? && row.state.at < before
  }

  function Without(rows: Rows, ids: set<EventId>): Rows {
    map id | id in rows && id !in ids :: rows[id]
  }

  // ---------------------------------------------------------------------------
  // The order of a claim: the next attempt, then the age, then the id.

  predicate Before(rows: Rows, a: EventId, b: EventId)
    requires a in rows && b in rows
  {
    var x, y := rows[a], rows[b];
    || x.nextAttemptAt < y.nextAttemptAt
    || (x.nextAttemptAt == y.nextAttemptAt && x.createdAt < y.createdAt)
    || (x.nextAttemptAt == y.nextAttemptAt && x.createdAt == y.createdAt && a < b)
  }

  /** The first due rows that no other statement holds, in claim order. */
  ghost predicate IsClaim(rows: Rows, now: int, limit: nat, locked: set<EventId>, ids: seq<EventId>) {
    && |ids| <= limit
    && (forall i :: 0 <= i < |ids| ==> ids[i] in rows && ids[i] !in locked && Due(rows[ids[i]], now))
    && (forall i, j :: 0 <= i < j < |ids| ==> Before(rows, ids[i], ids[j]))
    && (forall id :: id in rows && id !in locked && Due(rows[id], now) && id !in ids ==>
          |ids| == limit && forall i :: 0 <= i < |ids| ==> Before(rows, ids[i], id))
  }

  method First(rows: Rows, ids: set<EventId>) returns (first: EventId)
    requires ids != {} && ids <= rows.Keys
    ensures first in ids
    ensures forall id :: id in ids && id != first ==> Before(rows, first, id)
  {
    first :| first in ids;
    var rest := ids - {first};
    while rest != {}
      invariant rest <= ids && first in ids && first !in rest
      invariant forall id :: id in ids && id !in rest && id != first ==> Before(rows, first, id)
      decreases rest
    {
      var id :| id in rest;
      if Before(rows, id, first) {
        first := id;
      }
      rest := rest - {id};
    }
  }

  class Store {
    var rows: Rows

    constructor ()
      ensures rows == map[]
    {
      rows := map[];
    }

    /** Rejects an event the relay could not publish and an id that exists already;
        None tells the error, false that the business event is recorded already. */
    method Append(id: EventId, e: Event, now: int) returns (inserted: Option<bool>)
      modifies this
      ensures inserted.None? <==> !Valid(id, e) || (id in old(rows) && !Duplicate(old(rows), e))
      ensures inserted.None? ==> rows == old(rows)
      ensures inserted.Some? ==> inserted.value == !Duplicate(old(rows), e) && rows == Appended(old(rows), id, e, now)
      ensures inserted == Some(true) ==> id !in old(rows) && rows == old(rows)[id := Row(e, Pending, 0, now, now)]
      ensures inserted == Some(false) ==> rows == old(rows) && e.dedupKey != ""
      ensures inserted == Some(false) ==>
                exists k :: k in rows && rows[k].event.eventType == e.eventType && rows[k].event.dedupKey == e.dedupKey
    {
      if !Valid(id, e) {
        return None;
      }
      if Duplicate(rows, e) {
        return Some(false);
      }
      if id in rows {
        return None;
      }
      rows := rows[id := Row(e, Pending, 0, now, now)];
      inserted := Some(true);
    }

    /** Frees the leases that ran out and, if asked to, all of the owner's. */
    method RecoverLeases(now: int, owner: string, own: bool)
      modifies this
      ensures rows == Recovered(old(rows), now, owner, own)
      ensures rows.Keys == old(rows.Keys)
      ensures forall id :: id in rows ==>
                var was := old(rows)[id];
                rows[id] == if was.state.Processing? && (was.state.until < now || (own && was.state.owner == owner))
                            then Row(was.event, Pending, was.attempts, was.nextAttemptAt, was.createdAt) else was
    {
      var todo := rows.Keys;
      var next := rows;
      while todo != {}
        invariant todo <= rows.Keys == next.Keys
        invariant forall id :: id in todo ==> next[id] == rows[id]
        invariant forall id :: id in rows && id !in todo ==> next[id] == Recovered(rows, now, owner, own)[id]
        invariant rows == old(rows)
        decreases todo
      {
        var id :| id in todo;
        var row := rows[id];
        if row.state.Processing? && (row.state.until < now || (own && row.state.owner == owner)) {
          next := next[id := row.(state := Pending)];
        }
        todo := todo - {id};
      }
      rows := next;
    }

    /** Takes the first due rows; the lease is counted in whole milliseconds. */
    method Claim(now: int, owner: string, limit: nat, leaseMillis: int, locked: set<EventId>)
      returns (ids: seq<EventId>)
      modifies this
      ensures IsClaim(old(rows), now, limit, locked, ids)
      ensures rows == Claimed(old(rows), ids, owner, now + leaseMillis * 1_000_000)
      ensures rows.Keys == old(rows.Keys)
      ensures forall id :: id in ids ==>
                && id in rows && id !in locked && old(rows)[id].state.Pending? && old(rows)[id].nextAttemptAt <= now
                && rows[id] == old(rows)[id].(state := Processing(owner, now + leaseMillis * 1_000_000))
      ensures forall id :: id in rows && id !in ids ==> rows[id] == old(rows)[id]
      ensures |ids| < limit ==>
                forall id :: id in old(rows) && id !in locked && old(rows)[id].state.Pending? ==>
                  old(rows)[id].nextAttemptAt <= now ==> id in ids
      ensures forall i, j :: 0 <= i < j < |ids| ==>
                var a, b := old(rows)[ids[i]], old(rows)[ids[j]];
                a.nextAttemptAt < b.nextAttemptAt || (a.nextAttemptAt == b.nextAttemptAt && a.createdAt <= b.createdAt)
    {
      ids := [];
      var due := set id | id in rows && id !in locked && Due(rows[id], now);
      while due != {} && |ids| < limit
        invariant |ids| <= limit
        invariant forall i :: 0 <= i < |ids| ==> ids[i] in rows && ids[i] !in locked && Due(rows[ids[i]], now)
        invariant forall i, j :: 0 <= i < j < |ids| ==> Before(rows, ids[i], ids[j])
        invariant due == set id | id in rows && id !in locked && Due(rows[id], now) && id !in ids
        invariant forall i, id :: 0 <= i < |ids| && id in due ==> Before(rows, ids[i], id)
        invariant rows == old(rows)
        decreases due
      {
        var id := First(rows, due);
        ids := ids + [id];
        due := due - {id};
      }
      assert forall id :: id in rows && id !in locked && Due(rows[id], now) && id !in ids ==> id in due;
      rows := map id | id in rows :: if id in ids
        then rows[id].(state := Processing(owner, now + leaseMillis * 1_000_000)) else rows[id];
    }

    method MarkPublished(owner: string, id: EventId, now: int) returns (published: bool)
      modifies this
      ensures rows == MarkedPublished(old(rows), owner, id, now)
      ensures published <==> id in old(rows) && old(rows)[id].state.Processing? && old(rows)[id].state.owner == owner
      ensures published ==> rows == old(rows)[id := old(rows)[id].(state := Published(now))]
      ensures !published ==> rows == old(rows)
    {
      published := id in rows && LeasedTo(rows[id], owner);
      if published {
        rows := rows[id := rows[id].(state := Published(now))];
      }
    }

    method MarkFailed(owner: string, id: EventId, reason: string) returns (failed: bool)
      modifies this
      ensures rows == MarkedFailed(old(rows), owner, id, reason)
      ensures failed <==> id in old(rows) && old(rows)[id].state.Processing? && old(rows)[id].state.owner == owner
      ensures failed ==>
                var was := old(rows)[id];
                && rows == old(rows)[id := rows[id]] && rows[id].state.Failed?
                && rows[id].state.reason <= reason
                && |rows[id].state.reason| == (if |reason| < 1024 then |reason| else 1024)
                && rows[id] == Row(was.event, rows[id].state, was.attempts + 1, was.nextAttemptAt, was.createdAt)
      ensures !failed ==> rows == old(rows)
    {
      failed := id in rows && LeasedTo(rows[id], owner);
      if failed {
        rows := rows[id := rows[id].(state := Failed(Cut(reason)), attempts := rows[id].attempts + 1)];
      }
    }

    /** Gives the rows back that are still leased to the owner. */
    method Release(owner: string, ids: seq<EventId>, at: int)
      modifies this
      ensures rows == Released(old(rows), owner, ids, at)
      ensures rows.Keys == old(rows.Keys)
      ensures forall id :: id in rows ==>
                var was := old(rows)[id];
                rows[id] == if id in ids && was.state.Processing? && was.state.owner == owner
                            then Row(was.event, Pending, was.attempts, at, was.createdAt) else was
    {
      for i := 0 to |ids|
        invariant rows == Released(old(rows), owner, ids[..i], at)
      {
        var id := ids[i];
        assert ids[..i + 1] == ids[..i] + [id];
        if id in rows && LeasedTo(rows[id], owner) {
          rows := rows[id := rows[id].(state := Pending, nextAttemptAt := at)];
        }
      }
      assert ids[..|ids|] == ids;
    }

    /** Removes at most limit rows published before the given time, oldest first. */
    method DeletePublishedBefore(before: int, limit: nat) returns (deleted: set<EventId>)
      modifies this
      ensures rows == Without(old(rows), deleted)
      ensures |deleted| <= limit && rows.Keys == old(rows.Keys) - deleted
      ensures forall id :: id in rows ==> rows[id] == old(rows)[id]
      ensures forall id :: id in deleted ==>
                id in old(rows) && old(rows)[id].state.Published? && old(rows)[id].state.at < before
      ensures forall id :: id in deleted ==> id in old(rows) && Expired(old(rows)[id], before)
      ensures forall id :: id in rows && rows[id].state.Published? && rows[id].state.at < before ==>
                |deleted| == limit && forall gone :: gone in deleted ==>
                  gone in old(rows) && old(rows)[gone].state.Published? && old(rows)[gone].state.at <= rows[id].state.at
    {
      deleted := {};
      var stale := set id | id in rows && Expired(rows[id], before);
      while stale != {} && |deleted| < limit
        invariant stale == (set id | id in rows && Expired(rows[id], before)) - deleted
        invariant deleted <= set id | id in rows && Expired(rows[id], before)
        invariant |deleted| <= limit
        invariant forall id, gone :: id in stale && gone in deleted ==> rows[gone].state.at <= rows[id].state.at
        invariant rows == old(rows)
        decreases stale
      {
        var id := Oldest(rows, stale);
        stale := stale - {id};
        deleted := deleted + {id};
      }
      assert forall id :: id in rows && Expired(rows[id], before) && id !in deleted ==> id in stale;
      rows := map id | id in rows && id !in deleted :: rows[id];
    }
  }

  method Oldest(rows: Rows, ids: set<EventId>) returns (oldest: EventId)
    requires ids != {} && ids <= rows.Keys
    requires forall id :: id in ids ==> rows[id].state.Published?
    ensures oldest in ids && forall id :: id in ids ==> rows[oldest].state.at <= rows[id].state.at
  {
    oldest :| oldest in ids;
    var rest := ids - {oldest};
    while rest != {}
      invariant rest <= ids && oldest in ids
      invariant forall id :: id in ids && id !in rest ==> rows[oldest].state.at <= rows[id].state.at
      decreases rest
    {
      var id :| id in rest;
      if rows[id].state.at < rows[oldest].state.at {
        oldest := id;
      }
      rest := rest - {id};
    }
  }
}
