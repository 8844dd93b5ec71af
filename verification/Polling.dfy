/** One poll of a mailbox: where it starts, what it reads and how far the cursor moves. */
module Polling {
  import opened Options
  import opened Search
  import opened Fetch

  /** Nanoseconds; zero is the zero time. */
  type Time = int

  const DAY := 86_400_000_000_000

  datatype Mailbox = Mailbox(name: string, uidValidity: Uid, uidNext: Uid)

  datatype Recovery = Recovery(since: Time, checkpoint: Time, toUid: Uid)

  datatype Cursor = Cursor(
    mailbox: string, uidValidity: Uid, lastUid: Uid, lastInternalDate: Time, recovery: Option<Recovery>)

  datatype SyncResult = SyncResult(cursor: Option<Cursor>, more: bool, imapErr: bool, handlerErr: bool)

  /** IMAPPollingConfig.validate. */
  datatype Config = Config(fetchBatchSize: nat, maxMessagesPerPoll: nat)

  predicate Sound(cfg: Config) {
    1 <= cfg.fetchBatchSize <= cfg.maxMessagesPerPoll
  }

  /** Everything the outside does during one poll, each call made at most once: the
      answers of the server, the dates of the messages it hands over, whether the handler
      accepts a message, and the newest stored date. */
  datatype Poll = Poll(
    examine: Option<Mailbox>,
    search: (Time, Uid, Uid) -> Reply,
    cancelled: nat -> bool,
    dates: seq<Uid> -> Option<map<Uid, Time>>,
    batch: seq<Uid> -> Stream,
    single: Uid -> Stream,
    date: Uid -> Time,
    accepts: Uid -> bool,
    lastReceivedAt: Option<Time>)

  // ---------------------------------------------------------------------------
  // The mailbox behind the server.

  /** The messages of one UIDVALIDITY with their INTERNALDATE, and the next UID. */
  datatype World = World(uidValidity: Uid, messages: map<Uid, Time>, uidNext: int)

  ghost predicate WellFormed(w: World) {
    && 1 <= w.uidNext
    && forall u :: u in w.messages ==> 1 <= u < w.uidNext
  }

  /** New messages get new, larger UIDs; a message never changes and never comes back. */
  ghost predicate Later(w: World, later: World) {
    && WellFormed(w) && WellFormed(later)
    && later.uidValidity == w.uidValidity && w.uidNext <= later.uidNext
    && forall u :: u in later.messages && u < w.uidNext ==> u in w.messages && later.messages[u] == w.messages[u]
  }

  /** A search that is not limited by date, or a message young enough for it: SEARCH SINCE
      compares whole days. */
  predicate YoungEnough(since: Time, date: Time) {
    since == 0 || since + DAY <= date
  }

  /** A mailbox while a poll runs: at EXAMINE, at the open search if there is one, at the
      end of the poll. */
  datatype Passage = Passage(before: World, asked: World, after: World)

  /** The server speaks the truth: what is still there at the end was there when it was
      asked for, and an open search names only what has arrived. */
  ghost predicate Honest(poll: Poll, p: Passage) {
    && Later(p.before, p.asked) && Later(p.asked, p.after)
    && (poll.examine.Some? ==>
          && poll.examine.value.uidValidity == p.before.uidValidity
          && (poll.examine.value.uidNext == 0 || poll.examine.value.uidNext == p.before.uidNext))
    && (forall since, from: Uid, u: Uid ::
          poll.search(since, from, 0).Found? && u in poll.search(since, from, 0).uids ==> u < p.asked.uidNext)
    && (forall since, from: Uid, upTo: Uid, u: Uid ::
          poll.search(since, from, upTo).Found? && u in Expected(p, since) && InRange(u, from, upTo) ==>
          u in poll.search(since, from, upTo).uids)
    && Shows(poll, p.after.messages.Keys)
    && (forall uids, u :: poll.dates(uids).Some? && u in poll.dates(uids).value && u in p.after.messages ==>
          poll.dates(uids).value[u] == 0 || poll.dates(uids).value[u] == p.after.messages[u])
  }

  /** The messages a dated search has to bring. */
  ghost function Expected(p: Passage, since: Time): set<Uid> {
    set u | u in p.after.messages && u < p.asked.uidNext && YoungEnough(since, p.after.messages[u])
  }

  /** Every FETCH that ends well shows the given messages among those it asks for. */
  ghost predicate Shows(poll: Poll, alive: set<Uid>) {
    && (forall uids: seq<Uid>, u: Uid :: u in uids && u in alive ==> Shown(poll.batch(uids), u))
    && (forall u: Uid :: u in alive ==> Shown(poll.single(u), u))
  }

  /** Every command to the server ends well and is not interrupted. */
  ghost predicate Serves(poll: Poll) {
    && poll.examine.Some? && (forall i :: !poll.cancelled(i))
    && (forall since, from: Uid, upTo: Uid :: poll.search(since, from, upTo).Found?)
    && (forall uids :: poll.dates(uids).Some?)
    && (forall uids :: Clean(poll.batch(uids))) && (forall u :: Clean(poll.single(u)))
  }

  /** Nothing is expunged between a search and the end of the poll. */
  ghost predicate Steady(poll: Poll, p: Passage) {
    forall since, from: Uid, upTo: Uid, u: Uid ::
      poll.search(since, from, upTo).Found? && u in poll.search(since, from, upTo).uids ==> u in p.after.messages
  }

  // ---------------------------------------------------------------------------
  // deliver and advanceConfirmed.

  ghost function ToSet(uids: seq<Uid>): set<Uid> {
    set u | u in uids
  }

  /** A date is the one that was known before, or that of the message just handed over. */
  predicate Dated(poll: Poll, before: map<Uid, Time>, handled: map<Uid, Time>, uids: seq<Uid>, u: Uid)
    requires u in handled
  {
    (u in before && handled[u] == before[u]) || (u in uids && handled[u] == poll.date(u))
  }

  /** The callback of FetchRaw: the messages are handled up to the first error. */
  method HandAll(poll: Poll, messages: seq<Uid>, before: map<Uid, Time>) returns (handled: map<Uid, Time>, count: nat)
    ensures count <= |messages|
    ensures forall i :: 0 <= i < count ==> poll.accepts(messages[i])
    ensures count < |messages| ==> !poll.accepts(messages[count])
    ensures handled.Keys == before.Keys + ToSet(messages[..count])
    ensures forall u :: u in handled ==> Dated(poll, before, handled, messages[..count], u)
  {
    handled, count := before, 0;
    while count < |messages|
      invariant count <= |messages|
      invariant forall i :: 0 <= i < count ==> poll.accepts(messages[i])
      invariant handled.Keys == before.Keys + ToSet(messages[..count])
      invariant forall u :: u in handled ==> Dated(poll, before, handled, messages[..count], u)
    {
      if !poll.accepts(messages[count]) {
        return;
      }
      assert messages[..count + 1] == messages[..count] + [messages[count]];
      handled := handled[messages[count] := poll.date(messages[count])];
      count := count + 1;
    }
  }

  /** What one delivery of ascending UIDs achieves: it adds only requested messages that
      the handler accepted, and without an error none that is still in the mailbox is
      left out. */
  ghost predicate Delivered(poll: Poll, uids: seq<Uid>, before: map<Uid, Time>, handled: map<Uid, Time>, ok: bool,
                            alive: set<Uid>) {
    && before.Keys <= handled.Keys
    && (forall u :: u in handled ==> Dated(poll, before, handled, uids, u))
    && (forall u :: u in handled && u !in before ==> u in uids && poll.accepts(u))
    && (ok ==> forall u :: u in uids && u in alive ==> u in handled)
  }

  /** The handler has refused one of the messages, and those before it that are still in
      the mailbox were confirmed. */
  ghost predicate RefusedOne(poll: Poll, uids: seq<Uid>, handled: map<Uid, Time>, alive: set<Uid>) {
    exists u :: u in uids && !poll.accepts(u) && forall v :: v in uids && v < u && v in alive ==> v in handled
  }

  /** Walks the UIDs in batches and stops at the first failure of either side. */
  method Deliver(session: Session, poll: Poll, cfg: Config, uids: seq<Uid>, before: map<Uid, Time>,
                 ghost alive: set<Uid>)
    returns (handled: map<Uid, Time>, imapErr: bool, handlerErr: bool)
    requires Sound(cfg) && Ascending(uids) && Shows(poll, alive)
    modifies session
    ensures Delivered(poll, uids, before, handled, !imapErr && !handlerErr, alive)
    ensures Serves(poll) ==> !imapErr
    ensures handlerErr && !imapErr ==> RefusedOne(poll, uids, handled, alive)
  {
    handled, imapErr, handlerErr := before, false, false;
    var i := 0;
    while i < |uids|
      invariant 0 <= i <= |uids| && !imapErr && !handlerErr
      invariant Delivered(poll, uids[..i], before, handled, true, alive)
      decreases |uids| - i
    {
      var end := if i + cfg.fetchBatchSize < |uids| then i + cfg.fetchBatchSize else |uids|;
      var next;
      next, imapErr, handlerErr := DeliverBatch(session, poll, uids[i..end], handled, alive);
      DeliveredMore(poll, uids, i, end, before, handled, next, !imapErr && !handlerErr, alive);
      handled := next;
      if imapErr || handlerErr {
        DeliveredPart(poll, uids, end, before, handled, alive);
        RefusedInPart(poll, uids, i, end, handled, alive);
        return;
      }
      i := end;
    }
    assert uids[..|uids|] == uids;
  }

  method DeliverBatch(session: Session, poll: Poll, batch: seq<Uid>, before: map<Uid, Time>, ghost alive: set<Uid>)
    returns (handled: map<Uid, Time>, imapErr: bool, handlerErr: bool)
    requires Ascending(batch) && Shows(poll, alive)
    modifies session
    ensures Delivered(poll, batch, before, handled, !imapErr && !handlerErr, alive)
    ensures Serves(poll) ==> !imapErr
    ensures handlerErr && !imapErr ==> RefusedOne(poll, batch, handled, alive)
  {
    var messages, fetched := session.FetchRaw(batch, poll.batch, poll.single);
    SortedUids(batch);
    ServedWell(poll, Ordered(batch));
    var count;
    handled, count := HandAll(poll, messages, before);
    imapErr, handlerErr := !fetched, count < |messages|;
    BatchDelivered(poll, batch, before, handled, messages, fetched, count, alive);
    BatchRefused(poll, batch, handled, messages, fetched, count, alive);
  }

  lemma ServedWell(poll: Poll, uids: seq<Uid>)
    ensures Serves(poll) ==> Clean(poll.batch(uids)) && NoneBroken(uids, poll.single)
  {
    forall i | 0 <= i < |uids|
      ensures Clean(poll.single(uids[i])) ==> Asked(poll.single(uids[i]), uids[i]) != Broken {
      AskedNames(poll.single(uids[i]), uids[i]);
    }
  }

  lemma BatchRefused(poll: Poll, batch: seq<Uid>, handled: map<Uid, Time>, messages: seq<Uid>, fetched: bool,
                     count: nat, alive: set<Uid>)
    requires Shows(poll, alive) && forall u :: u in Ordered(batch) <==> u in batch
    requires Fetched(Ordered(batch), poll.batch(Ordered(batch)), poll.single, messages, fetched)
    requires count <= |messages| && ToSet(messages[..count]) <= handled.Keys
    requires count < |messages| ==> !poll.accepts(messages[count])
    ensures count < |messages| && fetched ==> RefusedOne(poll, batch, handled, alive)
  {
    if count < |messages| && fetched {
      var u := messages[count];
      assert u in messages;
      forall v | v in batch && v < u && v in alive ensures v in handled {
        assert v in Ordered(batch) && Shown(poll.batch(Ordered(batch)), v) && Shown(poll.single(v), v);
        assert v in messages;
        var i :| 0 <= i < |messages| && messages[i] == v;
        assert i < count;
        assert v in messages[..count];
      }
    }
  }

  /** What came before the batch was confirmed without an error. */
  lemma RefusedInPart(poll: Poll, uids: seq<Uid>, i: nat, end: nat, handled: map<Uid, Time>, alive: set<Uid>)
    requires i <= end <= |uids| && Ascending(uids)
    requires forall u :: u in uids[..i] && u in alive ==> u in handled
    ensures RefusedOne(poll, uids[i..end], handled, alive) ==> RefusedOne(poll, uids, handled, alive)
  {
    if RefusedOne(poll, uids[i..end], handled, alive) {
      var batch := uids[i..end];
      var u :| u in batch && !poll.accepts(u) && forall v :: v in batch && v < u && v in alive ==> v in handled;
      forall v | v in uids && v < u && v in alive ensures v in handled {
        BeforeOrWithin(uids, i, end, u, v);
      }
    }
  }

  lemma BeforeOrWithin(uids: seq<Uid>, i: nat, end: nat, u: Uid, v: Uid)
    requires i <= end <= |uids| && Ascending(uids) && u in uids[i..end] && v in uids && v < u
    ensures v in uids[..i] || v in uids[i..end]
    ensures u in uids
  {
    var k :| i <= k < end && uids[k] == u;
    var j :| 0 <= j < |uids| && uids[j] == v;
    assert j < k;
    assert uids[..end][j] == v && uids[..end] == uids[..i] + uids[i..end];
  }

  lemma BatchDelivered(poll: Poll, batch: seq<Uid>, before: map<Uid, Time>, handled: map<Uid, Time>,
                       messages: seq<Uid>, fetched: bool, count: nat, alive: set<Uid>)
    requires Shows(poll, alive) && forall u :: u in Ordered(batch) <==> u in batch
    requires Fetched(Ordered(batch), poll.batch(Ordered(batch)), poll.single, messages, fetched)
    requires count <= |messages| && forall i :: 0 <= i < count ==> poll.accepts(messages[i])
    requires handled.Keys == before.Keys + ToSet(messages[..count])
    requires forall u :: u in handled ==> Dated(poll, before, handled, messages[..count], u)
    ensures Delivered(poll, batch, before, handled, fetched && count == |messages|, alive)
  {
    forall u | u in handled ensures Dated(poll, before, handled, batch, u) {
      assert Dated(poll, before, handled, messages[..count], u);
      assert u in messages[..count] ==> u in messages;
    }
    forall u | u in handled && u !in before ensures u in batch && poll.accepts(u) {
      var i :| 0 <= i < count && messages[i] == u;
      assert u in messages;
    }
    if fetched && count == |messages| {
      forall u | u in batch && u in alive ensures u in handled {
        assert u in Ordered(batch) && Shown(poll.batch(Ordered(batch)), u) && Shown(poll.single(u), u);
        assert u in messages && messages[..count] == messages;
      }
    }
  }

  lemma DeliveredMore(poll: Poll, uids: seq<Uid>, i: nat, end: nat, before: map<Uid, Time>,
                      middle: map<Uid, Time>, handled: map<Uid, Time>, ok: bool, alive: set<Uid>)
    requires i <= end <= |uids|
    requires Delivered(poll, uids[..i], before, middle, true, alive)
    requires Delivered(poll, uids[i..end], middle, handled, ok, alive)
    ensures Delivered(poll, uids[..end], before, handled, ok, alive)
  {
    assert uids[..end] == uids[..i] + uids[i..end];
    forall u | u in handled ensures Dated(poll, before, handled, uids[..end], u) {
      assert Dated(poll, middle, handled, uids[i..end], u);
      assert u in middle ==> Dated(poll, before, middle, uids[..i], u);
    }
  }

  lemma DeliveredPart(poll: Poll, uids: seq<Uid>, end: nat, before: map<Uid, Time>, handled: map<Uid, Time>,
                      alive: set<Uid>)
    requires end <= |uids| && Delivered(poll, uids[..end], before, handled, false, alive)
    ensures Delivered(poll, uids, before, handled, false, alive)
  {
    assert forall u :: u in uids[..end] ==> u in uids;
    forall u | u in handled ensures Dated(poll, before, handled, uids, u) {
      assert Dated(poll, before, handled, uids[..end], u);
    }
  }

  /** The cursor moves over the confirmed prefix of the request only, and its date is the
      newest of that prefix. */
  function Advanced(c: Cursor, requested: seq<Uid>, handled: map<Uid, Time>): Cursor
    decreases requested
  {
    if requested == [] || requested[0] !in handled then c
    else
      var date := handled[requested[0]];
      var newest := if date > c.lastInternalDate then date else c.lastInternalDate;
      Advanced(c.(lastUid := requested[0], lastInternalDate := newest), requested[1..], handled)
  }

  /** Exactly the first k are handled. */
  ghost predicate HandledUpTo(asked: seq<Uid>, handled: map<Uid, Time>, k: nat) {
    && k <= |asked| && (forall i :: 0 <= i < k ==> asked[i] in handled)
    && (k < |asked| ==> asked[k] !in handled)
  }

  /** The newest of the old date and the dates of the first k. */
  ghost predicate NewestOf(known: Time, date: Time, asked: seq<Uid>, handled: map<Uid, Time>, k: nat)
    requires HandledUpTo(asked, handled, k)
  {
    && known <= date && (forall i :: 0 <= i < k ==> handled[asked[i]] <= date)
    && (date == known || exists i :: 0 <= i < k && handled[asked[i]] == date)
  }

  /** The cursor stands on the last of the handled prefix, or where it was. */
  ghost predicate Moved(c: Cursor, next: Cursor, asked: seq<Uid>, handled: map<Uid, Time>, k: nat) {
    && HandledUpTo(asked, handled, k) && NewestOf(c.lastInternalDate, next.lastInternalDate, asked, handled, k)
    && next.mailbox == c.mailbox && next.uidValidity == c.uidValidity && next.recovery == c.recovery
    && next.lastUid == if k == 0 then c.lastUid else asked[k - 1]
  }

  lemma {:induction false} AdvancedMoves(c: Cursor, asked: seq<Uid>, handled: map<Uid, Time>) returns (k: nat)
    ensures Moved(c, Advanced(c, asked, handled), asked, handled, k)
    decreases asked
  {
    k := 0;
    if asked != [] && asked[0] in handled {
      var date := handled[asked[0]];
      var newest := if date > c.lastInternalDate then date else c.lastInternalDate;
      var moved := c.(lastUid := asked[0], lastInternalDate := newest);
      k := AdvancedMoves(moved, asked[1..], handled);
      assert forall i :: 0 <= i < k ==> asked[1..][i] == asked[i + 1];
      k := k + 1;
      var next := Advanced(c, asked, handled);
      assert forall i :: 0 < i < k ==> asked[i] == asked[1..][i - 1];
      if next.lastInternalDate != newest {
        var i :| 0 <= i < k - 1 && handled[asked[1..][i]] == next.lastInternalDate;
        assert handled[asked[i + 1]] == next.lastInternalDate;
      }
    }
  }

  method AdvanceConfirmed(c: Cursor, requested: seq<Uid>, handled: map<Uid, Time>)
    returns (next: Cursor, ghost prefix: nat)
    ensures next == Advanced(c, requested, handled) && Moved(c, next, requested, handled, prefix)
  {
    prefix := AdvancedMoves(c, requested, handled);
    next := c;
    for i := 0 to |requested|
      invariant Advanced(next, requested[i..], handled) == Advanced(c, requested, handled)
    {
      if requested[i] !in handled {
        return;
      }
      var date := handled[requested[i]];
      assert requested[i..][0] == requested[i] && requested[i..][1..] == requested[i + 1..];
      next := next.(lastUid := requested[i]);
      if date > next.lastInternalDate {
        next := next.(lastInternalDate := date);
      }
    }
  }

  /** The date is the newest of the dates of the confirmed prefix and the one before. */
  ghost predicate Newest(c: Cursor, next: Cursor, requested: seq<Uid>, handled: map<Uid, Time>)
    requires forall u :: u in requested && u <= next.lastUid ==> u in handled
  {
    && (forall u :: u in requested && u <= next.lastUid ==> handled[u] <= next.lastInternalDate)
    && (next.lastInternalDate == c.lastInternalDate
        || exists u :: u in requested && u <= next.lastUid && handled[u] == next.lastInternalDate)
  }

  /** Every requested UID the cursor passes was handled, the cursor does not pass one that
      was not, and nothing but the position and the date changes. */
  lemma {:induction false} AdvancedIs(c: Cursor, requested: seq<Uid>, handled: map<Uid, Time>)
    requires Ascending(requested) && forall u :: u in requested ==> c.lastUid < u
    ensures var next := Advanced(c, requested, handled);
            && c.lastUid <= next.lastUid && c.lastInternalDate <= next.lastInternalDate
            && (next.lastUid == c.lastUid || next.lastUid in requested)
            && (forall u :: u in requested && u <= next.lastUid ==> u in handled)
            && next.(lastUid := c.lastUid, lastInternalDate := c.lastInternalDate) == c
            && Newest(c, next, requested, handled)
    ensures (forall u :: u in requested ==> u in handled) && requested != [] ==>
              Advanced(c, requested, handled).lastUid == requested[|requested| - 1]
    decreases requested
  {
    if requested != [] && requested[0] in handled {
      assert requested[0] in requested;
      var date := handled[requested[0]];
      var rest := requested[1..];
      var newest := if date > c.lastInternalDate then date else c.lastInternalDate;
      var moved := c.(lastUid := requested[0], lastInternalDate := newest);
      assert forall i :: 0 <= i < |rest| ==> rest[i] == requested[i + 1];
      assert forall u :: u in requested <==> u == requested[0] || u in rest;
      AdvancedIs(moved, rest, handled);
      var next := Advanced(moved, rest, handled);
      assert Newest(moved, next, rest, handled);
      assert next.lastInternalDate == moved.lastInternalDate == date ==> handled[requested[0]] == next.lastInternalDate;
    }
  }

  // ---------------------------------------------------------------------------
  // Searching on behalf of a poll.

  predicate IsIssued(u: Uid, w: World) {
    u < w.uidNext
  }

  /** The UIDs that have been given out and that some answer names. */
  ghost function Nameable(poll: Poll, since: Time, w: World): set<Uid> {
    set u: Uid | 0 <= u <= MAX_UID && IsIssued(u, w) && Mentioned(poll, since, u)
  }

  ghost predicate Mentioned(poll: Poll, since: Time, u: Uid) {
    exists from: Uid, upTo: Uid :: poll.search(since, from, upTo).Found? && u in poll.search(since, from, upTo).uids
  }

  /** Every search answers, and finds nothing. */
  ghost predicate FindsNothing(poll: Poll, since: Time) {
    && (forall from: Uid, upTo: Uid :: poll.search(since, from, upTo) == Found([]))
    && (forall i :: !poll.cancelled(i))
  }

  /** The result of a search that ended well. */
  ghost predicate Searched(uids: seq<Uid>, last: Uid, to: Uid, expected: set<Uid>, limit: nat, asked: World) {
    && Ascending(uids)
    && (forall u :: u in uids ==> last < u < asked.uidNext)
    && (to > 0 ==> Covers(uids, expected, last, to, limit))
    && (to == 0 ==> forall u :: u in expected && last < u ==> u in uids)
  }

  method SearchFor(poll: Poll, last: Uid, to: Uid, since: Time, limit: nat, ghost p: Passage)
    returns (uids: seq<Uid>, ok: bool, ghost windows: seq<(Uid, Uid)>)
    requires Honest(poll, p) && to < p.asked.uidNext && limit > 0
    ensures ok ==> Searched(uids, last, to, Expected(p, since), limit, p.asked)
    ensures to > 0 ==> Bounded(windows, last, to)
    ensures ok ==> forall u :: u in uids ==> Mentioned(poll, since, u)
    ensures Serves(poll) ==> ok
    ensures FindsNothing(poll, since) ==> ok && uids == []
  {
    var search := (from: Uid, upTo: Uid) => poll.search(since, from, upTo);
    ghost var may := Nameable(poll, since, p.asked);
    OnlyNameable(poll, search, last, to, since, p);
    uids, ok, windows := SearchUids(search, poll.cancelled, last, to, limit, Expected(p, since), may);
    if FindsNothing(poll, since) {
      assert forall i :: 0 <= i < |windows| ==> search(windows[i].0, windows[i].1).Found?;
      assert forall u :: u in uids ==> Mentioned(poll, since, u);
      HeadIn(uids);
    }
  }

  lemma HeadIn(uids: seq<Uid>)
    ensures uids != [] ==> uids[0] in uids
  {
  }

  lemma OnlyNameable(poll: Poll, search: (Uid, Uid) -> Reply, last: Uid, to: Uid, since: Time, p: Passage)
    requires Honest(poll, p) && to < p.asked.uidNext
    requires forall from: Uid, upTo: Uid :: search(from, upTo) == poll.search(since, from, upTo)
    ensures Truthful(search, last, to, Nameable(poll, since, p.asked))
    ensures Complete(search, last, to, Expected(p, since))
  {
    forall from: Uid, upTo: Uid, u: Uid |
      Asks(last, to, from, upTo) && search(from, upTo).Found? && u in search(from, upTo).uids && InRange(u, from, upTo)
      ensures u in Nameable(poll, since, p.asked)
    {
      assert poll.search(since, from, upTo).Found? && u in poll.search(since, from, upTo).uids;
      assert Mentioned(poll, since, u) && IsIssued(u, p.asked);
    }
  }

  /** What is left after the cut to the limit misses nothing below its last UID, and
      misses nothing at all when there was nothing to cut. */
  ghost predicate Dense(uids: seq<Uid>, last: Uid, to: Uid, expected: set<Uid>, cut: bool, asked: World) {
    && Ascending(uids)
    && (forall u :: u in uids ==> last < u < asked.uidNext && (to > 0 ==> u <= to))
    && (forall u, v :: u in expected && v in uids && last < u <= v ==> u in uids)
    && (!cut ==> forall u :: u in expected && last < u && (to > 0 ==> u <= to) ==> u in uids)
  }

  lemma CutIsDense(uids: seq<Uid>, last: Uid, to: Uid, expected: set<Uid>, limit: nat, asked: World)
    requires Searched(uids, last, to, expected, limit, asked)
    ensures Dense(if |uids| > limit then uids[..limit] else uids, last, to, expected, |uids| > limit, asked)
  {
    if |uids| > limit {
      var kept := uids[..limit];
      assert forall u :: u in kept ==> u in uids;
      forall u, v | u in expected && v in kept && last < u <= v ensures u in kept {
        assert u in uids;
        var i :| 0 <= i < |uids| && uids[i] == u;
        var j :| 0 <= j < |kept| && kept[j] == v;
        assert i <= j && kept[i] == u;
      }
    }
  }

  // ---------------------------------------------------------------------------
  // The start of a poll.

  /** Where a search may end; zero leaves it open. */
  function LastSearchableUid(mailbox: Mailbox): Uid {
    if mailbox.uidNext == 0 then 0 else mailbox.uidNext - 1
  }

  /** The highest existing UID: nothing that was there before lies above it. */
  method LastUid(poll: Poll, mailbox: Mailbox, ghost p: Passage) returns (last: Uid, ok: bool)
    requires Honest(poll, p) && poll.examine == Some(mailbox)
    ensures ok ==> last < p.asked.uidNext
    ensures ok ==> forall u :: u in p.after.messages && u < p.before.uidNext ==> u <= last
    ensures mailbox.uidNext > 0 ==> ok && last == mailbox.uidNext - 1
    ensures Serves(poll) ==> ok
  {
    if mailbox.uidNext > 0 {
      return mailbox.uidNext - 1, true;
    }
    last, ok := HighestFound(poll, p);
  }

  method HighestFound(poll: Poll, ghost p: Passage) returns (last: Uid, ok: bool)
    requires Honest(poll, p)
    ensures ok ==> last < p.asked.uidNext
    ensures ok ==> forall u :: u in p.after.messages && u < p.before.uidNext ==> u <= last
    ensures Serves(poll) ==> ok
  {
    var reply := poll.search(0, 1, 0);
    if reply.Refused? {
      return 0, false;
    }
    var uids := Range(reply.uids, 1, 0);
    EverythingFound(poll, uids, p);
    if uids == [] {
      return 0, true;
    }
    assert uids[|uids| - 1] in uids;
    return uids[|uids| - 1], true;
  }

  lemma EverythingFound(poll: Poll, uids: seq<Uid>, p: Passage)
    requires Honest(poll, p) && poll.search(0, 1, 0).Found? && uids == Range(poll.search(0, 1, 0).uids, 1, 0)
    ensures Ascending(uids) && forall u :: u in uids ==> u < p.asked.uidNext
    ensures forall u :: u in p.after.messages && u < p.before.uidNext ==> u in uids
  {
    var found := poll.search(0, 1, 0).uids;
    RangeIs(found, 1, 0);
    forall u | u in p.after.messages && u < p.before.uidNext ensures u in uids {
      assert u in Expected(p, 0) && InRange(u, 1, 0);
      assert u in found;
    }
  }

  /** The time a scan of reassigned UIDs resumes from. */
  function RecoveryCheckpoint(stored: Cursor): Time {
    if stored.recovery.Some? then stored.recovery.value.checkpoint else stored.lastInternalDate
  }

  /** A missing checkpoint means to begin at the end. Whole days are compared, so one more is read. */
  function StartRecovery(mailbox: Mailbox, end: Uid, checkpoint: Time): Cursor {
    if checkpoint == 0 then Cursor(mailbox.name, mailbox.uidValidity, end, 0, None)
    else Cursor(mailbox.name, mailbox.uidValidity, 0, checkpoint, Some(Recovery(checkpoint - DAY, checkpoint, end)))
  }

  function FinishRecovery(c: Cursor): Cursor
    requires c.recovery.Some?
  {
    c.(lastUid := c.recovery.value.toUid, recovery := None)
  }

  // ---------------------------------------------------------------------------
  // What one poll achieves.

  /** A cursor that this mailbox can have produced. */
  ghost predicate WellKept(c: Cursor, w: World) {
    && c.uidValidity == w.uidValidity && c.lastUid < w.uidNext
    && (c.recovery.Some? ==>
          && c.lastUid <= c.recovery.value.toUid < w.uidNext
          && c.recovery.value.since == c.recovery.value.checkpoint - DAY)
  }

  /** A message the cursor may not pass unless the handler has confirmed it: while
      recovering, one that is not older than the checkpoint. */
  ghost predicate Wanted(c: Cursor, u: Uid, date: Time) {
    c.lastUid < u && (c.recovery.Some? ==> u <= c.recovery.value.toUid && c.recovery.value.checkpoint <= date)
  }

  /** The cursor moves forward within one UIDVALIDITY, and passes only what is done. */
  ghost predicate Progress(c: Cursor, next: Cursor, p: Passage, done: set<Uid>) {
    && next.mailbox == c.mailbox && next.uidValidity == c.uidValidity
    && c.lastUid <= next.lastUid < p.asked.uidNext && c.lastInternalDate <= next.lastInternalDate
    && (next.recovery == c.recovery
         || (c.recovery.Some? && next.recovery.None? && next.lastUid == c.recovery.value.toUid))
    && (c.recovery.Some? ==> next.lastUid <= c.recovery.value.toUid)
    && (forall u :: u in p.after.messages && Wanted(c, u, p.after.messages[u]) && u <= next.lastUid ==> u in done)
  }

  /** A poll that leaves nothing for later has confirmed everything that was there. */
  ghost predicate Exhaustive(c: Cursor, r: SyncResult, p: Passage, done: set<Uid>) {
    !r.more && !r.imapErr && !r.handlerErr ==>
      forall u :: u in p.after.messages && u < p.before.uidNext && Wanted(c, u, p.after.messages[u]) ==> u in done
  }

  /** What came of a poll: what its search named, in which windows, which of it is
      confirmed or taken as read, with the dates, and how many from the front. */
  datatype Report = Report(
    searched: bool, found: seq<Uid>, windows: seq<(Uid, Uid)>, handled: map<Uid, Time>, prefix: nat)

  const NOTHING := Report(true, [], [], map[], 0)

  function FirstOnes(found: seq<Uid>, limit: nat): seq<Uid> {
    if |found| > limit then found[..limit] else found
  }

  /** A recovery with something left in its range. */
  predicate Recovering(c: Cursor) {
    c.recovery.Some? && c.lastUid < c.recovery.value.toUid
  }

  /** The recovery has read its range. */
  predicate Ended(c: Cursor, r: SyncResult) {
    c.recovery.Some? && !r.more && !r.imapErr && !r.handlerErr
  }

  function Position(c: Cursor, r: SyncResult, asked: seq<Uid>, k: nat): Uid
    requires k <= |asked|
  {
    if Ended(c, r) then c.recovery.value.toUid else if k == 0 then c.lastUid else asked[k - 1]
  }

  /** Where the poll leaves the cursor: on the last UID of the handled prefix of what was
      found within the limit, or at the end of the recovery. */
  ghost predicate Told(c: Cursor, r: SyncResult, limit: nat, report: Report) {
    var asked := FirstOnes(report.found, limit);
    && r.cursor.Some? && HandledUpTo(asked, report.handled, report.prefix)
    && var next := r.cursor.value;
       && next.mailbox == c.mailbox && next.uidValidity == c.uidValidity
       && next.lastUid == Position(c, r, asked, report.prefix)
       && next.recovery == (if Ended(c, r) then None else c.recovery)
       && NewestOf(c.lastInternalDate, next.lastInternalDate, asked, report.handled, report.prefix)
       && (r.more <==> |report.found| > limit && !(c.recovery.Some? && (r.imapErr || r.handlerErr)))
       && (!report.searched ==> r.imapErr && report.found == [])
  }

  lemma MovedTold(c: Cursor, next: Cursor, r: SyncResult, limit: nat, report: Report)
    requires Moved(c, next, FirstOnes(report.found, limit), report.handled, report.prefix)
    requires r.cursor == Some(if Ended(c, r) then next.(lastUid := c.recovery.value.toUid, recovery := None) else next)
    requires r.more <==> |report.found| > limit && !(c.recovery.Some? && (r.imapErr || r.handlerErr))
    requires report.searched
    ensures Told(c, r, limit, report)
  {
  }

  /** What was handed over by this poll, or set aside as older than the checkpoint. */
  ghost predicate HandledWhy(poll: Poll, c: Cursor, handled: map<Uid, Time>, done: set<Uid>) {
    && done <= handled.Keys
    && (forall u :: u in done ==> poll.accepts(u) && handled[u] == poll.date(u))
    && (forall u :: u in handled && u !in done ==> c.recovery.Some? && 0 != handled[u] < c.recovery.value.checkpoint)
  }

  /** Without an error and without an expunge, all that was asked for is handled. */
  lemma HandledAll(poll: Poll, p: Passage, asked: seq<Uid>, handled: map<Uid, Time>, k: nat)
    requires HandledUpTo(asked, handled, k) && forall u :: u in asked && u in p.after.messages ==> u in handled
    requires forall u :: u in asked ==> u in p.after.messages
    ensures k == |asked|
  {
    assert forall i :: 0 <= i < |asked| ==> asked[i] in asked;
  }

  /** Without an error and an expunge a poll goes on behind what it had, and one that
      leaves nothing for later has passed everything that was there. */
  ghost predicate CaughtUp(c: Cursor, r: SyncResult, p: Passage) {
    !r.imapErr && !r.handlerErr ==>
      && r.cursor.Some? && (r.more ==> c.lastUid < r.cursor.value.lastUid)
      && (!r.more && c.recovery.None? ==>
            forall u :: u in p.after.messages && u < p.before.uidNext ==> u <= r.cursor.value.lastUid)
  }

  lemma ToldCaughtUp(poll: Poll, c: Cursor, r: SyncResult, limit: nat, report: Report, to: Uid, since: Time, p: Passage)
    requires Told(c, r, limit, report) && limit > 0 && report.searched && Steady(poll, p)
    requires Searched(report.found, c.lastUid, to, Expected(p, since), limit, p.asked) && Later(p.before, p.asked)
    requires c.recovery.None? ==> since == 0 && (to == 0 || to == p.before.uidNext - 1)
    requires forall u :: u in report.found ==> Mentioned(poll, since, u)
    requires !r.imapErr && !r.handlerErr ==>
               forall u :: u in FirstOnes(report.found, limit) && u in p.after.messages ==> u in report.handled
    ensures CaughtUp(c, r, p)
  {
    if !r.imapErr && !r.handlerErr {
      var asked := FirstOnes(report.found, limit);
      assert forall u :: u in asked ==> u in report.found;
      HandledAll(poll, p, asked, report.handled, report.prefix);
      if r.more {
        assert asked[limit - 1] in report.found;
      } else if c.recovery.None? {
        assert asked == report.found;
        AllPassed(c, report.found, to, limit, p);
      }
    }
  }

  lemma AllPassed(c: Cursor, found: seq<Uid>, to: Uid, limit: nat, p: Passage)
    requires Searched(found, c.lastUid, to, Expected(p, 0), limit, p.asked) && |found| <= limit
    requires Later(p.before, p.asked)
    requires to == 0 || to == p.before.uidNext - 1
    ensures forall u :: u in p.after.messages && u < p.before.uidNext ==>
              u <= if found == [] then c.lastUid else found[|found| - 1]
  {
    AllFound(found, c.lastUid, to, limit, p);
    LastIsHighest(found);
  }

  /** A search that was not cut has found everything that was there and is still there. */
  lemma AllFound(found: seq<Uid>, last: Uid, to: Uid, limit: nat, p: Passage)
    requires Searched(found, last, to, Expected(p, 0), limit, p.asked) && |found| <= limit && Later(p.before, p.asked)
    requires to == 0 || to == p.before.uidNext - 1
    ensures forall u :: u in p.after.messages && u < p.before.uidNext && last < u ==> u in found
  {
    forall u | u in p.after.messages && u < p.before.uidNext && last < u ensures u in found {
      assert u in Expected(p, 0);
    }
  }

  lemma LastIsHighest(uids: seq<Uid>)
    requires Ascending(uids)
    ensures forall u :: u in uids ==> u <= uids[|uids| - 1]
    ensures uids != [] ==> uids[|uids| - 1] in uids
  {
  }

  /** The confirmed prefix of a dense request. */
  lemma PrefixPassed(c: Cursor, uids: seq<Uid>, handled: map<Uid, Time>, to: Uid, since: Time, cut: bool, p: Passage)
    requires Dense(uids, c.lastUid, to, Expected(p, since), cut, p.asked)
    ensures var next := Advanced(c, uids, handled);
            && c.lastUid <= next.lastUid && c.lastInternalDate <= next.lastInternalDate
            && (next.lastUid == c.lastUid || (next.lastUid < p.asked.uidNext && (to > 0 ==> next.lastUid <= to)))
            && next.(lastUid := c.lastUid, lastInternalDate := c.lastInternalDate) == c
            && forall u :: u in Expected(p, since) && c.lastUid < u <= next.lastUid ==> u in uids && u in handled
  {
    AdvancedIs(c, uids, handled);
  }

  lemma ReadProgress(c: Cursor, uids: seq<Uid>, handled: map<Uid, Time>, to: Uid, cut: bool, p: Passage)
    requires Dense(uids, c.lastUid, to, Expected(p, 0), cut, p.asked) && c.recovery.None? && c.lastUid < p.asked.uidNext
    ensures Progress(c, Advanced(c, uids, handled), p, handled.Keys)
  {
    PrefixPassed(c, uids, handled, to, 0, cut, p);
    var next := Advanced(c, uids, handled);
    forall u | u in p.after.messages && c.lastUid < u <= next.lastUid ensures u in handled {
      assert u in Expected(p, 0);
    }
  }

  /** Ordinary polling. */
  method Read(session: Session, poll: Poll, cfg: Config, c: Cursor, mailbox: Mailbox, ghost p: Passage)
    returns (r: SyncResult, ghost done: set<Uid>, ghost report: Report)
    requires Sound(cfg) && Honest(poll, p) && poll.examine == Some(mailbox)
    requires WellKept(c, p.before) && c.recovery.None?
    modifies session
    ensures r.cursor.Some? && Progress(c, r.cursor.value, p, done) && Exhaustive(c, r, p, done)
    ensures Told(c, r, cfg.maxMessagesPerPoll, report) && HandledWhy(poll, c, report.handled, done)
    ensures report.searched ==>
              Searched(report.found, c.lastUid, LastSearchableUid(mailbox), Expected(p, 0), cfg.maxMessagesPerPoll,
                       p.asked)
    ensures mailbox.uidNext > 1 ==> Bounded(report.windows, c.lastUid, mailbox.uidNext - 1)
    ensures Serves(poll) ==> report.searched && !r.imapErr
    ensures r.handlerErr && !r.imapErr ==>
              RefusedOne(poll, FirstOnes(report.found, cfg.maxMessagesPerPoll), report.handled, p.after.messages.Keys)
    ensures Steady(poll, p) ==> CaughtUp(c, r, p)
  {
    done := {};
    var to := LastSearchableUid(mailbox);
    var uids, ok;
    ghost var windows;
    uids, ok, windows := SearchFor(poll, c.lastUid, to, 0, cfg.maxMessagesPerPoll, p);
    if !ok {
      return SyncResult(Some(c), false, true, false), done, Report(false, [], windows, map[], 0);
    }
    ghost var found := uids;
    CutIsDense(uids, c.lastUid, to, Expected(p, 0), cfg.maxMessagesPerPoll, p.asked);
    var more := |uids| > cfg.maxMessagesPerPoll;
    if more {
      uids := uids[..cfg.maxMessagesPerPoll];
    }
    var handled, imapErr, handlerErr := Deliver(session, poll, cfg, uids, map[], p.after.messages.Keys);
    var next;
    ghost var k;
    next, k := AdvanceConfirmed(c, uids, handled);
    done := handled.Keys;
    ReadProgress(c, uids, handled, to, more, p);
    r := SyncResult(Some(next), more, imapErr, handlerErr);
    ReadAll(poll, c, r, mailbox, uids, handled, p);
    report := Report(true, found, windows, handled, k);
    MovedTold(c, next, r, cfg.maxMessagesPerPoll, report);
    if Steady(poll, p) {
      ToldCaughtUp(poll, c, r, cfg.maxMessagesPerPoll, report, to, 0, p);
    }
  }

  lemma ReadAll(poll: Poll, c: Cursor, r: SyncResult, mailbox: Mailbox, uids: seq<Uid>, handled: map<Uid, Time>,
                p: Passage)
    requires Honest(poll, p) && poll.examine == Some(mailbox) && c.recovery.None?
    requires Dense(uids, c.lastUid, LastSearchableUid(mailbox), Expected(p, 0), r.more, p.asked)
    requires Delivered(poll, uids, map[], handled, !r.imapErr && !r.handlerErr, p.after.messages.Keys)
    ensures Exhaustive(c, r, p, handled.Keys)
  {
    if !r.more && !r.imapErr && !r.handlerErr {
      forall u | u in p.after.messages && u < p.before.uidNext && Wanted(c, u, p.after.messages[u])
        ensures u in handled {
        assert u in Expected(p, 0);
      }
    }
  }

  /** Splits the found UIDs into those read under the old UIDs, or older than the profile,
      and those to hand over. A message as old as the checkpoint is handed over. */
  method Classify(uids: seq<Uid>, dates: map<Uid, Time>, checkpoint: Time)
    returns (handled: map<Uid, Time>, unread: seq<Uid>)
    requires Ascending(uids)
    ensures Ascending(unread)
    ensures forall u :: u in uids <==> u in unread || u in handled
    ensures forall u :: u in handled ==>
              u !in unread && u in dates && dates[u] == handled[u] && dates[u] != 0 && dates[u] < checkpoint
    ensures forall u :: u in unread ==> !(u in dates && dates[u] != 0 && dates[u] < checkpoint)
  {
    handled, unread := map[], [];
    for i := 0 to |uids|
      invariant Ascending(unread) && forall u :: u in unread ==> u in uids[..i]
      invariant forall u :: u in uids[..i] <==> u in unread || u in handled
      invariant forall u :: u in unread ==> !(u in dates && dates[u] != 0 && dates[u] < checkpoint)
      invariant forall u :: u in handled ==>
                  u !in unread && u in dates && dates[u] == handled[u] && dates[u] != 0 && dates[u] < checkpoint
    {
      var uid := uids[i];
      assert uids[..i + 1] == uids[..i] + [uid];
      assert forall u :: u in uids[..i] ==> u < uid;
      if uid in dates && dates[uid] != 0 && dates[uid] < checkpoint {
        handled := handled[uid := dates[uid]];
      } else {
        assert forall k :: 0 <= k < |unread| ==> unread[k] in uids[..i];
        unread := unread + [uid];
      }
    }
    assert uids[..|uids|] == uids;
  }

  /** A recovery as far as one poll takes it; no search leaves its range. */
  method Recover(session: Session, poll: Poll, cfg: Config, c: Cursor, ghost p: Passage)
    returns (r: SyncResult, ghost done: set<Uid>, ghost report: Report)
    requires Sound(cfg) && Honest(poll, p) && WellKept(c, p.asked) && c.recovery.Some?
    modifies session
    ensures r.cursor.Some? && Progress(c, r.cursor.value, p, done) && Exhaustive(c, r, p, done)
    ensures Told(c, r, cfg.maxMessagesPerPoll, report) && HandledWhy(poll, c, report.handled, done)
    ensures report.searched && Recovering(c) ==>
              Searched(report.found, c.lastUid, c.recovery.value.toUid, Expected(p, c.recovery.value.since),
                       cfg.maxMessagesPerPoll, p.asked)
    ensures Bounded(report.windows, c.lastUid, c.recovery.value.toUid)
    ensures Serves(poll) ==> report.searched && !r.imapErr
    ensures r.handlerErr && !r.imapErr ==> exists u :: u in report.found && !poll.accepts(u)
    ensures Steady(poll, p) ==> CaughtUp(c, r, p)
    ensures FindsNothing(poll, c.recovery.value.since) ==>
              r == SyncResult(Some(FinishRecovery(c)), false, false, false) && done == {}
  {
    done, report := {}, NOTHING;
    var recovery := c.recovery.value;
    if c.lastUid >= recovery.toUid {
      return SyncResult(Some(FinishRecovery(c)), false, false, false), done, report;
    }
    var uids, ok;
    ghost var windows;
    uids, ok, windows := SearchFor(poll, c.lastUid, recovery.toUid, recovery.since, cfg.maxMessagesPerPoll, p);
    report := Report(ok, if ok then uids else [], windows, map[], 0);
    if !ok {
      return SyncResult(Some(c), false, true, false), done, report;
    }
    if |uids| == 0 {
      NothingFound(c, uids, cfg.maxMessagesPerPoll, p);
      return SyncResult(Some(FinishRecovery(c)), false, false, false), done, report;
    }
    r, done, report := RecoverFound(session, poll, cfg, c, uids, windows, p);
  }

  lemma NothingFound(c: Cursor, uids: seq<Uid>, limit: nat, p: Passage)
    requires Recovering(c) && WellKept(c, p.asked) && uids == []
    requires Searched(uids, c.lastUid, c.recovery.value.toUid, Expected(p, c.recovery.value.since), limit, p.asked)
    ensures forall u :: u in p.after.messages ==> !Wanted(c, u, p.after.messages[u])
  {
    WantedExpected(c, p);
  }

  /** What the search of a recovery has found is read as far as the limit. */
  method RecoverFound(session: Session, poll: Poll, cfg: Config, c: Cursor, found: seq<Uid>,
                      ghost windows: seq<(Uid, Uid)>, ghost p: Passage)
    returns (r: SyncResult, ghost done: set<Uid>, ghost report: Report)
    requires Sound(cfg) && Honest(poll, p) && WellKept(c, p.asked) && Recovering(c)
    requires forall u :: u in found ==> Mentioned(poll, c.recovery.value.since, u)
    requires Searched(found, c.lastUid, c.recovery.value.toUid, Expected(p, c.recovery.value.since),
                      cfg.maxMessagesPerPoll, p.asked)
    modifies session
    ensures report.found == found && report.searched && report.windows == windows
    ensures Told(c, r, cfg.maxMessagesPerPoll, report) && HandledWhy(poll, c, report.handled, done)
    ensures Progress(c, r.cursor.value, p, done) && Exhaustive(c, r, p, done)
    ensures Serves(poll) ==> !r.imapErr
    ensures r.handlerErr && !r.imapErr ==> exists u :: u in found && !poll.accepts(u)
    ensures Steady(poll, p) ==> CaughtUp(c, r, p)
  {
    done, report := {}, Report(true, found, windows, map[], 0);
    var uids, limited := found, |found| > cfg.maxMessagesPerPoll;
    CutIsDense(found, c.lastUid, c.recovery.value.toUid, Expected(p, c.recovery.value.since), cfg.maxMessagesPerPoll,
               p.asked);
    if limited {
      uids := uids[..cfg.maxMessagesPerPoll];
    }
    var dates := poll.dates(uids);
    if dates.None? {
      r := SyncResult(Some(c), false, true, false);
      MovedTold(c, c, r, cfg.maxMessagesPerPoll, report);
      return;
    }
    var handled, imapErr, handlerErr;
    handled, done, imapErr, handlerErr := DeliverUnread(session, poll, cfg, c, uids, dates.value, p);
    var next;
    ghost var k;
    next, k := AdvanceConfirmed(c, uids, handled);
    if imapErr || handlerErr {
      r := SyncResult(Some(next), false, imapErr, handlerErr);
    } else if !limited {
      r := SyncResult(Some(FinishRecovery(next)), false, false, false);
    } else {
      r := SyncResult(Some(next), true, false, false);
    }
    RecoveryProgress(c, r, uids, handled, done, limited, p);
    report := report.(handled := handled, prefix := k);
    MovedTold(c, next, r, cfg.maxMessagesPerPoll, report);
    if Steady(poll, p) {
      ToldCaughtUp(poll, c, r, cfg.maxMessagesPerPoll, report, c.recovery.value.toUid, c.recovery.value.since, p);
    }
  }

  /** Takes as read what is older than the checkpoint, and hands over the rest. */
  method DeliverUnread(session: Session, poll: Poll, cfg: Config, c: Cursor, uids: seq<Uid>, dates: map<Uid, Time>,
                       ghost p: Passage)
    returns (handled: map<Uid, Time>, ghost done: set<Uid>, imapErr: bool, handlerErr: bool)
    requires Sound(cfg) && Honest(poll, p) && c.recovery.Some? && Ascending(uids) && poll.dates(uids) == Some(dates)
    modifies session
    ensures HandledWhy(poll, c, handled, done)
    ensures forall u :: u in handled && u in p.after.messages && Wanted(c, u, p.after.messages[u]) ==> u in done
    ensures !imapErr && !handlerErr ==> forall u :: u in uids && u in p.after.messages ==> u in handled
    ensures Serves(poll) ==> !imapErr
    ensures handlerErr && !imapErr ==> exists u :: u in uids && !poll.accepts(u)
  {
    var past, unread := Classify(uids, dates, c.recovery.value.checkpoint);
    handled, imapErr, handlerErr := Deliver(session, poll, cfg, unread, past, p.after.messages.Keys);
    done := handled.Keys - past.Keys;
    SetAside(poll, c, unread, past, handled);
    OldUnwanted(poll, c, uids, dates, past, p);
  }

  lemma SetAside(poll: Poll, c: Cursor, unread: seq<Uid>, past: map<Uid, Time>, handled: map<Uid, Time>)
    requires c.recovery.Some? && past.Keys <= handled.Keys && forall u :: u in past ==> u !in unread
    requires forall u :: u in handled ==> Dated(poll, past, handled, unread, u)
    requires forall u :: u in handled && u !in past ==> poll.accepts(u)
    requires forall u :: u in past ==> 0 != past[u] < c.recovery.value.checkpoint
    ensures HandledWhy(poll, c, handled, handled.Keys - past.Keys)
  {
    forall u | u in handled ensures if u in past then handled[u] == past[u] else handled[u] == poll.date(u) {
      assert Dated(poll, past, handled, unread, u);
    }
  }

  /** What a recovery must hand over is found by its dated search. */
  lemma WantedExpected(c: Cursor, p: Passage)
    requires WellKept(c, p.asked) && c.recovery.Some?
    ensures forall u :: u in p.after.messages && Wanted(c, u, p.after.messages[u]) ==>
              u in Expected(p, c.recovery.value.since)
  {
  }

  /** What is taken as read is not wanted. */
  lemma OldUnwanted(poll: Poll, c: Cursor, uids: seq<Uid>, dates: map<Uid, Time>, past: map<Uid, Time>, p: Passage)
    requires Honest(poll, p) && poll.dates(uids) == Some(dates) && c.recovery.Some?
    requires forall u :: u in past ==> u in dates && dates[u] != 0 && dates[u] < c.recovery.value.checkpoint
    ensures forall u :: u in past && u in p.after.messages ==> !Wanted(c, u, p.after.messages[u])
  {
  }

  lemma RecoveryProgress(c: Cursor, r: SyncResult, uids: seq<Uid>, handled: map<Uid, Time>, done: set<Uid>,
                         limited: bool, p: Passage)
    requires Recovering(c) && WellKept(c, p.asked)
               && Dense(uids, c.lastUid, c.recovery.value.toUid, Expected(p, c.recovery.value.since), limited, p.asked)
    requires forall u :: u in handled && u in p.after.messages && Wanted(c, u, p.after.messages[u]) ==> u in done
    requires !r.imapErr && !r.handlerErr ==> forall u :: u in uids && u in p.after.messages ==> u in handled
    requires r.more ==> limited
    requires var next := Advanced(c, uids, handled);
             r.cursor == Some(if r.imapErr || r.handlerErr || limited then next
                              else next.(lastUid := c.recovery.value.toUid, recovery := None))
    requires !r.imapErr && !r.handlerErr ==> r.more == limited
    ensures Progress(c, r.cursor.value, p, done) && Exhaustive(c, r, p, done)
  {
    PrefixPassed(c, uids, handled, c.recovery.value.toUid, c.recovery.value.since, limited, p);
    WantedExpected(c, p);
  }

  // ---------------------------------------------------------------------------
  // The whole poll.

  /** Where a poll starts: at the end of a mailbox it has not read, at a recovery of one
      whose UIDs were reassigned, at the stored cursor otherwise. */
  ghost predicate Begins(stored: Option<Cursor>, name: string, c: Cursor, lastReceivedAt: Option<Time>, p: Passage) {
    && c.mailbox == name && WellKept(c, p.asked)
    && if stored.None? || stored.value.mailbox != name then
         AtEnd(c, p)
       else if stored.value.uidValidity != p.before.uidValidity then
         var known := RecoveryCheckpoint(stored.value);
         var checkpoint := if known == 0 && lastReceivedAt.Some? then lastReceivedAt.value else known;
         if checkpoint == 0 then AtEnd(c, p) else FromCheckpoint(c, checkpoint, p)
       else c == stored.value
  }

  ghost predicate AtEnd(c: Cursor, p: Passage) {
    && c.recovery.None? && c.lastInternalDate == 0
    && forall u :: u in p.after.messages && u < p.before.uidNext ==> u <= c.lastUid
  }

  ghost predicate FromCheckpoint(c: Cursor, checkpoint: Time, p: Passage) {
    && c.lastUid == 0 && c.lastInternalDate == checkpoint
    && c.recovery.Some? && c.recovery.value.checkpoint == checkpoint
    && forall u :: u in p.after.messages && u < p.before.uidNext ==> u <= c.recovery.value.toUid
  }

  /** A poll that returns a cursor went on from where it began; one that returns none has
      failed and has handed nothing over. */
  ghost predicate Synced(stored: Option<Cursor>, poll: Poll, begin: Cursor, r: SyncResult, p: Passage, done: set<Uid>) {
    && (forall u :: u in done ==> poll.accepts(u))
    && (r.cursor.None? ==> done == {} && (r.imapErr || r.handlerErr))
    && (r.cursor.Some? ==>
          && poll.examine.Some? && Begins(stored, poll.examine.value.name, begin, poll.lastReceivedAt, p)
          && Progress(begin, r.cursor.value, p, done) && Exhaustive(begin, r, p, done))
  }

  /** The poll starts at the end of the mailbox, or with a recovery that finds nothing, and
      the server answers. */
  ghost predicate Certain(stored: Option<Cursor>, poll: Poll) {
    && poll.examine.Some? && poll.examine.value.uidNext > 0
    && (stored.None? || stored.value.mailbox != poll.examine.value.name
        || (stored.value.uidValidity != poll.examine.value.uidValidity
            && (RecoveryCheckpoint(stored.value) == 0 ==> poll.lastReceivedAt.Some?)
            && Checkpoint(stored.value, poll) != 0 && FindsNothing(poll, Checkpoint(stored.value, poll) - DAY)))
  }

  function Checkpoint(stored: Cursor, poll: Poll): Time {
    var known := RecoveryCheckpoint(stored);
    if known == 0 && poll.lastReceivedAt.Some? then poll.lastReceivedAt.value else known
  }

  /** What it then returns, where it began, and that nothing was handed over. */
  ghost function Certainly(stored: Option<Cursor>, poll: Poll): (SyncResult, Cursor, set<Uid>)
    requires Certain(stored, poll)
  {
    var mailbox := poll.examine.value;
    if stored.None? || stored.value.mailbox != mailbox.name then
      var end := Cursor(mailbox.name, mailbox.uidValidity, mailbox.uidNext - 1, 0, None);
      (SyncResult(Some(end), false, false, false), end, {})
    else
      var begin := StartRecovery(mailbox, mailbox.uidNext - 1, Checkpoint(stored.value, poll));
      (SyncResult(Some(FinishRecovery(begin)), false, false, false), begin, {})
  }

  /** The server does its part, the newest stored date is known and the handler accepts
      every message. */
  ghost predicate Smooth(poll: Poll) {
    Serves(poll) && poll.lastReceivedAt.Some? && forall u :: poll.accepts(u)
  }

  /** Where the poll has left the cursor, and why; when all goes well it has no error, and
      then it has caught up with the mailbox. */
  ghost predicate Reported(poll: Poll, cfg: Config, begin: Cursor, r: SyncResult, p: Passage, done: set<Uid>,
                           report: Report) {
    && (r.cursor.Some? ==>
          Told(begin, r, cfg.maxMessagesPerPoll, report) && HandledWhy(poll, begin, report.handled, done))
    && (Smooth(poll) ==> r.cursor.Some? && !r.imapErr && !r.handlerErr)
    && (Steady(poll, p) ==> CaughtUp(begin, r, p))
  }

  method Sync(session: Session, poll: Poll, cfg: Config, stored: Option<Cursor>, ghost p: Passage)
    returns (r: SyncResult, ghost begin: Cursor, ghost done: set<Uid>, ghost report: Report)
    requires Sound(cfg) && Honest(poll, p)
    requires stored.Some? && stored.value.uidValidity == p.before.uidValidity ==> WellKept(stored.value, p.before)
    modifies session
    ensures Synced(stored, poll, begin, r, p, done) && Reported(poll, cfg, begin, r, p, done, report)
    ensures stored.None? || (poll.examine.Some? && stored.value.mailbox != poll.examine.value.name) ==>
              report == NOTHING
    ensures Certain(stored, poll) ==> (r, begin, done) == Certainly(stored, poll)
  {
    begin, done, report := Cursor("", 0, 0, 0, None), {}, NOTHING;
    if poll.examine.None? {
      return SyncResult(None, false, true, false), begin, done, report;
    }
    var mailbox := poll.examine.value;
    if stored.None? || stored.value.mailbox != mailbox.name {
      var last, ok := LastUid(poll, mailbox, p);
      if !ok {
        return SyncResult(None, false, true, false), begin, done, report;
      }
      var cursor := Cursor(mailbox.name, mailbox.uidValidity, last, 0, None);
      begin := cursor;
      r := SyncResult(Some(cursor), false, false, false);
    } else if stored.value.uidValidity != mailbox.uidValidity {
      r, begin, done, report := Restart(session, poll, cfg, stored.value, mailbox, p);
    } else if stored.value.recovery.Some? {
      begin := stored.value;
      r, done, report := Recover(session, poll, cfg, stored.value, p);
    } else {
      begin := stored.value;
      r, done, report := Read(session, poll, cfg, stored.value, mailbox, p);
    }
  }

  /** The mailbox has reassigned its UIDs. */
  method Restart(session: Session, poll: Poll, cfg: Config, stored: Cursor, mailbox: Mailbox, ghost p: Passage)
    returns (r: SyncResult, ghost begin: Cursor, ghost done: set<Uid>, ghost report: Report)
    requires Sound(cfg) && Honest(poll, p) && poll.examine == Some(mailbox)
    requires stored.mailbox == mailbox.name && stored.uidValidity != mailbox.uidValidity
    modifies session
    ensures Synced(Some(stored), poll, begin, r, p, done) && Reported(poll, cfg, begin, r, p, done, report)
    ensures Certain(Some(stored), poll) ==> (r, begin, done) == Certainly(Some(stored), poll)
  {
    begin, done, report := stored, {}, NOTHING;
    var last, ok := LastUid(poll, mailbox, p);
    if !ok {
      return SyncResult(None, false, true, false), begin, done, report;
    }
    var checkpoint := RecoveryCheckpoint(stored);
    if checkpoint == 0 {
      if poll.lastReceivedAt.None? {
        return SyncResult(None, false, false, true), begin, done, report;
      }
      checkpoint := poll.lastReceivedAt.value;
    }
    var cursor := StartRecovery(mailbox, last, checkpoint);
    begin := cursor;
    if cursor.recovery.None? {
      return SyncResult(Some(cursor), false, false, false), begin, done, report;
    }
    r, done, report := Recover(session, poll, cfg, cursor, p);
  }
}
