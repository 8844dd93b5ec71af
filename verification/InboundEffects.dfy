/** What the transactions of an email write, column by column, and what a stored email
    means for the emails that come after it. */
module InboundEffects {
  import opened Options
  import opened Messages
  import opened Threading
  import opened Inbound

  /** The row carries the email. */
  ghost predicate Carries(row: Message, p: Parsed) {
    && row.scope == p.place.scope && row.kind == p.kind && row.attempts == 0
    && row.messageId == p.messageId && row.generated == p.generated && row.checksum == p.checksum
    && row.inReplyTo == p.inReplyTo && row.receivedAt == p.receivedAt && row.describable == p.describable
    && row.place == (if p.place.mailbox == "" then None else Some(p.place))
    && |row.parts| == |p.parts|
    && (forall i :: 0 <= i < |p.parts| && p.parts[i].skipped ==> row.parts[i] == SkippedPart)
    && (forall i :: 0 <= i < |p.parts| && !p.parts[i].skipped ==> row.parts[i] == PendingPart)
  }

  predicate Undecided(t: Thread) {
    t.kind.RegularThread? && (t.resolution.Pending? || t.resolution.Unavailable?)
  }

  /** The later of a date, if there is one, and another. */
  predicate LaterOf(known: Option<Time>, at: Time, date: Option<Time>) {
    && date.Some? && at <= date.value && (known.Some? ==> known.value <= date.value)
    && (date.value == at || date == known)
  }

  /** The threads after an email has found its own, or has opened it. */
  ghost predicate Joins(db: Db, b: Db, p: Parsed, t: nat) {
    && |db.threads| <= |b.threads| && t < |b.threads|
    && (forall u :: 0 <= u < |db.threads| && u != t ==> b.threads[u] == db.threads[u])
    && match ResolveThread(db, p)
       case Some(found) =>
         && t == found && |b.threads| == |db.threads|
         && b.threads[t].(lastMessageAt := db.threads[t].lastMessageAt) == db.threads[t]
       case None =>
         && t == |db.threads| && |b.threads| == t + 1 && b.threads[t].scope == p.place.scope
         && (p.kind.Regular? ==> b.threads[t].kind.RegularThread? && b.threads[t].resolution.Pending?)
         && (!p.kind.Regular? ==> b.threads[t].kind.ServiceThread? && b.threads[t].resolution.NotApplicable?)
  }

  function DateOf(db: Db, t: nat): Option<Time> {
    if t < |db.threads| then db.threads[t].lastMessageAt else None
  }

  /** One more event for a message that starts a flow, unless a live row has its key. */
  ghost predicate Announces(db: Db, b: Db, domain: nat, m: nat, starts: bool) {
    if starts && Key(domain, m) !in db.outbox
    then b.outbox == db.outbox + [Key(domain, m)] && b.appended == db.appended + {m}
    else b.outbox == db.outbox && b.appended == db.appended
  }

  predicate StartsFlow(db: Db, m: nat) {
    && m < |db.messages| && db.messages[m].kind.Regular?
    && db.messages[m].thread < |db.threads| && db.threads[db.messages[m].thread].kind.RegularThread?
  }

  /** An email that was unknown is stored: hidden while a file or a contact is missing,
      otherwise visible with its event. */
  ghost predicate Stores(db: Db, b: Db, p: Parsed) {
    var k := |db.messages|;
    && |b.messages| == k + 1 && b.messages[..k] == db.messages && Carries(b.messages[k], p)
    && b.failures == db.failures && b.gaveUp == db.gaveUp
    && var row := b.messages[k];
       && Joins(db, b, p, row.thread) && !row.state.Failed?
       && (row.state.Processing? <==>
             (exists i :: 0 <= i < |p.parts| && !p.parts[i].skipped) || Undecided(b.threads[row.thread]))
       && (row.state.Processing? ==> b.threads[row.thread].lastMessageAt == DateOf(db, row.thread))
       && (row.state.Ready? ==> LaterOf(DateOf(db, row.thread), p.receivedAt, b.threads[row.thread].lastMessageAt))
       && Announces(db, b, p.place.scope.domain, k, row.state.Ready? && StartsFlow(b, k))
  }

  /** The snapshot a worker takes of a message and its thread. */
  ghost predicate Snapshot(db: Db, s: Stored, m: nat) {
    && m < |db.messages| && db.messages[m].thread < |db.threads|
    && s.id == m && s.thread == db.messages[m].thread
    && s.threadKind == db.threads[s.thread].kind && s.resolution == db.threads[s.thread].resolution
  }

  lemma RowCarries(p: Parsed, t: nat, state: MessageState)
    ensures var row := BuildMessage(p, t, state); Carries(row, p) && row.thread == t && row.state == state
  {
  }

  lemma PlacedJoins(db: Db, p: Parsed)
    ensures var (threads, t) := Placed(db, p);
            Joins(db, db.(threads := threads), p, t) && threads[t].lastMessageAt == DateOf(db, t)
  {
    if ResolveThread(db, p).Some? {
      ResolvedInScope(db, p);
    }
  }

  /** The date of a thread becomes the later one, and nothing else changes. */
  lemma AdvanceWrites(db: Db, scope: Scope, t: nat, at: Time)
    requires t < |db.threads| && db.threads[t].scope == scope
    ensures var b := AdvanceLastMessage(db, scope, t, at);
            && |b.threads| == |db.threads| && b == db.(threads := b.threads)
            && (forall u :: 0 <= u < |db.threads| && u != t ==> b.threads[u] == db.threads[u])
            && b.threads[t] == db.threads[t].(lastMessageAt := b.threads[t].lastMessageAt)
            && LaterOf(db.threads[t].lastMessageAt, at, b.threads[t].lastMessageAt)
  {
  }

  lemma EventWrites(db: Db, domain: nat, m: nat)
    requires WriteEvent(db, domain, m).Some?
    ensures var b := WriteEvent(db, domain, m).value;
            b == db.(outbox := b.outbox, appended := b.appended) && Announces(db, b, domain, m, StartsFlow(db, m))
  {
  }

  lemma CreatedStores(db: Db, p: Parsed)
    ensures var b, k := Created(db, p), |db.messages|;
            && |b.messages| == k + 1 && b.messages[..k] == db.messages && Carries(b.messages[k], p)
            && b == db.(threads := b.threads, messages := b.messages)
            && Joins(db, b, p, b.messages[k].thread) && !b.messages[k].state.Failed?
            && (b.messages[k].state.Processing? <==>
                  (exists i :: 0 <= i < |p.parts| && !p.parts[i].skipped) || Undecided(b.threads[b.messages[k].thread]))
            && b.threads[b.messages[k].thread].lastMessageAt == DateOf(db, b.messages[k].thread)
            && b.threads[b.messages[k].thread].scope == p.place.scope
  {
    var (threads, t) := Placed(db, p);
    PlacedJoins(db, p);
    RowCarries(p, t, FirstState(p, threads[t]));
    assert Created(db, p).messages[..|db.messages|] == db.messages;
  }

  lemma ReadyStores(db: Db, p: Parsed)
    requires Persist(db, p).Confirmed?
    ensures Stores(db, Persist(db, p).db, p) && Persist(db, p).db.messages[|db.messages|].state.Ready?
  {
    CreatedStores(db, p);
    var created, k := Created(db, p), |db.messages|;
    var t := created.messages[k].thread;
    AdvanceWrites(created, p.place.scope, t, p.receivedAt);
    var advanced := AdvanceLastMessage(created, p.place.scope, t, p.receivedAt);
    EventWrites(advanced, p.place.scope.domain, k);
  }

  lemma PersistStores(db: Db, p: Parsed)
    ensures var h := Persist(db, p);
            !h.Refused? ==>
              && Stores(db, h.db, p) && (h.Unfinished? <==> h.db.messages[|db.messages|].state.Processing?)
              && (h.Unfinished? ==> Snapshot(h.db, h.stored, |db.messages|))
  {
    CreatedStores(db, p);
    if Persist(db, p).Confirmed? {
      ReadyStores(db, p);
    }
  }

  /** The first transaction writes nothing for a known email, and for an unknown one all of
      it, field by field. */
  lemma HandleStores(db: Db, p: Parsed)
    ensures var h := Handle(db, p);
            !h.Refused? ==>
              && (LocateStored(db, p).None? ==> Stores(db, h.db, p)) && (LocateStored(db, p).Some? ==> h.db == db)
              && var m := if LocateStored(db, p).Some? then LocateStored(db, p).value else |db.messages|;
                 && m < |h.db.messages| && (h.Unfinished? <==> h.db.messages[m].state.Processing?)
                 && (h.Unfinished? ==> Snapshot(h.db, h.stored, m))
  {
    PersistStores(db, p);
  }

  // ---------------------------------------------------------------------------
  // A stored email and the ones that follow.

  /** A row stored for p, at any later time, as a lookup for q sees it. */
  lemma StaysFindable(db: Db, b: Db, c: Db, p: Parsed, q: Parsed)
    requires Stores(db, b, p) && Grows(b, c) && q.place.scope == p.place.scope
    requires q.kind.Regular? ==> b.threads[b.messages[|db.messages|].thread].kind.RegularThread?
    requires ResolveThread(db, p).Some? ==>
               var t := ResolveThread(db, p).value; t < |db.threads| && db.threads[t].scope == p.place.scope
    ensures var k := |db.messages|;
            && k < |c.messages| && InLookup(c.threads, LookupOf(q), c.messages[k])
            && c.messages[k].thread == b.messages[k].thread && c.messages[k].inReplyTo == p.inReplyTo
            && c.messages[k].messageId == p.messageId && c.messages[k].scope == p.place.scope
  {
    var k := |db.messages|;
    assert MessageGrows(b.messages[k], c.messages[k]);
    assert ThreadGrows(b.threads[b.messages[k].thread], c.threads[b.messages[k].thread]);
  }

  /** An ordinary email is in an ordinary thread, so emails of one kind find each other. */
  lemma SameKindFindable(db: Db, b: Db, c: Db, p: Parsed, q: Parsed)
    requires Stores(db, b, p) && Grows(b, c) && q.place.scope == p.place.scope && q.kind == p.kind
    ensures var k := |db.messages|;
            && k < |c.messages| && InLookup(c.threads, LookupOf(q), c.messages[k])
            && c.messages[k].thread == b.messages[k].thread && c.messages[k].inReplyTo == p.inReplyTo
            && c.messages[k].messageId == p.messageId && c.messages[k].scope == p.place.scope
  {
    if ResolveThread(db, p).Some? {
      ResolvedInScope(db, p);
    }
    StaysFindable(db, b, c, p, q);
  }

  /** Two answers to an email that was never stored: the second one joins the first, at any
      later time, unless an ancestor or another answer is stored. */
  lemma SiblingJoins(db: Db, b: Db, c: Db, p: Parsed, q: Parsed)
    requires Stores(db, b, p) && Grows(b, c) && q.place.scope == p.place.scope && q.kind == p.kind
    requires q.inReplyTo == p.inReplyTo != "" && forall m: nat :: !Ancestor(c, q, m)
    requires forall m: nat :: AnswersTo(c, q, q.inReplyTo, m) ==> m == |db.messages|
    ensures ResolveThread(c, q) == Some(b.messages[|db.messages|].thread)
  {
    SameKindFindable(db, b, c, p, q);
    assert AnswersTo(c, q, q.inReplyTo, |db.messages|);
    RepliesDecide(c, q);
  }

  /** An answer that was stored before the email it answers: that email joins it. */
  lemma ParentJoins(db: Db, b: Db, c: Db, p: Parsed, q: Parsed)
    requires Stores(db, b, p) && Grows(b, c) && q.place.scope == p.place.scope && q.kind == p.kind
    requires q.messageId == p.inReplyTo != "" && !q.generated && forall m: nat :: !Ancestor(c, q, m)
    requires forall m: nat :: !AnswersTo(c, q, q.inReplyTo, m)
    requires forall m: nat :: AnswersTo(c, q, q.messageId, m) ==> m == |db.messages|
    ensures ResolveThread(c, q) == Some(b.messages[|db.messages|].thread)
  {
    SameKindFindable(db, b, c, p, q);
    assert AnswersTo(c, q, q.messageId, |db.messages|);
    RepliesDecide(c, q);
  }

  /** An email joins the thread of the stored email that it names most strongly, whatever
      else it names and is stored. */
  lemma AnswerJoins(db: Db, b: Db, c: Db, p: Parsed, q: Parsed)
    requires Stores(db, b, p) && Grows(b, c) && Unique(c.messages)
    requires q.place.scope == p.place.scope && q.kind == p.kind && Mentions(q, p.messageId)
    requires forall id :: Mentions(q, id) && id != p.messageId ==> Strength(q, id) < Strength(q, p.messageId)
    ensures ResolveThread(c, q) == Some(b.messages[|db.messages|].thread)
  {
    var k := |db.messages|;
    SameKindFindable(db, b, c, p, q);
    assert Ancestor(c, q, k);
    LastAncestorDecides(c, q);
    var m: nat :| Ancestor(c, q, m) && ResolveThread(c, q) == Some(c.messages[m].thread)
      && forall o: nat :: Ancestor(c, q, o) ==>
           Strength(q, c.messages[o].messageId) <= Strength(q, c.messages[m].messageId);
    OneOfEachId(c.messages, m, k);
  }

  lemma OneOfEachId(rows: seq<Message>, i: nat, j: nat)
    requires Unique(rows) && i < |rows| && j < |rows| && SameId(rows[i], rows[j])
    ensures i == j
  {
    assert Clashes(rows[i], rows[j]) && Clashes(rows[j], rows[i]);
  }

  // ---------------------------------------------------------------------------
  // Finishing an email.

  /** Nothing but one message and one thread has changed. */
  ghost predicate Within(db: Db, b: Db, m: nat, t: nat) {
    && |b.messages| == |db.messages| && |b.threads| == |db.threads|
    && (forall k :: 0 <= k < |db.messages| && k != m ==> b.messages[k] == db.messages[k])
    && (forall u :: 0 <= u < |db.threads| && u != t ==> b.threads[u] == db.threads[u])
  }

  /** A completion that commits: a processing message becomes ready, the answer goes to an
      undecided thread only, and unless the message has failed, the thread has the later of
      its dates and the event is there. */
  ghost predicate Completes(db: Db, b: Db, p: Parsed, s: Stored, r: Option<Resolution>)
    requires s.id < |db.messages| && s.thread < |db.threads|
  {
    var row, thread := db.messages[s.id], db.threads[s.thread];
    && Within(db, b, s.id, s.thread) && b.failures == db.failures && b.gaveUp == db.gaveUp
    && b.messages[s.id] == row.(state := if row.state.Processing? then Ready else row.state)
    && b.threads[s.thread].scope == thread.scope && b.threads[s.thread].kind == thread.kind
    && b.threads[s.thread].resolution == (if r.Some? && Undecided(thread) then r.value else thread.resolution)
    && (row.state.Failed? ==> b.threads[s.thread].lastMessageAt == thread.lastMessageAt)
    && (!row.state.Failed? ==> LaterOf(thread.lastMessageAt, p.receivedAt, b.threads[s.thread].lastMessageAt))
    && Announces(db, b, p.place.scope.domain, s.id, !row.state.Failed? && StartsFlow(db, s.id))
  }

  lemma ResolveWrites(db: Db, domain: nat, t: nat, r: Resolution)
    requires t < |db.threads| && db.threads[t].scope.domain == domain
    ensures ResolveContact(db, domain, t, r) ==
            db.(threads := db.threads[t := db.threads[t].(
              resolution := if Undecided(db.threads[t]) then r else db.threads[t].resolution)])
  {
    assert db.threads[t := db.threads[t]] == db.threads;
  }

  /** The completion without an answer to write. */
  lemma ShowWrites(db: Db, p: Parsed, s: Stored)
    requires s.id < |db.messages| && Shares(p, db.messages[s.id]) && Joined(db.threads, db.messages[s.id])
    requires s.thread == db.messages[s.id].thread
    ensures var b := Complete(db, p, s, None);
            b.Some? ==>
              && Completes(db, b.value, p, s, None)
              && (db.messages[s.id].state.Processing? ==> NoPending(db.messages[s.id]))
  {
    var domain := p.place.scope.domain;
    var (marked, state) := MarkReady(db, domain, s.id);
    if state == Some(Ready) && Complete(db, p, s, None).Some? {
      AdvanceWrites(marked, p.place.scope, s.thread, p.receivedAt);
      EventWrites(AdvanceLastMessage(marked, p.place.scope, s.thread, p.receivedAt), domain, s.id);
    }
  }

  lemma CompleteWrites(db: Db, p: Parsed, s: Stored, r: Option<Resolution>)
    requires StoredKept(db, p, s)
    ensures Complete(db, p, s, r).Some? ==> Completes(db, Complete(db, p, s, r).value, p, s, r)
    ensures Complete(db, p, s, r).Some? && db.messages[s.id].state.Processing? ==>
              forall i :: 0 <= i < |db.messages[s.id].parts| ==> !db.messages[s.id].parts[i].PendingPart?
  {
    if r.Some? {
      ResolveWrites(db, p.place.scope.domain, s.thread, r.value);
      ShowWrites(ResolveContact(db, p.place.scope.domain, s.thread, r.value), p, s);
    } else {
      ShowWrites(db, p, s);
    }
  }

  /** A message that is given up while it is processing fails and is recorded; a finished
      one stays as it is. */
  ghost predicate GivesUp(db: Db, b: Db, p: Parsed, s: Stored)
    requires s.id < |db.messages|
  {
    if db.messages[s.id].state.Processing? then
      && b.messages == db.messages[s.id := db.messages[s.id].(state := Failed)] && b.threads == db.threads
      && b.failures == db.failures + {p.place} && b.gaveUp == db.gaveUp + {(s.id, p.place)}
      && b.outbox == db.outbox && b.appended == db.appended
    else b == db
  }

  lemma GiveUpWrites(db: Db, p: Parsed, s: Stored)
    requires StoredKept(db, p, s)
    ensures GivesUp(db, GiveUp(db, p, s), p, s)
  {
  }

  /** A failed upload costs one attempt, and the last one allowed gives the message up. */
  ghost predicate Spends(db: Db, b: Db, p: Parsed, s: Stored, maxAttempts: nat, exhausted: bool)
    requires s.id < |db.messages|
  {
    var row := db.messages[s.id].(attempts := db.messages[s.id].attempts + 1);
    && (exhausted <==> row.attempts >= maxAttempts)
    && b.messages == db.messages[s.id := row.(state := if exhausted then Failed else Processing)]
    && b.threads == db.threads && b.outbox == db.outbox && b.appended == db.appended
    && b.failures == (if exhausted then db.failures + {p.place} else db.failures)
    && b.gaveUp == (if exhausted then db.gaveUp + {(s.id, p.place)} else db.gaveUp)
  }

  lemma SpendWrites(db: Db, p: Parsed, s: Stored, maxAttempts: nat)
    requires StoredKept(db, p, s)
    ensures var r := Spend(db, p, s, maxAttempts);
            && (r.Some? <==> db.messages[s.id].state.Processing?)
            && (r.Some? ==> Spends(db, r.value.0, p, s, maxAttempts, r.value.1))
  {
  }
}
