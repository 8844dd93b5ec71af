/** The transactions that store an email and finish it, and what each of them keeps. */
module Inbound {
  import opened Options
  import opened Messages
  import opened Threading

  /** What a worker remembers of a message it has to finish. */
  datatype Stored = Stored(id: nat, thread: nat, threadKind: ThreadKind, resolution: Resolution)

  predicate NeedsContact(s: Stored) {
    s.threadKind.RegularThread? && (s.resolution.Pending? || s.resolution.Unavailable?)
  }

  /** Rolled back; committed and confirmed; committed with work left. */
  datatype Handling = Refused | Confirmed(db: Db) | Unfinished(db: Db, stored: Stored)

  function Manifest(parts: seq<Part>): seq<PartState> {
    seq(|parts|, i requires 0 <= i < |parts| => if parts[i].skipped then SkippedPart else PendingPart)
  }

  function BuildMessage(p: Parsed, thread: nat, state: MessageState): Message {
    Message(p.place.scope, thread, p.kind, state, 0, p.messageId, p.generated, p.checksum,
            if p.place.mailbox != "" then Some(p.place) else None, p.inReplyTo, p.receivedAt, Manifest(p.parts),
            p.describable)
  }

  /** The thread the email joins, and the threads with it. */
  function Placed(db: Db, p: Parsed): (r: (seq<Thread>, nat))
    ensures r.1 < |r.0| && r.0[r.1].scope == p.place.scope && (p.kind.Regular? ==> r.0[r.1].kind.RegularThread?)
    ensures r.0 == db.threads || (r.0 == db.threads + [NewThread(p)] && r.1 == |db.threads|)
  {
    var found := ResolveThread(db, p);
    if found.Some? then
      ResolvedInScope(db, p);
      (db.threads, found.value)
    else (db.threads + [NewThread(p)], |db.threads|)
  }

  /** The email stays invisible while a file is to be uploaded or a contact to be found. */
  function FirstState(p: Parsed, thread: Thread): MessageState {
    if (exists i :: 0 <= i < |p.parts| && !p.parts[i].skipped)
      || NeedsContact(Stored(0, 0, thread.kind, thread.resolution))
    then Processing else Ready
  }

  function Persist(db: Db, p: Parsed): Handling {
    var (threads, t) := Placed(db, p);
    var id := |db.messages|;
    var state := FirstState(p, threads[t]);
    var row := BuildMessage(p, t, state);
    if Conflicts(db.messages, row) then Refused
    else
      var created := db.(threads := threads, messages := db.messages + [row]);
      if state.Processing? then Unfinished(created, Stored(id, t, threads[t].kind, threads[t].resolution))
      else
        var advanced := AdvanceLastMessage(created, p.place.scope, t, p.receivedAt);
        var written := WriteEvent(advanced, p.place.scope.domain, id);
        if written.None? then Refused else Confirmed(written.value)
  }

  /** The first transaction: a finished email is confirmed, an unfinished one continued,
      an unknown one stored. */
  function Handle(db: Db, p: Parsed): Handling {
    var stored := LocateStored(db, p);
    if stored.None? then Persist(db, p)
    else
      var row := db.messages[stored.value];
      if row.state.Processing? then
        Unfinished(db, Stored(stored.value, row.thread, db.threads[row.thread].kind, db.threads[row.thread].resolution))
      else Confirmed(db)
  }

  /** markReady; None is a rollback. */
  function Complete(db: Db, p: Parsed, s: Stored, r: Option<Resolution>): Option<Db> {
    var domain := p.place.scope.domain;
    var resolved := if r.Some? then ResolveContact(db, domain, s.thread, r.value) else db;
    var (marked, state) := MarkReady(resolved, domain, s.id);
    if state == Some(Processing) then None
    else if state != Some(Ready) then Some(marked)
    else WriteEvent(AdvanceLastMessage(marked, p.place.scope, s.thread, p.receivedAt), domain, s.id)
  }

  /** Fails the message and records the delivery; nothing happens once its outcome is decided. */
  function GiveUp(db: Db, p: Parsed, s: Stored): Db {
    var (marked, failed) := MarkFailed(db, p.place.scope.domain, s.id);
    if failed then Record(marked, p.place).(gaveUp := marked.gaveUp + {(s.id, p.place)}) else marked
  }

  /** One failed upload is counted, and the last one allowed fails the message. None is a rollback;
      the flag says that the budget is spent. */
  function Spend(db: Db, p: Parsed, s: Stored, maxAttempts: nat): Option<(Db, bool)> {
    var (counted, attempts) := IncrementAttempts(db, p.place.scope.domain, s.id);
    if attempts.None? then None
    else if attempts.value < maxAttempts then Some((counted, false))
    else Some((GiveUp(counted, p, s), true))
  }

  // ---------------------------------------------------------------------------
  // What holds between any two transactions.

  ghost predicate Linked(db: Db) {
    forall m :: 0 <= m < |db.messages| ==> Joined(db.threads, db.messages[m])
  }

  ghost predicate Unique(rows: seq<Message>) {
    forall i, j :: 0 <= i < j < |rows| ==> !Clashes(rows[i], rows[j])
  }

  /** The lifecycle of one message: ready means complete, in a decided and dated thread,
      with its event appended; failed means recorded; processing means within its budget. */
  ghost predicate MessageKept(db: Db, m: nat, maxAttempts: nat)
    requires m < |db.messages| && Joined(db.threads, db.messages[m])
  {
    var row := db.messages[m];
    var thread := db.threads[row.thread];
    && (row.kind.Regular? ==> thread.kind.RegularThread?)
    && (row.state.Ready? ==> NoPending(row) && !thread.resolution.Pending? && thread.lastMessageAt.Some?)
    && (m in db.appended <==> row.state.Ready? && Eligible(db.threads, row)) && (m in db.appended ==> row.describable)
    && row.attempts <= maxAttempts && (row.state.Processing? ==> row.attempts < maxAttempts)
    && (row.state.Failed? ==> exists place :: (m, place) in db.gaveUp)
  }

  ghost predicate HasReady(db: Db, t: nat) {
    exists m :: 0 <= m < |db.messages| && db.messages[m].thread == t && db.messages[m].state.Ready?
  }

  ghost predicate ThreadKept(db: Db, t: nat)
    requires t < |db.threads|
  {
    && (db.threads[t].lastMessageAt.Some? ==> HasReady(db, t))
    && (db.threads[t].kind.ServiceThread? <==> db.threads[t].resolution.NotApplicable?)
  }

  ghost predicate OutboxKept(db: Db) {
    && (forall i, j :: 0 <= i < j < |db.outbox| ==> db.outbox[i] != db.outbox[j])
    && (forall key :: key in db.outbox ==> key.message in db.appended && IsMessage(db, key.domain, key.message))
    && (forall m :: m in db.appended ==> m < |db.messages|)
    && (forall m, place :: (m, place) in db.gaveUp ==>
          place in db.failures && m < |db.messages| && db.messages[m].state.Failed?)
  }

  ghost predicate Kept(db: Db, maxAttempts: nat) {
    && Linked(db) && Unique(db.messages) && OutboxKept(db)
    && (forall m :: 0 <= m < |db.messages| ==> MessageKept(db, m, maxAttempts))
    && (forall t :: 0 <= t < |db.threads| ==> ThreadKept(db, t))
  }

  // ---------------------------------------------------------------------------
  // What never changes, and what changes in one direction only.

  ghost predicate ThreadGrows(a: Thread, b: Thread) {
    && b.scope == a.scope && b.kind == a.kind
    && (b.resolution.Pending? ==> a.resolution.Pending?)
    && (a.resolution.NotApplicable? <==> b.resolution.NotApplicable?)
    && (a.lastMessageAt.Some? ==> b.lastMessageAt.Some? && a.lastMessageAt.value <= b.lastMessageAt.value)
  }

  ghost predicate MessageGrows(a: Message, b: Message) {
    && b.(state := a.state, attempts := a.attempts, parts := a.parts) == a
    && a.attempts <= b.attempts && (!a.state.Processing? ==> b.state == a.state)
    && PartsGrow(a.parts, b.parts)
  }

  /** A stored file stays, and a skipped part never gets one. */
  ghost predicate PartsGrow(a: seq<PartState>, b: seq<PartState>) {
    |a| == |b| && forall i :: 0 <= i < |a| && !a[i].PendingPart? ==> b[i] == a[i]
  }

  ghost predicate Grows(a: Db, b: Db) {
    && |a.threads| <= |b.threads| && |a.messages| <= |b.messages|
    && (forall t :: 0 <= t < |a.threads| ==> ThreadGrows(a.threads[t], b.threads[t]))
    && (forall m :: 0 <= m < |a.messages| ==> MessageGrows(a.messages[m], b.messages[m]))
    && a.failures <= b.failures && a.appended <= b.appended && a.gaveUp <= b.gaveUp
  }

  lemma GrowsReflexive(a: Db)
    ensures Grows(a, a)
  {
  }

  lemma GrowsTransitive(a: Db, b: Db, c: Db)
    requires Grows(a, b) && Grows(b, c)
    ensures Grows(a, c)
  {
    forall t | 0 <= t < |a.threads| ensures ThreadGrows(a.threads[t], c.threads[t]) {
      assert ThreadGrows(a.threads[t], b.threads[t]) && ThreadGrows(b.threads[t], c.threads[t]);
    }
    forall m | 0 <= m < |a.messages| ensures MessageGrows(a.messages[m], c.messages[m]) {
      assert MessageGrows(a.messages[m], b.messages[m]) && MessageGrows(b.messages[m], c.messages[m]);
    }
  }

  // ---------------------------------------------------------------------------
  // A transaction that touches one message keeps the others.

  /** b differs from a in the message k only, which may be new, and in threads. */
  ghost predicate Touches(a: Db, b: Db, k: nat) {
    && Grows(a, b)
    && (|b.messages| == |a.messages| || (|b.messages| == |a.messages| + 1 && k == |a.messages|))
    && (forall m :: 0 <= m < |a.messages| && m != k ==> b.messages[m] == a.messages[m])
    && (forall m :: m in b.appended && m != k ==> m in a.appended)
  }

  lemma OthersLinked(a: Db, b: Db, k: nat)
    requires Linked(a) && Touches(a, b, k)
    requires k < |b.messages| ==> Joined(b.threads, b.messages[k])
    ensures Linked(b)
  {
    forall m | 0 <= m < |b.messages| ensures Joined(b.threads, b.messages[m]) {
      if m != k {
        assert Joined(a.threads, a.messages[m]);
        assert ThreadGrows(a.threads[a.messages[m].thread], b.threads[a.messages[m].thread]);
      }
    }
  }

  lemma OthersKept(a: Db, b: Db, k: nat, maxAttempts: nat)
    requires Kept(a, maxAttempts) && Touches(a, b, k) && Linked(b)
    requires k < |b.messages| ==> MessageKept(b, k, maxAttempts)
    ensures forall m :: 0 <= m < |b.messages| ==> MessageKept(b, m, maxAttempts)
  {
    forall m | 0 <= m < |b.messages| ensures MessageKept(b, m, maxAttempts) {
      if m != k {
        assert MessageKept(a, m, maxAttempts);
        OtherKept(a, b, m, maxAttempts);
      }
    }
  }

  lemma OtherKept(a: Db, b: Db, m: nat, maxAttempts: nat)
    requires Grows(a, b) && m < |a.messages| && b.messages[m] == a.messages[m]
    requires Joined(a.threads, a.messages[m]) && Joined(b.threads, b.messages[m])
    requires m in b.appended ==> m in a.appended
    requires MessageKept(a, m, maxAttempts)
    ensures MessageKept(b, m, maxAttempts)
  {
    assert ThreadGrows(a.threads[a.messages[m].thread], b.threads[a.messages[m].thread]);
  }

  lemma OthersUnique(a: Db, b: Db)
    requires Unique(a.messages) && Grows(a, b) && |a.messages| == |b.messages|
    ensures Unique(b.messages)
  {
    forall i, j | 0 <= i < j < |b.messages| ensures !Clashes(b.messages[i], b.messages[j]) {
      assert MessageGrows(a.messages[i], b.messages[i]) && MessageGrows(a.messages[j], b.messages[j]);
      assert !Clashes(a.messages[i], a.messages[j]);
    }
  }

  lemma StillReady(a: Db, b: Db, t: nat)
    requires Grows(a, b) && HasReady(a, t)
    ensures HasReady(b, t)
  {
    var m :| 0 <= m < |a.messages| && a.messages[m].thread == t && a.messages[m].state.Ready?;
    assert MessageGrows(a.messages[m], b.messages[m]);
  }

  /** Every thread but u has kept its date. */
  lemma OtherThreads(a: Db, b: Db, u: nat)
    requires Grows(a, b) && |b.threads| == |a.threads| && forall t :: 0 <= t < |a.threads| ==> ThreadKept(a, t)
    requires forall t :: 0 <= t < |a.threads| && t != u ==> b.threads[t].lastMessageAt.Some? ==>
               a.threads[t].lastMessageAt.Some?
    requires u < |b.threads| && b.threads[u].lastMessageAt.Some? ==> HasReady(b, u)
    ensures forall t :: 0 <= t < |b.threads| ==> ThreadKept(b, t)
  {
    forall t | 0 <= t < |b.threads| ensures ThreadKept(b, t) {
      assert ThreadKept(a, t) && ThreadGrows(a.threads[t], b.threads[t]);
      if t != u && b.threads[t].lastMessageAt.Some? {
        StillReady(a, b, t);
      }
    }
  }

  // ---------------------------------------------------------------------------
  // Storing an email.

  /** Deduplication is exact: the three lookups find nothing if and only if the insert
      violates none of the three unique indexes. */
  lemma DeduplicationExact(db: Db, p: Parsed, thread: nat, state: MessageState)
    requires Linked(db)
    ensures LocateStored(db, p).None? <==> !Conflicts(db.messages, BuildMessage(p, thread, state))
  {
    var row := BuildMessage(p, thread, state);
    if LocateStored(db, p).None? {
      forall i | 0 <= i < |db.messages| ensures !Clashes(db.messages[i], row) {
        assert Joined(db.threads, db.messages[i]);
      }
    } else {
      assert Clashes(db.messages[LocateStored(db, p).value], row);
    }
  }

  lemma UniqueWith(rows: seq<Message>, row: Message)
    requires Unique(rows) && !Conflicts(rows, row)
    ensures Unique(rows + [row])
  {
    var more := rows + [row];
    forall i, j | 0 <= i < j < |more| ensures !Clashes(more[i], more[j]) {
      assert more[i] == rows[i];
    }
  }

  /** The rows as the insert leaves them, before the thread is advanced. */
  function Created(db: Db, p: Parsed): Db {
    var (threads, t) := Placed(db, p);
    db.(threads := threads, messages := db.messages + [BuildMessage(p, t, FirstState(p, threads[t]))])
  }

  lemma CreatedGrows(db: Db, p: Parsed)
    ensures Touches(db, Created(db, p), |db.messages|)
  {
    var b := Created(db, p);
    assert forall t :: 0 <= t < |db.threads| ==> b.threads[t] == db.threads[t];
    assert forall m :: 0 <= m < |db.messages| ==> b.messages[m] == db.messages[m];
  }

  /** An email with something left to do is stored as processing. */
  lemma PersistUnfinished(db: Db, p: Parsed, maxAttempts: nat)
    requires Kept(db, maxAttempts) && maxAttempts > 0 && !Conflicts(db.messages, Created(db, p).messages[|db.messages|])
    requires Created(db, p).messages[|db.messages|].state.Processing?
    ensures Kept(Created(db, p), maxAttempts)
  {
    var b := Created(db, p);
    CreatedGrows(db, p);
    OthersLinked(db, b, |db.messages|);
    OthersKept(db, b, |db.messages|, maxAttempts);
    UniqueWith(db.messages, b.messages[|db.messages|]);
    NewThreads(db, b);
  }

  lemma NewThreads(a: Db, b: Db)
    requires Grows(a, b) && forall t :: 0 <= t < |a.threads| ==> ThreadKept(a, t)
    requires forall t :: 0 <= t < |a.threads| ==> b.threads[t] == a.threads[t]
    requires forall t :: |a.threads| <= t < |b.threads| ==> ThreadKept(b, t)
    ensures forall t :: 0 <= t < |b.threads| ==> ThreadKept(b, t)
  {
    forall t | 0 <= t < |a.threads| ensures ThreadKept(b, t) {
      assert ThreadKept(a, t);
      if b.threads[t].lastMessageAt.Some? {
        StillReady(a, b, t);
      }
    }
  }

  // ---------------------------------------------------------------------------
  // Making a message visible.

  /** The thread is advanced and the event written, in the transaction that has made the
      message k ready. */
  function Visible(db: Db, k: nat, at: Time): Option<Db>
    requires k < |db.messages|
  {
    var row := db.messages[k];
    WriteEvent(AdvanceLastMessage(db, row.scope, row.thread, at), row.scope.domain, k)
  }

  /** The middle of a transaction: all is as it should be, but for the date of the thread
      and the event of k. */
  ghost predicate AlmostKept(db: Db, k: nat, maxAttempts: nat) {
    && Linked(db) && Unique(db.messages) && OutboxKept(db)
    && (forall m :: 0 <= m < |db.messages| && m != k ==> MessageKept(db, m, maxAttempts))
    && (forall t :: 0 <= t < |db.threads| ==> ThreadKept(db, t))
    && k < |db.messages|
    && var row := db.messages[k];
       var thread := db.threads[row.thread];
       && row.state.Ready? && NoPending(row) && !thread.resolution.Pending?
       && (row.kind.Regular? ==> thread.kind.RegularThread?) && row.attempts <= maxAttempts
       && (k in db.appended ==> Eligible(db.threads, row) && row.describable)
  }

  lemma AdvanceKept(db: Db, k: nat, at: Time, maxAttempts: nat)
    requires AlmostKept(db, k, maxAttempts)
    ensures var b := AdvanceLastMessage(db, db.messages[k].scope, db.messages[k].thread, at);
            && AlmostKept(b, k, maxAttempts) && Grows(db, b)
            && b.threads[b.messages[k].thread].lastMessageAt.Some?
            && b == db.(threads := b.threads)
  {
    var t := db.messages[k].thread;
    assert Joined(db.threads, db.messages[k]);
    var b := AdvanceLastMessage(db, db.messages[k].scope, t, at);
    assert ThreadKept(db, t);
    assert HasReady(b, t);
    assert Grows(db, b);
    OthersLinked(db, b, k);
    forall m | 0 <= m < |b.messages| && m != k ensures MessageKept(b, m, maxAttempts) {
      assert MessageKept(db, m, maxAttempts) && Joined(db.threads, db.messages[m]);
      OtherKept(db, b, m, maxAttempts);
    }
    OtherThreads(db, b, t);
  }

  /** Appending an event adds a row, unless a live one has its key. */
  lemma WriteKept(db: Db, k: nat, maxAttempts: nat)
    requires AlmostKept(db, k, maxAttempts) && db.threads[db.messages[k].thread].lastMessageAt.Some?
    requires !Undescribable(db.threads, db.messages[k])
    ensures var b := WriteEvent(db, db.messages[k].scope.domain, k);
            b.Some? && Kept(b.value, maxAttempts) && Grows(db, b.value)
  {
    var b := WriteEvent(db, db.messages[k].scope.domain, k).value;
    assert Joined(db.threads, db.messages[k]);
    forall m | 0 <= m < |b.messages| ensures MessageKept(b, m, maxAttempts) {
      if m != k {
        assert MessageKept(db, m, maxAttempts);
      }
    }
    forall t | 0 <= t < |b.threads| ensures ThreadKept(b, t) {
      assert ThreadKept(db, t);
      if b.threads[t].lastMessageAt.Some? {
        StillReady(db, b, t);
      }
    }
  }

  /** The transaction fails if and only if the message cannot be described. */
  lemma VisibleKept(db: Db, k: nat, at: Time, maxAttempts: nat)
    requires AlmostKept(db, k, maxAttempts)
    ensures Visible(db, k, at).None? <==> Undescribable(db.threads, db.messages[k])
    ensures Visible(db, k, at).Some? ==>
              var b := Visible(db, k, at).value;
              Kept(b, maxAttempts) && Grows(db, b) && b.messages == db.messages
  {
    AdvanceKept(db, k, at, maxAttempts);
    assert Joined(db.threads, db.messages[k]);
    var b := AdvanceLastMessage(db, db.messages[k].scope, db.messages[k].thread, at);
    assert Undescribable(b.threads, b.messages[k]) <==> Undescribable(db.threads, db.messages[k]);
    if !Undescribable(db.threads, db.messages[k]) {
      WriteKept(b, k, maxAttempts);
      GrowsTransitive(db, b, Visible(db, k, at).value);
    }
  }

  lemma PersistReady(db: Db, p: Parsed, maxAttempts: nat)
    requires Kept(db, maxAttempts) && !Conflicts(db.messages, Created(db, p).messages[|db.messages|])
    requires Created(db, p).messages[|db.messages|].state.Ready?
    ensures AlmostKept(Created(db, p), |db.messages|, maxAttempts)
  {
    var b := Created(db, p);
    CreatedGrows(db, p);
    OthersLinked(db, b, |db.messages|);
    forall m | 0 <= m < |db.messages| ensures MessageKept(b, m, maxAttempts) {
      assert MessageKept(db, m, maxAttempts);
      OtherKept(db, b, m, maxAttempts);
    }
    UniqueWith(db.messages, b.messages[|db.messages|]);
    NewThreads(db, b);
    assert ThreadKept(b, b.messages[|db.messages|].thread);
  }

  /** A new email that would be visible at once, but cannot be described. */
  predicate Unstorable(db: Db, p: Parsed) {
    var b := Created(db, p);
    && LocateStored(db, p).None? && b.messages[|db.messages|].state.Ready?
    && Undescribable(b.threads, b.messages[|db.messages|])
  }

  /** What the first transaction leaves behind. It is rolled back for an email without an
      event only, never because of a conflict. */
  lemma HandleKept(db: Db, p: Parsed, maxAttempts: nat)
    requires Kept(db, maxAttempts) && maxAttempts > 0
    ensures Handle(db, p).Refused? <==> Unstorable(db, p)
    ensures var h := Handle(db, p);
            !h.Refused? ==>
              && Kept(h.db, maxAttempts) && Grows(db, h.db)
              && (h.Confirmed? ==> Finished(h.db, p)) && (h.Unfinished? ==> StoredKept(h.db, p, h.stored))
  {
    var found := LocateStored(db, p);
    if found.None? {
      var b := Created(db, p);
      var (threads, t) := Placed(db, p);
      DeduplicationExact(db, p, t, FirstState(p, threads[t]));
      CreatedGrows(db, p);
      if b.messages[|db.messages|].state.Processing? {
        PersistUnfinished(db, p, maxAttempts);
      } else {
        PersistReady(db, p, maxAttempts);
        VisibleKept(b, |db.messages|, p.receivedAt, maxAttempts);
        if !Unstorable(db, p) {
          GrowsTransitive(db, b, Visible(b, |db.messages|, p.receivedAt).value);
          assert Finishes(Visible(b, |db.messages|, p.receivedAt).value, p, |db.messages|);
        }
      }
    } else {
      assert Finishes(db, p, found.value) || db.messages[found.value].state.Processing?;
    }
  }

  // ---------------------------------------------------------------------------
  // What a worker may rely on, and what a confirmation means.

  /** The message m is a finished form of the email. */
  predicate Finishes(db: Db, p: Parsed, m: nat) {
    m < |db.messages| && Shares(p, db.messages[m]) && !db.messages[m].state.Processing?
  }

  predicate Finished(db: Db, p: Parsed) {
    exists m :: 0 <= m < |db.messages| && Finishes(db, p, m)
  }

  /** The snapshot may be old; but the message is the email's, and a decided thread does
      not become undecided. */
  ghost predicate StoredKept(db: Db, p: Parsed, s: Stored) {
    && s.id < |db.messages| && Shares(p, db.messages[s.id]) && Joined(db.threads, db.messages[s.id])
    && s.thread == db.messages[s.id].thread && s.threadKind == db.threads[s.thread].kind
    && (db.threads[s.thread].resolution.Pending? ==> s.resolution.Pending?)
  }

  lemma FinishedForever(a: Db, b: Db, p: Parsed)
    requires Grows(a, b) && Finished(a, p)
    ensures Finished(b, p)
  {
    var m :| 0 <= m < |a.messages| && Finishes(a, p, m);
    assert MessageGrows(a.messages[m], b.messages[m]);
    assert Finishes(b, p, m);
  }

  lemma StoredForever(a: Db, b: Db, p: Parsed, s: Stored)
    requires Grows(a, b) && StoredKept(a, p, s)
    ensures StoredKept(b, p, s)
  {
    assert MessageGrows(a.messages[s.id], b.messages[s.id]) && ThreadGrows(a.threads[s.thread], b.threads[s.thread]);
  }

  // ---------------------------------------------------------------------------
  // Finishing an email.

  /** The outcomes of an automatic contact search. */
  predicate Answer(r: Resolution) {
    r.Resolved? || r.NotFound? || r.Ambiguous? || r.Unavailable?
  }

  /** What resolveContact gives for a snapshot: nothing where nothing is needed. */
  predicate Answers(s: Stored, r: Option<Resolution>) {
    if NeedsContact(s) then r.Some? && Answer(r.value) else r.None?
  }

  /** A write to one thread that changes its resolution only. */
  lemma ResolutionKept(db: Db, t: nat, r: Resolution, maxAttempts: nat)
    requires Kept(db, maxAttempts) && t < |db.threads| && db.threads[t].kind.RegularThread?
    requires !r.Pending? && !r.NotApplicable?
    ensures var b := db.(threads := db.threads[t := db.threads[t].(resolution := r)]);
            Kept(b, maxAttempts) && Grows(db, b)
  {
    var b := db.(threads := db.threads[t := db.threads[t].(resolution := r)]);
    assert ThreadKept(db, t);
    assert Touches(db, b, |db.messages|);
    OthersLinked(db, b, |db.messages|);
    OthersKept(db, b, |db.messages|, maxAttempts);
    OtherThreads(db, b, |db.threads|);
  }

  lemma ResolveKept(db: Db, p: Parsed, s: Stored, r: Option<Resolution>, maxAttempts: nat)
    requires Kept(db, maxAttempts) && StoredKept(db, p, s) && Answers(s, r)
    ensures var b := if r.Some? then ResolveContact(db, p.place.scope.domain, s.thread, r.value) else db;
            && Kept(b, maxAttempts) && Grows(db, b) && StoredKept(b, p, s) && !b.threads[s.thread].resolution.Pending?
  {
    assert ThreadKept(db, s.thread);
    if r.Some? && db.threads[s.thread].kind.RegularThread? {
      ResolutionKept(db, s.thread, r.value, maxAttempts);
    }
  }

  lemma MarkReadyAlmost(db: Db, m: nat, maxAttempts: nat)
    requires Kept(db, maxAttempts) && m < |db.messages| && !db.threads[db.messages[m].thread].resolution.Pending?
    requires db.messages[m].state.Ready? || (db.messages[m].state.Processing? && NoPending(db.messages[m]))
    ensures var b := db.(messages := db.messages[m := db.messages[m].(state := Ready)]);
            AlmostKept(b, m, maxAttempts) && Grows(db, b)
              && MarkReady(db, db.messages[m].scope.domain, m) == (b, Some(Ready))
  {
    var b := db.(messages := db.messages[m := db.messages[m].(state := Ready)]);
    assert db.messages[m].state.Ready? ==> b.messages == db.messages;
    assert MessageKept(db, m, maxAttempts) && Joined(db.threads, db.messages[m]);
    assert Touches(db, b, m);
    OthersLinked(db, b, m);
    OthersUnique(db, b);
    forall k | 0 <= k < |b.messages| && k != m ensures MessageKept(b, k, maxAttempts) {
      assert MessageKept(db, k, maxAttempts);
      OtherKept(db, b, k, maxAttempts);
    }
    OtherThreads(db, b, |db.threads|);
  }

  /** A completion that commits leaves the email finished. */
  lemma CompleteKept(db: Db, p: Parsed, s: Stored, r: Option<Resolution>, maxAttempts: nat)
    requires Kept(db, maxAttempts) && StoredKept(db, p, s) && Answers(s, r) && Complete(db, p, s, r).Some?
    ensures var b := Complete(db, p, s, r).value;
            Kept(b, maxAttempts) && Grows(db, b) && Finishes(b, p, s.id) && |b.messages| == |db.messages|
  {
    var resolved := if r.Some? then ResolveContact(db, p.place.scope.domain, s.thread, r.value) else db;
    ResolveKept(db, p, s, r, maxAttempts);
    if !resolved.messages[s.id].state.Failed? {
      MarkReadyAlmost(resolved, s.id, maxAttempts);
      var marked := resolved.(messages := resolved.messages[s.id := resolved.messages[s.id].(state := Ready)]);
      VisibleKept(marked, s.id, p.receivedAt, maxAttempts);
      GrowsTransitive(db, resolved, marked);
      GrowsTransitive(db, marked, Complete(db, p, s, r).value);
    }
  }

  /** The completion of a message that is not finished commits unless a part is still
      pending or no event can be made for it; for a finished one it always commits. */
  lemma CompleteCommits(db: Db, p: Parsed, s: Stored, r: Option<Resolution>, maxAttempts: nat)
    requires Kept(db, maxAttempts) && StoredKept(db, p, s) && Answers(s, r)
    ensures var row := db.messages[s.id];
            Complete(db, p, s, r).None? <==>
              row.state.Processing? && (!NoPending(row) || Undescribable(db.threads, row))
  {
    assert MessageKept(db, s.id, maxAttempts);
    ResolveKept(db, p, s, r, maxAttempts);
    if !(db.messages[s.id].state.Processing? && !NoPending(db.messages[s.id])) && !db.messages[s.id].state.Failed? {
      var resolved := if r.Some? then ResolveContact(db, p.place.scope.domain, s.thread, r.value) else db;
      MarkReadyAlmost(resolved, s.id, maxAttempts);
      var marked := resolved.(messages := resolved.messages[s.id := resolved.messages[s.id].(state := Ready)]);
      VisibleKept(marked, s.id, p.receivedAt, maxAttempts);
    }
  }

  /** A change of one message that leaves it unready and its identity alone. */
  lemma UnreadyKept(db: Db, b: Db, m: nat, maxAttempts: nat)
    requires Kept(db, maxAttempts) && m < |db.messages| == |b.messages|
    requires !b.messages[m].state.Ready? && !db.messages[m].state.Ready?
    requires b == db.(messages := db.messages[m := b.messages[m]], failures := b.failures, gaveUp := b.gaveUp)
    requires MessageGrows(db.messages[m], b.messages[m]) && db.failures <= b.failures && db.gaveUp <= b.gaveUp
    requires b.messages[m].attempts <= maxAttempts
               && (b.messages[m].state.Processing? ==> b.messages[m].attempts < maxAttempts)
    requires b.messages[m].state.Failed? ==> exists place :: (m, place) in b.gaveUp
    requires forall k, place :: (k, place) in b.gaveUp && (k, place) !in db.gaveUp ==>
               k == m && place in b.failures && b.messages[m].state.Failed?
    ensures Kept(b, maxAttempts) && Grows(db, b)
  {
    assert MessageKept(db, m, maxAttempts) && Joined(db.threads, db.messages[m]);
    assert Touches(db, b, m);
    OthersLinked(db, b, m);
    OthersKept(db, b, m, maxAttempts);
    OthersUnique(db, b);
    OtherThreads(db, b, |db.threads|);
  }

  lemma GiveUpKept(db: Db, p: Parsed, s: Stored, maxAttempts: nat)
    requires Kept(db, maxAttempts) && StoredKept(db, p, s)
    ensures var b := GiveUp(db, p, s);
            Kept(b, maxAttempts) && Grows(db, b) && Finishes(b, p, s.id) && |b.messages| == |db.messages|
  {
    var b := GiveUp(db, p, s);
    if db.messages[s.id].state.Processing? {
      assert MessageKept(db, s.id, maxAttempts);
      assert (s.id, p.place) in b.gaveUp;
      UnreadyKept(db, b, s.id, maxAttempts);
    }
  }

  /** A spent attempt either stays within the budget or fails the message. */
  lemma SpendKept(db: Db, p: Parsed, s: Stored, maxAttempts: nat)
    requires Kept(db, maxAttempts) && StoredKept(db, p, s) && Spend(db, p, s, maxAttempts).Some?
    ensures var (b, exhausted) := Spend(db, p, s, maxAttempts).value;
            && Kept(b, maxAttempts) && Grows(db, b) && |b.messages| == |db.messages|
            && b.messages[s.id].attempts == db.messages[s.id].attempts + 1
            && (exhausted <==> b.messages[s.id].state.Failed?) && (exhausted ==> Finishes(b, p, s.id))
  {
    var (b, exhausted) := Spend(db, p, s, maxAttempts).value;
    assert MessageKept(db, s.id, maxAttempts);
    assert exhausted ==> (s.id, p.place) in b.gaveUp;
    UnreadyKept(db, b, s.id, maxAttempts);
  }

  /** A part is stored once; a skipped part never gets a file. */
  lemma StoreKept(db: Db, p: Parsed, s: Stored, position: nat, file: nat, maxAttempts: nat)
    requires Kept(db, maxAttempts) && StoredKept(db, p, s)
    ensures var b := MarkStored(db, p.place.scope.domain, s.id, position, file);
            Kept(b, maxAttempts) && Grows(db, b) && |b.messages| == |db.messages|
  {
    var b := MarkStored(db, p.place.scope.domain, s.id, position, file);
    assert MessageKept(db, s.id, maxAttempts);
    if b != db {
      UnreadyKept(db, b, s.id, maxAttempts);
    }
  }

  /** The operator decides for any regular thread. */
  lemma SetContactKept(db: Db, domain: nat, t: nat, contact: Option<nat>, maxAttempts: nat)
    requires Kept(db, maxAttempts)
    ensures var b := SetContactManually(db, domain, t, contact);
            Kept(b, maxAttempts) && Grows(db, b)
  {
    if IsThread(db, domain, t) && db.threads[t].kind.RegularThread? {
      ResolutionKept(db, t, if contact.Some? then Resolved(contact.value) else Unlinked, maxAttempts);
    }
  }

  /** Published rows are removed after a while; a row may be any of them. */
  lemma CleanupKept(db: Db, i: nat, maxAttempts: nat)
    requires Kept(db, maxAttempts) && i < |db.outbox|
    ensures var b := db.(outbox := db.outbox[..i] + db.outbox[i + 1..]);
            Kept(b, maxAttempts) && Grows(db, b)
  {
    var b := db.(outbox := db.outbox[..i] + db.outbox[i + 1..]);
    assert forall key :: key in b.outbox ==> key in db.outbox;
    forall m | 0 <= m < |b.messages| ensures MessageKept(b, m, maxAttempts) {
      assert MessageKept(db, m, maxAttempts);
    }
    OtherThreads(db, b, |db.threads|);
  }

  lemma RecordKept(db: Db, place: Place, maxAttempts: nat)
    requires Kept(db, maxAttempts)
    ensures Kept(Record(db, place), maxAttempts) && Grows(db, Record(db, place))
  {
    var b := Record(db, place);
    forall m | 0 <= m < |b.messages| ensures MessageKept(b, m, maxAttempts) {
      assert MessageKept(db, m, maxAttempts);
    }
    OtherThreads(db, b, |db.threads|);
  }
}
