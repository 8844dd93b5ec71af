/** The tables of stored conversations, and the statements on them. A row's id is its
    index: rows are only ever added. */
module Messages {
  import opened Options

  type Time = int

  datatype Scope = Scope(domain: nat, profile: nat)

  /** A position in a mailbox. */
  datatype Place = Place(scope: Scope, mailbox: string, uidValidity: nat, uid: nat)

  datatype Kind = Regular | AutoReply | Bounce

  datatype ThreadKind = RegularThread | ServiceThread

  datatype Resolution =
    Pending | Resolved(contact: nat) | NotFound | Ambiguous | Unavailable | Unlinked | NotApplicable

  datatype Thread = Thread(scope: Scope, kind: ThreadKind, resolution: Resolution, lastMessageAt: Option<Time>)

  datatype PartState = PendingPart | StoredPart(file: nat) | SkippedPart

  datatype MessageState = Processing | Ready | Failed

  datatype Message = Message(
    scope: Scope, thread: nat, kind: Kind, state: MessageState, attempts: nat,
    messageId: string, generated: bool, checksum: string, place: Option<Place>,
    inReplyTo: string, receivedAt: Time, parts: seq<PartState>, describable: bool)

  /** The dedup key of an Outbox row: the domain and the message. */
  datatype Key = Key(domain: nat, message: nat)

  /** appended and gaveUp are history: the messages whose event was appended at some time,
      and the quarantine records written together with a move to failed. */
  datatype Db = Db(
    threads: seq<Thread>, messages: seq<Message>, failures: set<Place>, outbox: seq<Key>,
    appended: set<nat>, gaveUp: set<(nat, Place)>)

  datatype Part = Part(skipped: bool, hasContent: bool)

  /** A parsed email; an absent text is empty. It is describable if its event is accepted
      by Payload.Render, which its fields and the configured limits decide. */
  datatype Parsed = Parsed(
    place: Place, kind: Kind, messageId: string, generated: bool, checksum: string,
    inReplyTo: string, references: seq<string>, bounceOriginal: string, receivedAt: Time, parts: seq<Part>,
    describable: bool)

  // ---------------------------------------------------------------------------
  // Lookups.

  /** The first row for which a condition holds. */
  function First(rows: seq<Message>, holds: Message -> bool, from: nat := 0): (r: Option<nat>)
    requires from <= |rows|
    ensures r.Some? ==> from <= r.value < |rows| && holds(rows[r.value])
    ensures r.Some? ==> forall i :: from <= i < r.value ==> !holds(rows[i])
    ensures r.None? ==> forall i :: from <= i < |rows| ==> !holds(rows[i])
    decreases |rows| - from
  {
    if from == |rows| then None
    else if holds(rows[from]) then Some(from)
    else First(rows, holds, from + 1)
  }

  /** The join of a message with its thread. */
  predicate Joined(threads: seq<Thread>, m: Message) {
    m.thread < |threads| && threads[m.thread].scope == m.scope
  }

  function LocateByMessageId(db: Db, scope: Scope, id: string): Option<nat> {
    First(db.messages, (m: Message) => Joined(db.threads, m) && m.scope == scope && m.messageId == id)
  }

  function LocateByPlace(db: Db, place: Place): Option<nat> {
    First(db.messages, (m: Message) => Joined(db.threads, m) && m.scope == place.scope && m.place == Some(place))
  }

  /** The checksum counts only for a stored message without an identifier of its own. */
  function LocateByChecksum(db: Db, scope: Scope, checksum: string): Option<nat> {
    First(db.messages, (m: Message) => Joined(db.threads, m) && m.scope == scope && m.checksum == checksum
      && m.generated)
  }

  /** The message can be recognized as the stored form of the email. */
  predicate Shares(p: Parsed, m: Message) {
    && m.scope == p.place.scope
    && (m.messageId == p.messageId || (p.place.mailbox != "" && m.place == Some(p.place))
        || (p.generated && m.generated && m.checksum == p.checksum))
  }

  function LocateStored(db: Db, p: Parsed): (r: Option<nat>)
    ensures r.Some? ==>
              && r.value < |db.messages| && Joined(db.threads, db.messages[r.value])
              && Shares(p, db.messages[r.value])
  {
    var byId := LocateByMessageId(db, p.place.scope, p.messageId);
    if byId.Some? then byId
    else
      var byPlace := if p.place.mailbox != "" then LocateByPlace(db, p.place) else None;
      if byPlace.Some? then byPlace
      else if !p.generated then None
      else LocateByChecksum(db, p.place.scope, p.checksum)
  }

  // ---------------------------------------------------------------------------
  // The unique indexes.

  predicate SameId(a: Message, b: Message) {
    a.scope == b.scope && a.messageId == b.messageId
  }

  predicate SamePlace(a: Message, b: Message) {
    a.scope == b.scope && a.place.Some? && a.place == b.place
  }

  predicate SameChecksum(a: Message, b: Message) {
    a.scope == b.scope && a.generated && b.generated && a.checksum == b.checksum
  }

  /** message_identity_uidx, message_imap_identity_uidx, message_raw_checksum_uidx. */
  predicate Clashes(a: Message, b: Message) {
    SameId(a, b) || SamePlace(a, b) || SameChecksum(a, b)
  }

  predicate Conflicts(rows: seq<Message>, m: Message) {
    exists i :: 0 <= i < |rows| && Clashes(rows[i], m)
  }

  // ---------------------------------------------------------------------------
  // Statements on one row.

  predicate IsMessage(db: Db, domain: nat, m: nat) {
    m < |db.messages| && db.messages[m].scope.domain == domain
  }

  predicate NoPending(m: Message) {
    forall i :: 0 <= i < |m.parts| ==> !m.parts[i].PendingPart?
  }

  /** The new state of the row, read back: None for a row that is not there. */
  function MarkReady(db: Db, domain: nat, m: nat): (Db, Option<MessageState>) {
    if !IsMessage(db, domain, m) then (db, None)
    else if db.messages[m].state.Processing? && NoPending(db.messages[m]) then
      (db.(messages := db.messages[m := db.messages[m].(state := Ready)]), Some(Ready))
    else (db, Some(db.messages[m].state))
  }

  /** Whether the row was still processing. */
  function MarkFailed(db: Db, domain: nat, m: nat): (Db, bool) {
    if IsMessage(db, domain, m) && db.messages[m].state.Processing? then
      (db.(messages := db.messages[m := db.messages[m].(state := Failed)]), true)
    else (db, false)
  }

  /** The new count; None, which is an error, unless the row is processing. */
  function IncrementAttempts(db: Db, domain: nat, m: nat): (Db, Option<nat>) {
    if IsMessage(db, domain, m) && db.messages[m].state.Processing? then
      var row := db.messages[m].(attempts := db.messages[m].attempts + 1);
      (db.(messages := db.messages[m := row]), Some(row.attempts))
    else (db, None)
  }

  function MarkStored(db: Db, domain: nat, m: nat, position: nat, file: nat): Db {
    if IsMessage(db, domain, m) && position < |db.messages[m].parts| && db.messages[m].parts[position].PendingPart? then
      var row := db.messages[m];
      db.(messages := db.messages[m := row.(parts := row.parts[position := StoredPart(file)])])
    else db
  }

  predicate IsThread(db: Db, domain: nat, t: nat) {
    t < |db.threads| && db.threads[t].scope.domain == domain
  }

  /** An automatic answer is written only where no decision was made. */
  function ResolveContact(db: Db, domain: nat, t: nat, r: Resolution): Db {
    if IsThread(db, domain, t) && db.threads[t].kind.RegularThread?
       && (db.threads[t].resolution.Pending? || db.threads[t].resolution.Unavailable?) then
      db.(threads := db.threads[t := db.threads[t].(resolution := r)])
    else db
  }

  function SetContactManually(db: Db, domain: nat, t: nat, contact: Option<nat>): Db {
    if IsThread(db, domain, t) && db.threads[t].kind.RegularThread? then
      var decision := if contact.Some? then Resolved(contact.value) else Unlinked;
      db.(threads := db.threads[t := db.threads[t].(resolution := decision)])
    else db
  }

  function AdvanceLastMessage(db: Db, scope: Scope, t: nat, at: Time): Db {
    if t < |db.threads| && db.threads[t].scope == scope
       && (db.threads[t].lastMessageAt.None? || db.threads[t].lastMessageAt.value < at) then
      db.(threads := db.threads[t := db.threads[t].(lastMessageAt := Some(at))])
    else db
  }

  function Record(db: Db, place: Place): Db {
    db.(failures := db.failures + {place})
  }

  // ---------------------------------------------------------------------------
  // The event of a message.

  predicate Eligible(threads: seq<Thread>, m: Message) {
    m.kind.Regular? && m.thread < |threads| && threads[m.thread].kind.RegularThread?
  }

  /** The message starts a flow, but no event can be made for it. */
  predicate Undescribable(threads: seq<Thread>, m: Message) {
    Eligible(threads, m) && !m.describable
  }

  /** EventWriter.Write: nothing for a message that starts no flow, an error for one that
      is not ready or cannot be described, and one live row per dedup key. */
  function WriteEvent(db: Db, domain: nat, m: nat): Option<Db> {
    if !IsMessage(db, domain, m) then None
    else if !Eligible(db.threads, db.messages[m]) then Some(db)
    else if !db.messages[m].state.Ready? || Undescribable(db.threads, db.messages[m]) then None
    else if Key(domain, m) in db.outbox then Some(db)
    else Some(db.(outbox := db.outbox + [Key(domain, m)], appended := db.appended + {m}))
  }
}
