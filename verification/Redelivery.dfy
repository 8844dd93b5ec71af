/** What a redelivered email finds. A position of a mailbox always holds the same email, so
    a confirmed email is confirmed again without a change, whatever other workers did
    meanwhile; with one exception, which only an email without a Message-ID can meet. */
module Redelivery {
  import opened Options
  import opened Messages
  import opened Threading
  import opened Inbound
  import opened InboundRuns

  // ---------------------------------------------------------------------------
  // How well a message matches an email.

  /** The lookups in their order: 1 for the Message-ID, 2 for the position, 3 for the
      checksum of a generated identifier, 4 for no match. */
  function Rank(p: Parsed, m: Message): nat {
    if m.scope != p.place.scope then 4
    else if m.messageId == p.messageId then 1
    else if p.place.mailbox != "" && m.place == Some(p.place) then 2
    else if p.generated && m.generated && m.checksum == p.checksum then 3
    else 4
  }

  ghost predicate Best(db: Db, p: Parsed, m: nat) {
    && m < |db.messages| && Rank(p, db.messages[m]) < 4
    && forall k :: 0 <= k < |db.messages| ==> Rank(p, db.messages[m]) <= Rank(p, db.messages[k])
  }

  lemma LocatedIsBest(db: Db, p: Parsed, m: nat)
    requires Linked(db) && LocateStored(db, p) == Some(m)
    ensures Best(db, p, m)
  {
    assert forall k :: 0 <= k < |db.messages| ==> Joined(db.threads, db.messages[k]);
  }

  /** No two messages match equally well. */
  lemma OneOfEachRank(db: Db, p: Parsed, i: nat, j: nat)
    requires Unique(db.messages) && i < |db.messages| && j < |db.messages|
    requires Rank(p, db.messages[i]) == Rank(p, db.messages[j]) < 4
    ensures i == j
  {
    assert Clashes(db.messages[i], db.messages[j]) && Clashes(db.messages[j], db.messages[i]);
  }

  lemma BestIsLocated(db: Db, p: Parsed, m: nat)
    requires Linked(db) && Unique(db.messages) && Best(db, p, m)
    ensures LocateStored(db, p) == Some(m)
  {
    assert Joined(db.threads, db.messages[m]);
    var found := LocateStored(db, p);
    assert found.Some?;
    LocatedIsBest(db, p, found.value);
    OneOfEachRank(db, p, found.value, m);
  }

  /** What decides the rank of a message never changes. */
  lemma RankForever(a: Db, b: Db, p: Parsed, m: nat)
    requires Grows(a, b) && m < |a.messages|
    ensures Rank(p, b.messages[m]) == Rank(p, a.messages[m])
  {
    assert MessageGrows(a.messages[m], b.messages[m]);
  }

  // ---------------------------------------------------------------------------
  // When a redelivery is silent.

  ghost predicate Silent(db: Db, p: Parsed) {
    Handle(db, p) == Confirmed(db)
  }

  lemma SilentIsFinished(db: Db, p: Parsed)
    ensures Silent(db, p) <==>
              LocateStored(db, p).Some? && !db.messages[LocateStored(db, p).value].state.Processing?
  {
    if LocateStored(db, p).None? && Handle(db, p).Confirmed? {
      assert |Handle(db, p).db.messages| == |db.messages| + 1;
    }
  }

  // ---------------------------------------------------------------------------
  // The first transaction settles on a message.

  lemma PersistedRow(db: Db, p: Parsed)
    requires LocateStored(db, p).None? && !Handle(db, p).Refused?
    ensures var h := Handle(db, p);
            && h.db.messages == db.messages + [Created(db, p).messages[|db.messages|]]
            && (h.Unfinished? ==> h.stored.id == |db.messages|)
  {
  }

  /** Afterwards the email is found as the message it settled on. */
  lemma HandleFinds(db: Db, p: Parsed, maxAttempts: nat)
    requires Kept(db, maxAttempts) && maxAttempts > 0 && !Handle(db, p).Refused?
    ensures var h := Handle(db, p);
            && LocateStored(h.db, p).Some?
            && (h.Unfinished? ==> LocateStored(h.db, p) == Some(h.stored.id))
            && (h.Confirmed? ==> Silent(h.db, p))
  {
    if LocateStored(db, p).None? {
      HandleKept(db, p, maxAttempts);
      StoredFound(db, p, Handle(db, p).db);
      PersistedRow(db, p);
    }
  }

  lemma StoredFound(db: Db, p: Parsed, b: Db)
    requires LocateStored(db, p).None? && !Handle(db, p).Refused? && b == Handle(db, p).db
    requires Linked(b) && Unique(b.messages)
    ensures LocateStored(b, p) == Some(|db.messages|) && (Handle(db, p).Confirmed? ==> Silent(b, p))
  {
    PersistedRow(db, p);
    assert Rank(p, b.messages[|db.messages|]) == 1;
    BestIsLocated(b, p, |db.messages|);
    if Handle(db, p).Confirmed? {
      PersistedState(db, p);
      SilentIsFinished(b, p);
    }
  }

  lemma PersistedState(db: Db, p: Parsed)
    requires LocateStored(db, p).None? && Handle(db, p).Confirmed?
    ensures |Handle(db, p).db.messages| == |db.messages| + 1
    ensures Handle(db, p).db.messages[|db.messages|].state.Ready?
  {
  }

  /** The worker goes on with the message it settled on. */
  predicate Carries(f: Phase, p: Parsed, s: Stored) {
    !f.Arrived? && !f.Broken? && !f.Read? && f.p == p && f.s == s
  }

  /** After the first transaction a worker adds no message, keeps to the one it settled
      on, and has finished it when it returns nil. */
  lemma CarriesOn(db: Db, f: Phase, choice: Choice, maxAttempts: nat)
    requires Kept(db, maxAttempts) && PhaseKept(db, f) && maxAttempts > 0
    requires !f.Arrived? && !f.Broken? && !f.Read? && Worked(db, f, choice, maxAttempts).Some?
    ensures var o := Worked(db, f, choice, maxAttempts).value;
            && |o.db.messages| == |db.messages|
            && (o.phase.Some? ==> Carries(o.phase.value, f.p, f.s))
            && (o.confirmed.Some? ==> Finishes(o.db, f.p, f.s.id))
  {
    match f
    case Uploaded(p, s, _, next, file) => StoreKept(db, p, s, next, file, maxAttempts);
    case Spending(p, s) => SpendKept(db, p, s, maxAttempts);
    case Failing(p, s) => GiveUpKept(db, p, s, maxAttempts);
    case Completing(p, s, r) => CompleteKept(db, p, s, r, maxAttempts);
    case _ => OutsideSame(db, f, choice, maxAttempts);
  }

  // ---------------------------------------------------------------------------
  // One position, one email.

  /** What the parser takes from the bytes of an email and its position. */
  datatype Identity = Identity(messageId: string, generated: bool, checksum: string)

  function IdentityOf(p: Parsed): Identity {
    Identity(p.messageId, p.generated, p.checksum)
  }

  /** The emails at the positions, as section 2.3.1.1 of RFC 3501 fixes them. A generated
      identifier is the digest of a position, so two positions never share one. */
  ghost predicate Mailboxes(box: Place -> Identity) {
    forall a: Place, b: Place :: a.scope == b.scope && box(a).generated && box(b).generated ==>
      box(a).messageId == box(b).messageId ==> a == b
  }

  /** Every email of the run is the one at its position. */
  predicate Reads(box: Place -> Identity, run: seq<Action>) {
    forall i :: 0 <= i < |run| ==> ReadsOne(box, run[i])
  }

  predicate ReadsOne(box: Place -> Identity, a: Action) {
    a.Work? && a.choice.Parses? ==> IdentityOf(a.choice.p) == box(a.choice.p.place)
  }

  /** The message was stored from the email at a. */
  predicate From(box: Place -> Identity, m: Message, a: Place) {
    && m.scope == a.scope && Identity(m.messageId, m.generated, m.checksum) == box(a)
    && m.place == if a.mailbox != "" then Some(a) else None
  }

  ghost predicate Stemming(box: Place -> Identity, m: Message) {
    exists a :: From(box, m, a)
  }

  predicate Faithful(box: Place -> Identity, f: Phase) {
    f.Arrived? || f.Broken? || IdentityOf(f.p) == box(f.p.place)
  }

  ghost predicate AllFaithful(box: Place -> Identity, s: State) {
    && (forall m :: 0 <= m < |s.db.messages| ==> Stemming(box, s.db.messages[m]))
    && (forall w :: w in s.workers ==> Faithful(box, s.workers[w]))
    && (forall c :: c in s.confirmed && c.parsed.Some? ==> IdentityOf(c.parsed.value) == box(c.parsed.value.place))
  }

  /** A worker adds a message only when it stores the email it has read. */
  lemma Added(db: Db, f: Phase, choice: Choice, maxAttempts: nat)
    requires Kept(db, maxAttempts) && PhaseKept(db, f) && maxAttempts > 0 && Worked(db, f, choice, maxAttempts).Some?
    ensures var b := Worked(db, f, choice, maxAttempts).value.db;
            || |b.messages| == |db.messages|
            || (f.Read? && b.messages == db.messages + [Created(db, f.p).messages[|db.messages|]])
  {
    if f.Read? {
      if LocateStored(db, f.p).None? {
        PersistedRow(db, f.p);
      }
    } else if !f.Arrived? && !f.Broken? {
      CarriesOn(db, f, choice, maxAttempts);
    }
  }

  lemma StillStemming(box: Place -> Identity, a: Message, b: Message)
    requires MessageGrows(a, b) && Stemming(box, a)
    ensures Stemming(box, b)
  {
    var place :| From(box, a, place);
    assert From(box, b, place);
  }

  lemma RowsStem(box: Place -> Identity, s: State, w: nat, choice: Choice, maxAttempts: nat)
    requires Invariant(s, maxAttempts) && Enabled(s, Work(w, choice), maxAttempts) && maxAttempts > 0
    requires AllFaithful(box, s)
    ensures var b := Next(s, Work(w, choice), maxAttempts).db;
            forall m :: 0 <= m < |b.messages| ==> Stemming(box, b.messages[m])
  {
    var f := s.workers[w];
    StepKept(s, Work(w, choice), maxAttempts);
    Added(s.db, f, choice, maxAttempts);
    var b := Next(s, Work(w, choice), maxAttempts).db;
    forall m | 0 <= m < |b.messages| ensures Stemming(box, b.messages[m]) {
      if m < |s.db.messages| {
        StillStemming(box, s.db.messages[m], b.messages[m]);
      } else {
        assert From(box, b.messages[m], f.p.place);
      }
    }
  }

  /** What a worker remembers of its email never changes. */
  lemma StaysFaithful(box: Place -> Identity, db: Db, f: Phase, choice: Choice, maxAttempts: nat)
    requires Faithful(box, f) && ReadsOne(box, Work(0, choice)) && Worked(db, f, choice, maxAttempts).Some?
    ensures var o := Worked(db, f, choice, maxAttempts).value;
            && (o.phase.Some? ==> Faithful(box, o.phase.value))
            && (o.confirmed.Some? && o.confirmed.value.parsed.Some? ==>
                  IdentityOf(o.confirmed.value.parsed.value) == box(o.confirmed.value.parsed.value.place))
  {
  }

  lemma StepFaithful(box: Place -> Identity, s: State, a: Action, maxAttempts: nat)
    requires Invariant(s, maxAttempts) && Enabled(s, a, maxAttempts) && maxAttempts > 0
    requires AllFaithful(box, s) && ReadsOne(box, a)
    ensures AllFaithful(box, Next(s, a, maxAttempts))
  {
    match a
    case Work(w, choice) =>
      RowsStem(box, s, w, choice, maxAttempts);
      StaysFaithful(box, s.db, s.workers[w], choice, maxAttempts);
    case _ =>
      assert Next(s, a, maxAttempts).db.messages == s.db.messages;
  }

  lemma {:induction false} RunFaithful(box: Place -> Identity, s: State, run: seq<Action>, maxAttempts: nat)
    requires Invariant(s, maxAttempts) && Possible(s, run, maxAttempts) && maxAttempts > 0
    requires AllFaithful(box, s) && Reads(box, run)
    ensures AllFaithful(box, After(s, run, maxAttempts))
    decreases run
  {
    if run != [] {
      assert ReadsOne(box, run[0]);
      StepKept(s, run[0], maxAttempts);
      StepFaithful(box, s, run[0], maxAttempts);
      assert forall i :: 0 <= i < |run[1..]| ==> run[1..][i] == run[i + 1];
      RunFaithful(box, Next(s, run[0], maxAttempts), run[1..], maxAttempts);
    }
  }

  // ---------------------------------------------------------------------------
  // When a redelivery is silent.

  /** An unfinished email has the generated identifier of p as its own Message-ID. */
  ghost predicate Borrowed(db: Db, p: Parsed) {
    p.generated && exists j :: 0 <= j < |db.messages| && Borrows(db.messages[j], p)
  }

  predicate Borrows(m: Message, p: Parsed) {
    m.state.Processing? && m.scope == p.place.scope && m.messageId == p.messageId && !m.generated
  }

  /** A message at the position of an email carries its Message-ID. */
  lemma NoSecondRank(box: Place -> Identity, p: Parsed, m: Message)
    requires Stemming(box, m) && IdentityOf(p) == box(p.place)
    ensures Rank(p, m) != 2
  {
    var a :| From(box, m, a);
  }

  /** Two generated identifiers are the same for the same email only. */
  lemma OneGenerated(box: Place -> Identity, p: Parsed, m: Message)
    requires Mailboxes(box) && Stemming(box, m) && IdentityOf(p) == box(p.place)
    requires m.scope == p.place.scope && m.messageId == p.messageId && m.generated && p.generated
    ensures m.checksum == p.checksum
  {
    var a :| From(box, m, a);
    assert a == p.place;
  }

  /** A message m of the email is finished. */
  lemma SilentInMailboxes(box: Place -> Identity, db: Db, p: Parsed, m: nat)
    requires Mailboxes(box) && IdentityOf(p) == box(p.place) && Linked(db) && Unique(db.messages)
    requires forall k :: 0 <= k < |db.messages| ==> Stemming(box, db.messages[k])
    requires Finishes(db, p, m)
    ensures Silent(db, p) <==> !Borrowed(db, p)
  {
    SilentIsFinished(db, p);
    assert Joined(db.threads, db.messages[m]);
    var x := LocateStored(db, p).value;
    LocatedIsBest(db, p, x);
    NoSecondRank(box, p, db.messages[m]);
    NoSecondRank(box, p, db.messages[x]);
    if db.messages[x].state.Processing? {
      OthersBorrow(box, db, p, m, x);
    } else if Borrowed(db, p) {
      var j :| 0 <= j < |db.messages| && Borrows(db.messages[j], p);
      OneOfEachRank(db, p, x, j);
    }
  }

  lemma NoClash(db: Db, i: nat, j: nat)
    requires Unique(db.messages) && i < |db.messages| && j < |db.messages| && i != j
    ensures !Clashes(db.messages[i], db.messages[j])
  {
    assert i < j ==> !Clashes(db.messages[i], db.messages[j]);
    assert j < i ==> !Clashes(db.messages[j], db.messages[i]);
  }

  lemma OthersBorrow(box: Place -> Identity, db: Db, p: Parsed, m: nat, x: nat)
    requires Mailboxes(box) && IdentityOf(p) == box(p.place) && Unique(db.messages)
    requires forall k :: 0 <= k < |db.messages| ==> Stemming(box, db.messages[k])
    requires Finishes(db, p, m) && Best(db, p, x) && db.messages[x].state.Processing?
    ensures p.generated && Borrows(db.messages[x], p)
    ensures db.messages[m].generated && db.messages[m].checksum == p.checksum && db.messages[m].messageId != p.messageId
  {
    NoSecondRank(box, p, db.messages[m]);
    NoSecondRank(box, p, db.messages[x]);
    if Rank(p, db.messages[x]) == Rank(p, db.messages[m]) {
      OneOfEachRank(db, p, x, m);
    }
    NoClash(db, x, m);
    if db.messages[x].generated && p.generated {
      OneGenerated(box, p, db.messages[x]);
    }
  }

  /** A state that some run over the mailboxes leads to. */
  ghost predicate Reached(box: Place -> Identity, s: State, maxAttempts: nat) {
    exists run :: Possible(EMPTY, run, maxAttempts) && Reads(box, run) && After(EMPTY, run, maxAttempts) == s
  }

  predicate Told(s: State, p: Parsed) {
    Confirmation(p.place, Some(p)) in s.confirmed
  }

  lemma ReachedKept(box: Place -> Identity, s: State, maxAttempts: nat)
    requires maxAttempts > 0 && Reached(box, s, maxAttempts)
    ensures Invariant(s, maxAttempts) && AllFaithful(box, s)
  {
    var run :| Possible(EMPTY, run, maxAttempts) && Reads(box, run) && After(EMPTY, run, maxAttempts) == s;
    RunKept(EMPTY, run, maxAttempts);
    RunFaithful(box, EMPTY, run, maxAttempts);
  }

  /** Idempotence: in every run over the mailboxes, right after the handler returned nil for
      an email and at any time later, whatever other workers do, a redelivery returns nil
      and changes nothing. This is so for every email with a Message-ID of its own; and for
      any other if and only if no unfinished email has the generated identifier as its own. */
  lemma RedeliveryExact(box: Place -> Identity, s: State, p: Parsed, maxAttempts: nat)
    requires maxAttempts > 0 && Mailboxes(box) && Reached(box, s, maxAttempts) && Told(s, p)
    ensures !p.generated ==> Silent(s.db, p)
    ensures Silent(s.db, p) <==> !Borrowed(s.db, p)
  {
    ReachedKept(box, s, maxAttempts);
    assert Settled(s.db, Confirmation(p.place, Some(p)));
    var m :| 0 <= m < |s.db.messages| && Finishes(s.db, p, m);
    SilentInMailboxes(box, s.db, p, m);
  }

  /** An email whose finished message carries its Message-ID is never processed again, in
      any state of any run. */
  lemma NeverTwice(run: seq<Action>, maxAttempts: nat, p: Parsed, m: nat)
    requires Possible(EMPTY, run, maxAttempts) && maxAttempts > 0
    requires var db := After(EMPTY, run, maxAttempts).db;
             Finishes(db, p, m) && db.messages[m].messageId == p.messageId
    ensures Silent(After(EMPTY, run, maxAttempts).db, p)
  {
    RunKept(EMPTY, run, maxAttempts);
    var db := After(EMPTY, run, maxAttempts).db;
    assert Best(db, p, m);
    BestIsLocated(db, p, m);
    SilentIsFinished(db, p);
  }

  // ---------------------------------------------------------------------------
  // One worker alone.

  /** From one of its steps until it returns. */
  function Alone(db: Db, f: Phase, choices: seq<Choice>, maxAttempts: nat): Option<Outcome>
    decreases choices
  {
    if choices == [] then None
    else
      var o := Worked(db, f, choices[0], maxAttempts);
      if o.None? || o.value.phase.None? then o
      else Alone(o.value.db, o.value.phase.value, choices[1..], maxAttempts)
  }

  ghost predicate FindsAgain(db: Db, f: Phase) {
    f.Read? || (!f.Arrived? && !f.Broken? && LocateStored(db, f.p) == Some(f.s.id))
  }

  lemma FoundAgain(a: Db, b: Db, p: Parsed, m: nat)
    requires Linked(a) && Linked(b) && Unique(b.messages) && Grows(a, b) && |a.messages| == |b.messages|
    requires LocateStored(a, p) == Some(m)
    ensures LocateStored(b, p) == Some(m)
  {
    LocatedIsBest(a, p, m);
    forall k | 0 <= k < |b.messages| ensures Rank(p, b.messages[k]) == Rank(p, a.messages[k]) {
      RankForever(a, b, p, k);
    }
    BestIsLocated(b, p, m);
  }

  /** Nobody can overtake a worker that runs alone: its delivery is idempotent. */
  lemma {:induction false} Idempotent(db: Db, f: Phase, choices: seq<Choice>, maxAttempts: nat)
    requires Kept(db, maxAttempts) && PhaseKept(db, f) && maxAttempts > 0 && FindsAgain(db, f)
    requires Alone(db, f, choices, maxAttempts).Some? && Alone(db, f, choices, maxAttempts).value.confirmed.Some?
    ensures Silent(Alone(db, f, choices, maxAttempts).value.db, f.p)
    decreases choices
  {
    var o := Worked(db, f, choices[0], maxAttempts).value;
    WorkedKept(db, f, choices[0], maxAttempts);
    if f.Read? {
      HandleFinds(db, f.p, maxAttempts);
    } else {
      CarriesOn(db, f, choices[0], maxAttempts);
      FoundAgain(db, o.db, f.p, f.s.id);
      SilentIsFinished(o.db, f.p);
    }
    if o.phase.Some? {
      Idempotent(o.db, o.phase.value, choices[1..], maxAttempts);
    }
  }

  // ---------------------------------------------------------------------------
  // Which mailboxes make redelivery silent.

  /** Two copies of an email without a Message-ID, at a and b, and at c an email whose own
      Message-ID is the identifier generated for the copy at b. */
  predicate Collision(box: Place -> Identity, a: Place, b: Place, c: Place) {
    && a.scope == b.scope == c.scope
    && box(a).generated && box(b).generated
    && box(a).checksum == box(b).checksum && box(a).messageId != box(b).messageId
    && !box(c).generated && box(c).messageId == box(b).messageId
  }

  ghost predicate Collides(box: Place -> Identity) {
    exists a, b, c :: Collision(box, a, b, c)
  }

  ghost predicate AlwaysSilent(box: Place -> Identity, maxAttempts: nat) {
    forall s, p :: Reached(box, s, maxAttempts) && Told(s, p) ==> Silent(s.db, p)
  }

  lemma NotSilentCollides(box: Place -> Identity, s: State, p: Parsed, maxAttempts: nat)
    requires maxAttempts > 0 && Mailboxes(box) && Reached(box, s, maxAttempts) && Told(s, p) && !Silent(s.db, p)
    ensures Collides(box)
  {
    ReachedKept(box, s, maxAttempts);
    var db := s.db;
    assert Settled(db, Confirmation(p.place, Some(p)));
    var m :| 0 <= m < |db.messages| && Finishes(db, p, m);
    SilentIsFinished(db, p);
    assert Joined(db.threads, db.messages[m]);
    var x := LocateStored(db, p).value;
    LocatedIsBest(db, p, x);
    OthersBorrow(box, db, p, m, x);
    var a :| From(box, db.messages[m], a);
    var c :| From(box, db.messages[x], c);
    assert Collision(box, a, p.place, c);
  }

  /** An automatic reply with one attachment at a position. */
  function MailAt(box: Place -> Identity, place: Place): Parsed {
    var i := box(place);
    Parsed(place, AutoReply, i.messageId, i.generated, i.checksum, "", [], "", 0, [Part(false, true)], true)
  }

  function Closed(scope: Scope): Thread {
    Thread(scope, ServiceThread, NotApplicable, None)
  }

  function Left(id: nat): Stored {
    Stored(id, id, ServiceThread, NotApplicable)
  }

  function RowOf(p: Parsed, thread: nat): Message {
    BuildMessage(p, thread, Processing)
  }

  /** A new reply to nothing stored opens a thread of its own and waits for its file. */
  lemma StoreMail(db: Db, box: Place -> Identity, place: Place)
    requires LocateStored(db, MailAt(box, place)).None?
    requires !Conflicts(db.messages, RowOf(MailAt(box, place), |db.threads|))
    requires forall m :: 0 <= m < |db.messages| ==> db.messages[m].inReplyTo == ""
    ensures Handle(db, MailAt(box, place)) ==
            Unfinished(db.(threads := db.threads + [Closed(place.scope)],
                           messages := db.messages + [RowOf(MailAt(box, place), |db.threads|)]),
                       Stored(|db.messages|, |db.threads|, ServiceThread, NotApplicable))
  {
    var p := MailAt(box, place);
    assert Ancestry(p) == [] && KeptLast([]) == [];
    assert LocateByMessageIds(db, LookupOf(p), []) == None;
    assert LocateByInReplyTo(db, LookupOf(p), p.messageId) == None;
    assert ResolveThread(db, p) == None;
    assert p.parts[0] == Part(false, true) && FirstState(p, Closed(place.scope)) == Processing;
  }

  function OneStored(box: Place -> Identity, a: Place): Db {
    Db([Closed(a.scope)], [RowOf(MailAt(box, a), 0)], {}, [], {}, {})
  }

  function TwoStored(box: Place -> Identity, a: Place, c: Place): Db {
    Db([Closed(a.scope), Closed(c.scope)], [RowOf(MailAt(box, a), 0), RowOf(MailAt(box, c), 1)], {}, [], {}, {})
  }

  lemma StoreFirst(box: Place -> Identity, a: Place)
    ensures Handle(EMPTY.db, MailAt(box, a)) == Unfinished(OneStored(box, a), Left(0))
  {
    StoreMail(EMPTY.db, box, a);
  }

  lemma ContinueCopy(box: Place -> Identity, a: Place, b: Place, c: Place)
    requires Collision(box, a, b, c)
    ensures Handle(OneStored(box, a), MailAt(box, b)) == Unfinished(OneStored(box, a), Left(0))
  {
    var db, p := OneStored(box, a), MailAt(box, b);
    assert Joined(db.threads, db.messages[0]) && Rank(p, db.messages[0]) == 3;
    assert Unique(db.messages) && Linked(db) && Best(db, p, 0);
    BestIsLocated(db, p, 0);
  }

  lemma StoreBorrower(box: Place -> Identity, a: Place, b: Place, c: Place)
    requires Collision(box, a, b, c)
    ensures Handle(OneStored(box, a), MailAt(box, c)) == Unfinished(TwoStored(box, a, c), Left(1))
  {
    var db, p := OneStored(box, a), MailAt(box, c);
    assert Rank(p, db.messages[0]) == 4;
    assert LocateStored(db, p).None?;
    assert !Clashes(db.messages[0], RowOf(p, 1));
    StoreMail(db, box, c);
  }

  /** Two workers: the first stores the copy at a and stops; then it continues that message
      for the copy at b, while the second stores the email at c; then the first gives the
      message up and returns nil. */
  lemma BorrowedRun(box: Place -> Identity, a: Place, b: Place, c: Place, maxAttempts: nat) returns (run: seq<Action>)
    requires Collision(box, a, b, c)
    ensures Possible(EMPTY, run, maxAttempts) && Reads(box, run)
    ensures var s := After(EMPTY, run, maxAttempts);
            Told(s, MailAt(box, b)) && !Silent(s.db, MailAt(box, b))
  {
    StoreFirst(box, a);
    ContinueCopy(box, a, b, c);
    StoreBorrower(box, a, b, c);
    run := Delivered(box, [], EMPTY, 1, a, maxAttempts);
    Extend(EMPTY, run, Stop(1), maxAttempts);
    run := run + [Stop(1)];
    var s := After(EMPTY, run, maxAttempts);
    assert s == State(OneStored(box, a), map[], {});
    run := Delivered(box, run, s, 1, b, maxAttempts);
    s := After(EMPTY, run, maxAttempts);
    run := Delivered(box, run, s, 2, c, maxAttempts);
    run := GivenUp(box, run, a, b, c, maxAttempts);
  }

  /** A delivery up to its first transaction. */
  lemma Delivered(box: Place -> Identity, run: seq<Action>, s: State, w: nat, place: Place, maxAttempts: nat)
    returns (more: seq<Action>)
    requires Possible(EMPTY, run, maxAttempts) && Reads(box, run) && After(EMPTY, run, maxAttempts) == s
    requires w !in s.workers && Handle(s.db, MailAt(box, place)).Unfinished?
    ensures Possible(EMPTY, more, maxAttempts) && Reads(box, more)
    ensures var h := Handle(s.db, MailAt(box, place));
            After(EMPTY, more, maxAttempts)
            == State(h.db, s.workers[w := Listing(MailAt(box, place), h.stored)], s.confirmed)
  {
    var p := MailAt(box, place);
    Extend(EMPTY, run, Deliver(w, place, false), maxAttempts);
    more := run + [Deliver(w, place, false)];
    Extend(EMPTY, more, Work(w, Parses(p)), maxAttempts);
    more := more + [Work(w, Parses(p))];
    var t := After(EMPTY, more, maxAttempts);
    assert t == State(s.db, s.workers[w := Read(p)], s.confirmed);
    Extend(EMPTY, more, Work(w, Proceeds), maxAttempts);
    more := more + [Work(w, Proceeds)];
  }

  /** The first worker's file is refused. */
  lemma GivenUp(box: Place -> Identity, run: seq<Action>, a: Place, b: Place, c: Place, maxAttempts: nat)
    returns (more: seq<Action>)
    requires Collision(box, a, b, c) && Possible(EMPTY, run, maxAttempts) && Reads(box, run)
    requires var s := After(EMPTY, run, maxAttempts);
             s.db == TwoStored(box, a, c) && 1 in s.workers && s.workers[1] == Listing(MailAt(box, b), Left(0))
    ensures Possible(EMPTY, more, maxAttempts) && Reads(box, more)
    ensures var s := After(EMPTY, more, maxAttempts);
            Told(s, MailAt(box, b)) && !Silent(s.db, MailAt(box, b))
  {
    var p := MailAt(box, b);
    Extend(EMPTY, run, Work(1, Proceeds), maxAttempts);
    more := run + [Work(1, Proceeds)];
    Extend(EMPTY, more, Work(1, Rejects), maxAttempts);
    more := more + [Work(1, Rejects)];
    var t := After(EMPTY, more, maxAttempts);
    assert t.workers[1] == Failing(p, Left(0)) && t.db == TwoStored(box, a, c);
    Extend(EMPTY, more, Work(1, Proceeds), maxAttempts);
    more := more + [Work(1, Proceeds)];
    AfterGivingUp(box, a, b, c);
  }

  lemma AfterGivingUp(box: Place -> Identity, a: Place, b: Place, c: Place)
    requires Collision(box, a, b, c)
    ensures !Silent(GiveUp(TwoStored(box, a, c), MailAt(box, b), Left(0)), MailAt(box, b))
  {
    var p := MailAt(box, b);
    var db := GiveUp(TwoStored(box, a, c), p, Left(0));
    assert db.messages[1] == RowOf(MailAt(box, c), 1);
    assert Joined(db.threads, db.messages[0]) && Joined(db.threads, db.messages[1]);
    assert Rank(p, db.messages[1]) == 1 && Rank(p, db.messages[0]) == 3;
    assert Linked(db) && Unique(db.messages) && Best(db, p, 1);
    BestIsLocated(db, p, 1);
    SilentIsFinished(db, p);
  }

  /** Redelivery is always silent if and only if the mailboxes hold no such collision. */
  lemma IdempotentIff(box: Place -> Identity, maxAttempts: nat)
    requires maxAttempts > 0 && Mailboxes(box)
    ensures AlwaysSilent(box, maxAttempts) <==> !Collides(box)
  {
    if Collides(box) {
      var a, b, c :| Collision(box, a, b, c);
      var run := BorrowedRun(box, a, b, c, maxAttempts);
      assert Reached(box, After(EMPTY, run, maxAttempts), maxAttempts);
    } else {
      forall s, p | Reached(box, s, maxAttempts) && Told(s, p) ensures Silent(s.db, p) {
        if !Silent(s.db, p) {
          NotSilentCollides(box, s, p, maxAttempts);
        }
      }
    }
  }
}
