/** Any number of workers deliver and finish emails at once; each of them may stop at any
    point, an operator decides on contacts, and published events are cleaned up. */
module InboundRuns {
  import opened Options
  import opened Messages
  import opened Inbound

  /** Where a worker stands between two steps, with what it remembers. */
  datatype Phase =
    | Arrived(place: Place, tooLarge: bool)
    | Broken(place: Place)
    | Read(p: Parsed)
    | Listing(p: Parsed, s: Stored)
    | Uploading(p: Parsed, s: Stored, parts: seq<PartState>, next: nat)
    | Uploaded(p: Parsed, s: Stored, parts: seq<PartState>, next: nat, file: nat)
    | Spending(p: Parsed, s: Stored)
    | Failing(p: Parsed, s: Stored)
    | Resolving(p: Parsed, s: Stored)
    | Completing(p: Parsed, s: Stored, r: Option<Resolution>)

  /** A delivery for which the handler returned nil. */
  datatype Confirmation = Confirmation(place: Place, parsed: Option<Parsed>)

  /** How the outside answers. */
  datatype Choice =
    | Proceeds
    | Parses(p: Parsed)
    | Breaks
    | Stores(file: nat)
    | Rejects
    | Fails
    | Finds(r: Option<Resolution>)

  datatype State = State(db: Db, workers: map<nat, Phase>, confirmed: set<Confirmation>)

  const EMPTY := State(Db([], [], {}, [], {}, {}), map[], {})

  datatype Action =
    | Deliver(w: nat, place: Place, tooLarge: bool)
    | Work(w: nat, choice: Choice)
    | Stop(w: nat)
    | Decide(domain: nat, thread: nat, contact: Option<nat>)
    | Cleanup(i: nat)

  /** What a step of a worker leaves: the tables, where it stands unless it has returned,
      and the confirmation if it has returned nil. */
  datatype Outcome = Outcome(db: Db, phase: Option<Phase>, confirmed: Option<Confirmation>)

  function Confirms(db: Db, p: Parsed): Outcome {
    Outcome(db, None, Some(Confirmation(p.place, Some(p))))
  }

  function GoesOn(db: Db, phase: Phase): Outcome {
    Outcome(db, Some(phase), None)
  }

  /** The content of a pending part, if the email still yields it. */
  predicate HasContent(p: Parsed, position: nat) {
    position < |p.parts| && !p.parts[position].skipped && p.parts[position].hasContent
  }

  /** One turn of the upload loop of Complete; a step that is not possible is an error. */
  function Turn(db: Db, f: Phase, choice: Choice): Option<Outcome>
    requires f.Uploading?
  {
    if f.next >= |f.parts| then Some(GoesOn(db, Resolving(f.p, f.s)))
    else if !f.parts[f.next].PendingPart? then Some(GoesOn(db, Uploading(f.p, f.s, f.parts, f.next + 1)))
    else if !HasContent(f.p, f.next) then Some(GoesOn(db, Failing(f.p, f.s)))
    else
      match choice
      case Stores(file) => Some(GoesOn(db, Uploaded(f.p, f.s, f.parts, f.next, file)))
      case Rejects => Some(GoesOn(db, Failing(f.p, f.s)))
      case Fails => Some(GoesOn(db, Spending(f.p, f.s)))
      case _ => None
  }

  /** One step of a worker: a transaction, or a call to the outside. */
  function Worked(db: Db, f: Phase, choice: Choice, maxAttempts: nat): Option<Outcome> {
    match f
    case Arrived(place, tooLarge) =>
      if tooLarge || choice.Breaks? then Some(GoesOn(db, Broken(place)))
      else if choice.Parses? && choice.p.place == place then Some(GoesOn(db, Read(choice.p)))
      else None
    case Broken(place) => Some(Outcome(Record(db, place), None, Some(Confirmation(place, None))))
    case Read(p) =>
      (match Handle(db, p)
       case Refused => None
       case Confirmed(b) => Some(Confirms(b, p))
       case Unfinished(b, s) => Some(GoesOn(b, Listing(p, s))))
    case Listing(p, s) =>
      if s.id < |db.messages| then Some(GoesOn(db, Uploading(p, s, db.messages[s.id].parts, 0))) else None
    case Uploading(_, _, _, _) => Turn(db, f, choice)
    case Uploaded(p, s, parts, next, file) =>
      Some(GoesOn(MarkStored(db, p.place.scope.domain, s.id, next, file), Uploading(p, s, parts, next + 1)))
    case Spending(p, s) =>
      var spent := Spend(db, p, s, maxAttempts);
      if spent.None? then None
      else if spent.value.1 then Some(Confirms(spent.value.0, p))
      else Some(Outcome(spent.value.0, None, None))
    case Failing(p, s) => Some(Confirms(GiveUp(db, p, s), p))
    case Resolving(p, s) =>
      if choice.Finds? && Answers(s, choice.r) then Some(GoesOn(db, Completing(p, s, choice.r))) else None
    case Completing(p, s, r) =>
      var done := Complete(db, p, s, r);
      if done.None? then None else Some(Confirms(done.value, p))
  }

  predicate Enabled(s: State, a: Action, maxAttempts: nat) {
    match a
    case Deliver(w, _, _) => w !in s.workers
    case Work(w, choice) => w in s.workers && Worked(s.db, s.workers[w], choice, maxAttempts).Some?
    case Stop(w) => w in s.workers
    case Decide(_, _, _) => true
    case Cleanup(i) => i < |s.db.outbox|
  }

  function Next(s: State, a: Action, maxAttempts: nat): State
    requires Enabled(s, a, maxAttempts)
  {
    match a
    case Deliver(w, place, tooLarge) => s.(workers := s.workers[w := Arrived(place, tooLarge)])
    case Work(w, choice) =>
      var o := Worked(s.db, s.workers[w], choice, maxAttempts).value;
      State(o.db,
            if o.phase.Some? then s.workers[w := o.phase.value] else s.workers - {w},
            if o.confirmed.Some? then s.confirmed + {o.confirmed.value} else s.confirmed)
    case Stop(w) => s.(workers := s.workers - {w})
    case Decide(domain, t, contact) => s.(db := SetContactManually(s.db, domain, t, contact))
    case Cleanup(i) => s.(db := s.db.(outbox := s.db.outbox[..i] + s.db.outbox[i + 1..]))
  }

  predicate Possible(s: State, run: seq<Action>, maxAttempts: nat)
    decreases run
  {
    run == [] || (Enabled(s, run[0], maxAttempts) && Possible(Next(s, run[0], maxAttempts), run[1..], maxAttempts))
  }

  function After(s: State, run: seq<Action>, maxAttempts: nat): State
    requires Possible(s, run, maxAttempts)
    decreases run
  {
    if run == [] then s else After(Next(s, run[0], maxAttempts), run[1..], maxAttempts)
  }

  // ---------------------------------------------------------------------------
  // The invariant.

  /** What a confirmation stands for: a finished message shares an identity of the email;
      or, for one that was not parsed, a quarantine record has its position. */
  ghost predicate Settled(db: Db, c: Confirmation) {
    if c.parsed.None? then c.place in db.failures
    else c.parsed.value.place == c.place && Finished(db, c.parsed.value)
  }

  ghost predicate PhaseKept(db: Db, f: Phase) {
    match f
    case Arrived(_, _) => true
    case Broken(_) => true
    case Read(_) => true
    case Listing(p, s) => StoredKept(db, p, s)
    case Uploading(p, s, _, _) => StoredKept(db, p, s)
    case Uploaded(p, s, _, _, _) => StoredKept(db, p, s)
    case Spending(p, s) => StoredKept(db, p, s)
    case Failing(p, s) => StoredKept(db, p, s)
    case Resolving(p, s) => StoredKept(db, p, s)
    case Completing(p, s, r) => StoredKept(db, p, s) && Answers(s, r)
  }

  ghost predicate Invariant(s: State, maxAttempts: nat) {
    && Kept(s.db, maxAttempts)
    && (forall w :: w in s.workers ==> PhaseKept(s.db, s.workers[w]))
    && (forall c :: c in s.confirmed ==> Settled(s.db, c))
  }

  lemma PhaseForever(a: Db, b: Db, f: Phase)
    requires Grows(a, b) && PhaseKept(a, f)
    ensures PhaseKept(b, f)
  {
    if !f.Arrived? && !f.Broken? && !f.Read? {
      StoredForever(a, b, f.p, f.s);
    }
  }

  lemma SettledForever(a: Db, b: Db, c: Confirmation)
    requires Grows(a, b) && Settled(a, c)
    ensures Settled(b, c)
  {
    if c.parsed.Some? {
      FinishedForever(a, b, c.parsed.value);
    }
  }

  ghost predicate OutcomeKept(db: Db, o: Outcome, maxAttempts: nat) {
    && Kept(o.db, maxAttempts) && Grows(db, o.db)
    && (o.phase.Some? ==> PhaseKept(o.db, o.phase.value))
    && (o.confirmed.Some? ==> Settled(o.db, o.confirmed.value))
  }

  /** A step of a worker, whatever the others have done since its last one. */
  lemma WorkedKept(db: Db, f: Phase, choice: Choice, maxAttempts: nat)
    requires Kept(db, maxAttempts) && PhaseKept(db, f) && maxAttempts > 0 && Worked(db, f, choice, maxAttempts).Some?
    ensures OutcomeKept(db, Worked(db, f, choice, maxAttempts).value, maxAttempts)
  {
    match f
    case Broken(place) => RecordKept(db, place, maxAttempts);
    case Read(p) => ReadKept(db, f, choice, maxAttempts);
    case Uploaded(_, _, _, _, _) => UploadedKept(db, f, choice, maxAttempts);
    case Spending(_, _) => GivingUpKept(db, f, choice, maxAttempts);
    case Failing(_, _) => GivingUpKept(db, f, choice, maxAttempts);
    case Completing(_, _, _) => CompletingKept(db, f, choice, maxAttempts);
    case _ => OutsideKept(db, f, choice, maxAttempts);
  }

  /** A call to the outside changes no table. */
  lemma OutsideSame(db: Db, f: Phase, choice: Choice, maxAttempts: nat)
    requires PhaseKept(db, f) && Worked(db, f, choice, maxAttempts).Some?
    requires f.Arrived? || f.Listing? || f.Uploading? || f.Resolving?
    ensures var o := Worked(db, f, choice, maxAttempts).value;
            o.db == db && o.confirmed.None? && o.phase.Some? && PhaseKept(db, o.phase.value)
  {
  }

  lemma OutsideKept(db: Db, f: Phase, choice: Choice, maxAttempts: nat)
    requires Kept(db, maxAttempts) && PhaseKept(db, f) && Worked(db, f, choice, maxAttempts).Some?
    requires f.Arrived? || f.Listing? || f.Uploading? || f.Resolving?
    ensures OutcomeKept(db, Worked(db, f, choice, maxAttempts).value, maxAttempts)
  {
    OutsideSame(db, f, choice, maxAttempts);
    GrowsReflexive(db);
  }

  lemma ReadKept(db: Db, f: Phase, choice: Choice, maxAttempts: nat)
    requires Kept(db, maxAttempts) && maxAttempts > 0 && f.Read? && Worked(db, f, choice, maxAttempts).Some?
    ensures OutcomeKept(db, Worked(db, f, choice, maxAttempts).value, maxAttempts)
  {
    HandleKept(db, f.p, maxAttempts);
  }

  lemma UploadedKept(db: Db, f: Phase, choice: Choice, maxAttempts: nat)
    requires Kept(db, maxAttempts) && f.Uploaded? && PhaseKept(db, f)
    ensures OutcomeKept(db, Worked(db, f, choice, maxAttempts).value, maxAttempts)
  {
    StoreKept(db, f.p, f.s, f.next, f.file, maxAttempts);
    StoredForever(db, MarkStored(db, f.p.place.scope.domain, f.s.id, f.next, f.file), f.p, f.s);
  }

  lemma GivingUpKept(db: Db, f: Phase, choice: Choice, maxAttempts: nat)
    requires Kept(db, maxAttempts) && PhaseKept(db, f) && Worked(db, f, choice, maxAttempts).Some?
    requires f.Spending? || f.Failing?
    ensures OutcomeKept(db, Worked(db, f, choice, maxAttempts).value, maxAttempts)
  {
    var o := Worked(db, f, choice, maxAttempts).value;
    if f.Spending? {
      SpendKept(db, f.p, f.s, maxAttempts);
    } else {
      GiveUpKept(db, f.p, f.s, maxAttempts);
    }
    assert o.confirmed.Some? ==> Finishes(o.db, f.p, f.s.id);
  }

  lemma CompletingKept(db: Db, f: Phase, choice: Choice, maxAttempts: nat)
    requires Kept(db, maxAttempts) && f.Completing? && PhaseKept(db, f) && Worked(db, f, choice, maxAttempts).Some?
    ensures OutcomeKept(db, Worked(db, f, choice, maxAttempts).value, maxAttempts)
  {
    CompleteKept(db, f.p, f.s, f.r, maxAttempts);
    assert Finishes(Worked(db, f, choice, maxAttempts).value.db, f.p, f.s.id);
  }

  lemma RestKept(s: State, b: Db, maxAttempts: nat)
    requires Invariant(s, maxAttempts) && Grows(s.db, b)
    ensures forall w :: w in s.workers ==> PhaseKept(b, s.workers[w])
    ensures forall c :: c in s.confirmed ==> Settled(b, c)
  {
    forall w | w in s.workers ensures PhaseKept(b, s.workers[w]) {
      PhaseForever(s.db, b, s.workers[w]);
    }
    forall c | c in s.confirmed ensures Settled(b, c) {
      SettledForever(s.db, b, c);
    }
  }

  lemma StepKept(s: State, a: Action, maxAttempts: nat)
    requires Invariant(s, maxAttempts) && Enabled(s, a, maxAttempts) && maxAttempts > 0
    ensures Invariant(Next(s, a, maxAttempts), maxAttempts) && Grows(s.db, Next(s, a, maxAttempts).db)
  {
    var b := Next(s, a, maxAttempts).db;
    match a
    case Deliver(_, _, _) =>
    case Work(w, choice) =>
      WorkedKept(s.db, s.workers[w], choice, maxAttempts);
      RestKept(s, b, maxAttempts);
    case Stop(_) =>
    case Decide(domain, t, contact) =>
      SetContactKept(s.db, domain, t, contact, maxAttempts);
      RestKept(s, b, maxAttempts);
    case Cleanup(i) =>
      CleanupKept(s.db, i, maxAttempts);
      RestKept(s, b, maxAttempts);
  }

  lemma {:induction false} RunKept(s: State, run: seq<Action>, maxAttempts: nat)
    requires Invariant(s, maxAttempts) && Possible(s, run, maxAttempts) && maxAttempts > 0
    ensures Invariant(After(s, run, maxAttempts), maxAttempts) && Grows(s.db, After(s, run, maxAttempts).db)
    decreases run
  {
    if run != [] {
      StepKept(s, run[0], maxAttempts);
      RunKept(Next(s, run[0], maxAttempts), run[1..], maxAttempts);
      GrowsTransitive(s.db, Next(s, run[0], maxAttempts).db, After(s, run, maxAttempts).db);
    }
  }

  /** A run may be continued by any step that is possible where it ends. */
  lemma {:induction false} Extend(s: State, run: seq<Action>, a: Action, maxAttempts: nat)
    requires Possible(s, run, maxAttempts) && Enabled(After(s, run, maxAttempts), a, maxAttempts)
    ensures Possible(s, run + [a], maxAttempts)
    ensures After(s, run + [a], maxAttempts) == Next(After(s, run, maxAttempts), a, maxAttempts)
    decreases run
  {
    if run == [] {
      assert run + [a] == [a] && [a][1..] == [];
    } else {
      assert (run + [a])[0] == run[0] && (run + [a])[1..] == run[1..] + [a];
      Extend(Next(s, run[0], maxAttempts), run[1..], a, maxAttempts);
    }
  }

  // ---------------------------------------------------------------------------
  // What every run gives.

  predicate HasEvent(db: Db, m: nat)
    requires m < |db.messages|
  {
    Key(db.messages[m].scope.domain, m) in db.outbox
  }

  /** The lifecycle invariant, message by message. */
  lemma Lifecycle(run: seq<Action>, maxAttempts: nat, m: nat)
    requires Possible(EMPTY, run, maxAttempts) && maxAttempts > 0 && m < |After(EMPTY, run, maxAttempts).db.messages|
    ensures var db := After(EMPTY, run, maxAttempts).db;
            var row := db.messages[m];
            && row.thread < |db.threads| && db.threads[row.thread].scope == row.scope
            && (row.state.Ready? ==> forall i :: 0 <= i < |row.parts| ==> !row.parts[i].PendingPart?)
            && (row.state.Ready? && Eligible(db.threads, row) <==> m in db.appended)
            && (m in db.appended ==> row.describable)
            && (HasEvent(db, m) ==> row.state.Ready?)
            && (row.state.Ready? ==> !db.threads[row.thread].resolution.Pending?)
            && (row.kind.Regular? ==> db.threads[row.thread].kind.RegularThread?)
  {
    RunKept(EMPTY, run, maxAttempts);
    var db := After(EMPTY, run, maxAttempts).db;
    assert MessageKept(db, m, maxAttempts) && Joined(db.threads, db.messages[m]);
  }

  /** The dates of threads, thread by thread, and the live rows of the Outbox. */
  lemma ThreadsAndOutbox(run: seq<Action>, maxAttempts: nat)
    requires Possible(EMPTY, run, maxAttempts) && maxAttempts > 0
    ensures var db := After(EMPTY, run, maxAttempts).db;
            && (forall t :: 0 <= t < |db.threads| ==> (db.threads[t].lastMessageAt.Some? <==> HasReady(db, t)))
            && (forall i, j :: 0 <= i < j < |db.outbox| ==> db.outbox[i] != db.outbox[j])
            && (forall i, j :: 0 <= i < j < |db.messages| ==> !Clashes(db.messages[i], db.messages[j]))
  {
    RunKept(EMPTY, run, maxAttempts);
    var db := After(EMPTY, run, maxAttempts).db;
    forall t | 0 <= t < |db.threads| ensures db.threads[t].lastMessageAt.Some? <==> HasReady(db, t) {
      assert ThreadKept(db, t);
      if HasReady(db, t) {
        var m :| 0 <= m < |db.messages| && db.messages[m].thread == t && db.messages[m].state.Ready?;
        assert MessageKept(db, m, maxAttempts);
      }
    }
  }

  /** Bounded retries: the budget is never exceeded, a processing message has some left,
      and a failed one was recorded when it failed. */
  lemma BoundedRetries(run: seq<Action>, maxAttempts: nat, m: nat)
    requires Possible(EMPTY, run, maxAttempts) && maxAttempts > 0 && m < |After(EMPTY, run, maxAttempts).db.messages|
    ensures var db := After(EMPTY, run, maxAttempts).db;
            && db.messages[m].attempts <= maxAttempts
            && (db.messages[m].state.Processing? ==> db.messages[m].attempts < maxAttempts)
            && (db.messages[m].state.Failed? <==> exists place :: (m, place) in db.gaveUp)
            && (forall place :: (m, place) in db.gaveUp ==> place in db.failures)
  {
    RunKept(EMPTY, run, maxAttempts);
    var db := After(EMPTY, run, maxAttempts).db;
    assert MessageKept(db, m, maxAttempts);
  }

  /** What a step of a worker may do to rows that exist. */
  ghost predicate Careful(a: Db, b: Db, f: Phase) {
    && |a.messages| <= |b.messages| && |a.threads| <= |b.threads|
    && (forall m :: 0 <= m < |a.messages| ==>
         Spent(a.messages[m], b.messages[m], m, f) && Moved(a.messages[m], b, m, f))
    && (forall m :: m in b.appended && m !in a.appended ==> m < |b.messages| && HasEvent(b, m))
    && (forall t :: 0 <= t < |a.threads| ==> Respected(a.threads[t], b.threads[t]))
  }

  predicate Spent(a: Message, b: Message, m: nat, f: Phase) {
    b.attempts == a.attempts || (f.Spending? && f.s.id == m && b.attempts == a.attempts + 1)
  }

  predicate Moved(a: Message, b: Db, m: nat, f: Phase)
    requires m < |b.messages|
  {
    a.state.Processing? && b.messages[m].state.Failed? ==>
      (f.Spending? || f.Failing?) && f.s.id == m && f.p.place in b.failures
  }

  predicate Respected(a: Thread, b: Thread) {
    a.resolution.Pending? || a.resolution.Unavailable? || b.resolution == a.resolution
  }

  lemma WorkedCareful(db: Db, f: Phase, choice: Choice, maxAttempts: nat)
    requires Worked(db, f, choice, maxAttempts).Some?
    ensures Careful(db, Worked(db, f, choice, maxAttempts).value.db, f)
  {
    match f
    case Read(p) => HandleCareful(db, f);
    case Completing(p, s, r) => CompleteCareful(db, f);
    case Spending(p, s) => SpendCareful(db, f, maxAttempts);
    case Failing(p, s) => GiveUpCareful(db, f);
    case Uploaded(p, s, _, next, file) => StoreCareful(db, f);
    case _ => SameCareful(db, f, choice, maxAttempts);
  }

  lemma SameCareful(db: Db, f: Phase, choice: Choice, maxAttempts: nat)
    requires Worked(db, f, choice, maxAttempts).Some?
    requires f.Arrived? || f.Broken? || f.Listing? || f.Uploading? || f.Resolving?
    ensures Careful(db, Worked(db, f, choice, maxAttempts).value.db, f)
  {
    var b := Worked(db, f, choice, maxAttempts).value.db;
    assert b == db.(failures := b.failures);
  }

  lemma SpendCareful(db: Db, f: Phase, maxAttempts: nat)
    requires f.Spending? && Spend(db, f.p, f.s, maxAttempts).Some?
    ensures Careful(db, Spend(db, f.p, f.s, maxAttempts).value.0, f)
  {
  }

  lemma GiveUpCareful(db: Db, f: Phase)
    requires f.Failing?
    ensures Careful(db, GiveUp(db, f.p, f.s), f)
  {
  }

  lemma StoreCareful(db: Db, f: Phase)
    requires f.Uploaded?
    ensures Careful(db, MarkStored(db, f.p.place.scope.domain, f.s.id, f.next, f.file), f)
  {
  }

  lemma AdvanceCareful(db: Db, b: Db, scope: Scope, t: nat, at: Time, k: nat, f: Phase)
    requires Careful(db, b, f) && b.appended == db.appended
    requires WriteEvent(AdvanceLastMessage(b, scope, t, at), scope.domain, k).Some?
    ensures Careful(db, WriteEvent(AdvanceLastMessage(b, scope, t, at), scope.domain, k).value, f)
  {
    var c := WriteEvent(AdvanceLastMessage(b, scope, t, at), scope.domain, k).value;
    forall u | 0 <= u < |db.threads| ensures Respected(db.threads[u], c.threads[u]) {
      assert Respected(db.threads[u], b.threads[u]);
    }
    forall m | 0 <= m < |db.messages| ensures Moved(db.messages[m], c, m, f) {
      assert Moved(db.messages[m], b, m, f);
    }
  }

  lemma HandleCareful(db: Db, f: Phase)
    requires f.Read? && !Handle(db, f.p).Refused?
    ensures Careful(db, Handle(db, f.p).db, f)
  {
    var b := Created(db, f.p);
    var t := Placed(db, f.p).1;
    assert Careful(db, b, f);
    assert Careful(db, db, f);
    if LocateStored(db, f.p).None? && Handle(db, f.p).Confirmed? {
      AdvanceCareful(db, b, f.p.place.scope, t, f.p.receivedAt, |db.messages|, f);
    }
  }

  lemma CompleteCareful(db: Db, f: Phase)
    requires f.Completing? && Complete(db, f.p, f.s, f.r).Some?
    ensures Careful(db, Complete(db, f.p, f.s, f.r).value, f)
  {
    var domain := f.p.place.scope.domain;
    var resolved := if f.r.Some? then ResolveContact(db, domain, f.s.thread, f.r.value) else db;
    var (marked, state) := MarkReady(resolved, domain, f.s.id);
    assert Careful(db, marked, f);
    if state == Some(Ready) {
      AdvanceCareful(db, marked, f.p.place.scope, f.s.thread, f.p.receivedAt, f.s.id, f);
    }
  }

  /** An attempt is spent only by a failed upload that commits, and only one of the
      message it belongs to. */
  lemma OnlyUploadsSpend(s: State, a: Action, maxAttempts: nat, m: nat)
    requires Enabled(s, a, maxAttempts) && m < |s.db.messages|
    ensures var b := Next(s, a, maxAttempts).db;
            && m < |b.messages|
            && (b.messages[m].attempts == s.db.messages[m].attempts
                || (a.Work? && s.workers[a.w].Spending? && s.workers[a.w].s.id == m
                     && b.messages[m].attempts == s.db.messages[m].attempts + 1))
  {
    if a.Work? {
      WorkedCareful(s.db, s.workers[a.w], a.choice, maxAttempts);
      assert Spent(s.db.messages[m], Next(s, a, maxAttempts).db.messages[m], m, s.workers[a.w]);
    }
  }

  /** Every move to failed commits together with a record of the delivery that caused it. */
  lemma FailureIsRecorded(s: State, a: Action, maxAttempts: nat, m: nat)
    requires Enabled(s, a, maxAttempts) && m < |s.db.messages|
    ensures var b := Next(s, a, maxAttempts).db;
            && m < |b.messages|
            && (s.db.messages[m].state.Processing? && b.messages[m].state.Failed? ==>
                  && a.Work? && (s.workers[a.w].Spending? || s.workers[a.w].Failing?) && s.workers[a.w].s.id == m
                  && s.workers[a.w].p.place in b.failures)
  {
    if a.Work? {
      WorkedCareful(s.db, s.workers[a.w], a.choice, maxAttempts);
      assert Moved(s.db.messages[m], Next(s, a, maxAttempts).db, m, s.workers[a.w]);
    }
  }

  predicate IsReady(db: Db, m: nat) {
    m < |db.messages| && db.messages[m].state.Ready?
  }

  /** Every event is appended in the step that makes its message ready. */
  lemma EventWithReady(s: State, a: Action, maxAttempts: nat, m: nat)
    requires Invariant(s, maxAttempts) && Enabled(s, a, maxAttempts) && maxAttempts > 0
    ensures var b := Next(s, a, maxAttempts).db;
            !IsReady(s.db, m) && IsReady(b, m) && Eligible(b.threads, b.messages[m]) ==>
              m !in s.db.appended && m in b.appended && HasEvent(b, m)
  {
    StepKept(s, a, maxAttempts);
    var b := Next(s, a, maxAttempts).db;
    if !IsReady(s.db, m) && IsReady(b, m) && Eligible(b.threads, b.messages[m]) {
      assert MessageKept(b, m, maxAttempts);
      assert m < |s.db.messages| ==> MessageKept(s.db, m, maxAttempts);
      AppendedHasRow(s, a, maxAttempts, m);
    }
  }

  lemma AppendedHasRow(s: State, a: Action, maxAttempts: nat, m: nat)
    requires Enabled(s, a, maxAttempts) && m !in s.db.appended && m in Next(s, a, maxAttempts).db.appended
    ensures m < |Next(s, a, maxAttempts).db.messages| && HasEvent(Next(s, a, maxAttempts).db, m)
  {
    if a.Work? {
      WorkedCareful(s.db, s.workers[a.w], a.choice, maxAttempts);
    }
  }

  /** The operator always wins: what was decided is changed by an operator only. */
  lemma OperatorWins(s: State, a: Action, maxAttempts: nat, t: nat)
    requires Enabled(s, a, maxAttempts) && t < |s.db.threads| && (a.Decide? ==> a.thread != t)
    requires !s.db.threads[t].resolution.Pending? && !s.db.threads[t].resolution.Unavailable?
    ensures t < |Next(s, a, maxAttempts).db.threads|
    ensures Next(s, a, maxAttempts).db.threads[t].resolution == s.db.threads[t].resolution
  {
    if a.Work? {
      WorkedCareful(s.db, s.workers[a.w], a.choice, maxAttempts);
      assert Respected(s.db.threads[t], Next(s, a, maxAttempts).db.threads[t]);
    }
  }

  lemma {:induction false} DecidedForLong(s: State, run: seq<Action>, maxAttempts: nat, t: nat)
    requires Possible(s, run, maxAttempts) && t < |s.db.threads|
    requires forall i :: 0 <= i < |run| && run[i].Decide? ==> run[i].thread != t
    requires !s.db.threads[t].resolution.Pending? && !s.db.threads[t].resolution.Unavailable?
    ensures var db := After(s, run, maxAttempts).db;
            t < |db.threads| && db.threads[t].resolution == s.db.threads[t].resolution
    decreases run
  {
    if run != [] {
      OperatorWins(s, run[0], maxAttempts, t);
      DecidedForLong(Next(s, run[0], maxAttempts), run[1..], maxAttempts, t);
    }
  }

  /** The decision of an operator stands, whatever answers come in later, until an operator
      decides on the same thread again. */
  lemma DecisionStands(s: State, contact: Option<nat>, run: seq<Action>, maxAttempts: nat, t: nat)
    requires t < |s.db.threads| && s.db.threads[t].kind.RegularThread?
    requires Possible(Next(s, Decide(s.db.threads[t].scope.domain, t, contact), maxAttempts), run, maxAttempts)
    requires forall i :: 0 <= i < |run| && run[i].Decide? ==> run[i].thread != t
    ensures var decided := Next(s, Decide(s.db.threads[t].scope.domain, t, contact), maxAttempts);
            var db := After(decided, run, maxAttempts).db;
            && t < |db.threads|
            && db.threads[t].resolution == if contact.None? then Unlinked else Resolved(contact.value)
  {
    var decided := Next(s, Decide(s.db.threads[t].scope.domain, t, contact), maxAttempts);
    DecidedForLong(decided, run, maxAttempts, t);
  }

  /** From any state on, whatever runs: a finished message stays as it is, a stored file
      stays, a skipped part never gets one, and the date of a thread does not move back. */
  lemma OneWay(s: State, run: seq<Action>, maxAttempts: nat, m: nat)
    requires Invariant(s, maxAttempts) && Possible(s, run, maxAttempts) && maxAttempts > 0 && m < |s.db.messages|
    ensures var a, db := s.db.messages[m], After(s, run, maxAttempts).db;
            && m < |db.messages| && |db.messages[m].parts| == |a.parts|
            && (!a.state.Processing? ==> db.messages[m].state == a.state)
            && (forall i :: 0 <= i < |a.parts| && !a.parts[i].PendingPart? ==> db.messages[m].parts[i] == a.parts[i])
            && a.thread < |s.db.threads| && db.messages[m].thread == a.thread < |db.threads|
            && (var before, now := s.db.threads[a.thread].lastMessageAt, db.threads[a.thread].lastMessageAt;
                before.Some? ==> now.Some? && before.value <= now.value)
  {
    RunKept(s, run, maxAttempts);
    var db := After(s, run, maxAttempts).db;
    assert Joined(s.db.threads, s.db.messages[m]);
    assert MessageGrows(s.db.messages[m], db.messages[m]);
    assert ThreadGrows(s.db.threads[s.db.messages[m].thread], db.threads[s.db.messages[m].thread]);
  }

  /** Whatever was confirmed is settled, and stays so whatever happens later. */
  lemma ConfirmedIsSettled(run: seq<Action>, maxAttempts: nat, c: Confirmation)
    requires Possible(EMPTY, run, maxAttempts) && maxAttempts > 0 && c in After(EMPTY, run, maxAttempts).confirmed
    ensures Settled(After(EMPTY, run, maxAttempts).db, c)
  {
    RunKept(EMPTY, run, maxAttempts);
  }

  // ---------------------------------------------------------------------------
  // Runs in one piece.

  /** Some run leads from one state to the other. */
  ghost predicate Leads(a: State, b: State, maxAttempts: nat) {
    exists run :: Possible(a, run, maxAttempts) && After(a, run, maxAttempts) == b
  }

  lemma LeadsNowhere(s: State, maxAttempts: nat)
    ensures Leads(s, s, maxAttempts)
  {
    assert Possible(s, [], maxAttempts) && After(s, [], maxAttempts) == s;
  }

  lemma LeadsOne(s: State, a: Action, maxAttempts: nat)
    requires Enabled(s, a, maxAttempts)
    ensures Leads(s, Next(s, a, maxAttempts), maxAttempts)
  {
    assert Possible(s, [], maxAttempts) && After(s, [], maxAttempts) == s;
    Extend(s, [], a, maxAttempts);
  }

  lemma {:induction false} Concatenated(s: State, a: seq<Action>, b: seq<Action>, maxAttempts: nat)
    requires Possible(s, a, maxAttempts) && Possible(After(s, a, maxAttempts), b, maxAttempts)
    ensures Possible(s, a + b, maxAttempts)
    ensures After(s, a + b, maxAttempts) == After(After(s, a, maxAttempts), b, maxAttempts)
    decreases a
  {
    if a == [] {
      assert a + b == b;
    } else {
      assert (a + b)[0] == a[0] && (a + b)[1..] == a[1..] + b;
      Concatenated(Next(s, a[0], maxAttempts), a[1..], b, maxAttempts);
    }
  }

  lemma LeadsOn(a: State, b: State, c: State, maxAttempts: nat)
    requires Leads(a, b, maxAttempts) && Leads(b, c, maxAttempts)
    ensures Leads(a, c, maxAttempts)
  {
    var first :| Possible(a, first, maxAttempts) && After(a, first, maxAttempts) == b;
    var second :| Possible(b, second, maxAttempts) && After(b, second, maxAttempts) == c;
    Concatenated(a, first, second, maxAttempts);
  }

  lemma KeptAlong(a: State, b: State, maxAttempts: nat)
    requires Invariant(a, maxAttempts) && Leads(a, b, maxAttempts) && maxAttempts > 0
    ensures Invariant(b, maxAttempts) && Grows(a.db, b.db)
  {
    var run :| Possible(a, run, maxAttempts) && After(a, run, maxAttempts) == b;
    RunKept(a, run, maxAttempts);
  }

  /** A state that a run from empty tables leads to. */
  ghost predicate Reachable(s: State, maxAttempts: nat) {
    Leads(EMPTY, s, maxAttempts)
  }

  lemma ReachableKept(s: State, maxAttempts: nat)
    requires Reachable(s, maxAttempts) && maxAttempts > 0
    ensures Invariant(s, maxAttempts)
  {
    assert Invariant(EMPTY, maxAttempts);
    KeptAlong(EMPTY, s, maxAttempts);
  }

  lemma PhaseReachable(s: State, w: nat, maxAttempts: nat)
    requires Reachable(s, maxAttempts) && maxAttempts > 0 && w in s.workers
    ensures PhaseKept(s.db, s.workers[w])
  {
    ReachableKept(s, maxAttempts);
  }

  lemma SettledReachable(s: State, c: Confirmation, maxAttempts: nat)
    requires Reachable(s, maxAttempts) && maxAttempts > 0 && c in s.confirmed
    ensures Settled(s.db, c)
  {
    ReachableKept(s, maxAttempts);
  }
}
