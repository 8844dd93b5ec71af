/** What a delivery leaves behind that nobody disturbs: which parts have their files, and
    whether the message is shown, given up, or has spent an attempt. */
module Deliveries {
  import opened Options
  import opened Messages
  import opened Inbound
  import Effects = InboundEffects
  import Runs = InboundRuns

  /** What surrounds one delivery: whether anybody else acts meanwhile, the calls that fail
      by their number, what the parser makes of an email and whether its errors are final,
      what the storage says to a part, whether a sender is named, and the contact search. */
  datatype Outside = Outside(
    quiet: bool, fails: nat -> bool, parser: Place -> Option<Parsed>, permanent: bool,
    storage: nat -> Runs.Choice, hasSender: bool, search: Option<Resolution>)

  /** Nothing disturbs the delivery. */
  ghost predicate Calm(env: Outside) {
    env.quiet && forall i :: !env.fails(i)
  }

  /** The part needs no upload, or its upload goes well. */
  predicate Uploadable(env: Outside, p: Parsed, parts: seq<PartState>, i: nat)
    requires i < |parts|
  {
    parts[i].PendingPart? ==> Runs.HasContent(p, i) && env.storage(i).Stores?
  }

  /** The first n parts have their files, and nothing else has changed. */
  ghost predicate Filled(env: Outside, db: Db, b: Db, m: nat, n: nat) {
    && m < |db.messages| == |b.messages|
    && b == db.(messages := db.messages[m := db.messages[m].(parts := b.messages[m].parts)])
    && var parts, files := db.messages[m].parts, b.messages[m].parts;
       && n <= |parts| == |files| && (forall i :: n <= i < |parts| ==> files[i] == parts[i])
       && (forall i :: 0 <= i < n && !parts[i].PendingPart? ==> files[i] == parts[i])
       && (forall i :: 0 <= i < n && parts[i].PendingPart? && env.storage(i).Stores? ==>
             files[i] == StoredPart(env.storage(i).file))
  }

  /** The uploads have ended at a part, or after the last one. */
  ghost predicate EndsAt(env: Outside, p: Parsed, parts: seq<PartState>, n: nat) {
    && n <= |parts| && (forall i :: 0 <= i < n ==> Uploadable(env, p, parts, i))
    && (n < |parts| ==> !Uploadable(env, p, parts, n))
  }

  /** A part that cannot be uploaded, or was refused, gives the message up; every other
      failure costs an attempt. */
  ghost predicate Ends(env: Outside, p: Parsed, s: Stored, n: nat, maxAttempts: nat, db: Db, b: Db, ok: bool)
    requires s.id < |db.messages|
  {
    if !Runs.HasContent(p, n) || env.storage(n).Rejects? then ok && Effects.GivesUp(db, b, p, s)
    else Effects.Spends(db, b, p, s, maxAttempts, ok)
  }

  /** The answer of the contact search goes in only where one is needed. */
  ghost predicate Resolves(env: Outside, s: Stored, r: Option<Resolution>) {
    && (r.Some? <==>
          s.threadKind.RegularThread? && (s.resolution.Pending? || s.resolution.Unavailable?))
    && (r.Some? && !env.hasSender ==> r.value.NotFound?)
    && (r.Some? && env.hasSender && env.search.None? ==> r.value.Unavailable?)
    && (r.Some? && env.hasSender && env.search.Some? ==>
          r.value == if env.search.value.Resolved? || env.search.value.Ambiguous? then env.search.value else NotFound)
  }

  /** The last transaction, after all uploads. */
  ghost predicate Shows(env: Outside, p: Parsed, s: Stored, db: Db, b: Db, ok: bool)
    requires s.id < |db.messages| && s.thread < |db.threads|
  {
    && (ok <==> !(Effects.StartsFlow(db, s.id) && !db.messages[s.id].describable))
    && (!ok ==> b == db)
    && (ok ==> exists r :: Resolves(env, s, r) && Effects.Completes(db, b, p, s, r))
  }

  /** A part that was pending has the file. */
  ghost predicate PartStored(db: Db, b: Db, m: nat, position: nat, file: nat) {
    && m < |db.messages|
    && (position < |db.messages[m].parts| && db.messages[m].parts[position].PendingPart? ==>
          b == db.(messages := db.messages[m := db.messages[m].(
                 parts := db.messages[m].parts[position := StoredPart(file)])]))
  }

  ghost predicate Manifested(db: Db, m: nat, parts: seq<PartState>) {
    m < |db.messages| && db.messages[m].parts == parts && db.messages[m].state.Processing?
  }

  ghost predicate AllFilled(db: Db, m: nat) {
    m < |db.messages| && db.messages[m].state.Processing? && NoPending(db.messages[m])
  }

  lemma FilledNext(env: Outside, db: Db, filled: Db, b: Db, m: nat, i: nat)
    requires Filled(env, db, filled, m, i) && i < |db.messages[m].parts|
    requires if db.messages[m].parts[i].PendingPart?
             then env.storage(i).Stores? && PartStored(filled, b, m, i, env.storage(i).file) else b == filled
    ensures Filled(env, db, b, m, i + 1)
  {
  }

  lemma FilledIsComplete(env: Outside, p: Parsed, db: Db, filled: Db, m: nat)
    requires m < |db.messages| && db.messages[m].state.Processing?
    requires EndsAt(env, p, db.messages[m].parts, |db.messages[m].parts|)
    requires Filled(env, db, filled, m, |db.messages[m].parts|)
    ensures AllFilled(filled, m)
  {
    var parts := db.messages[m].parts;
    forall i | 0 <= i < |parts| ensures !filled.messages[m].parts[i].PendingPart? {
      assert Uploadable(env, p, parts, i);
    }
  }

  /** What an undisturbed completion leaves of a message that is not finished. */
  ghost predicate Completed(env: Outside, maxAttempts: nat, db: Db, filled: Db, b: Db, p: Parsed, s: Stored, n: nat,
                            ok: bool) {
    s.id < |db.messages| && db.messages[s.id].state.Processing? ==>
      var parts := db.messages[s.id].parts;
      && EndsAt(env, p, parts, n) && Filled(env, db, filled, s.id, n)
      && (n < |parts| ==> Ends(env, p, s, n, maxAttempts, filled, b, ok))
      && (n == |parts| ==> s.thread < |db.threads| && Shows(env, p, s, filled, b, ok))
  }

  /** What an undisturbed delivery of a parsed email leaves. */
  ghost predicate Persisted(env: Outside, maxAttempts: nat, db: Db, first: Handling, filled: Db, b: Db, p: Parsed,
                            n: nat, ok: bool) {
    match first
    case Refused => !ok && b == db
    case Confirmed(after) => ok && b == after
    case Unfinished(after, s) => Completed(env, maxAttempts, after, filled, b, p, s, n, ok)
  }

  /** An undisturbed delivery of a new email whose files are all accepted: the email is
      visible, with the files of its uploads. */
  lemma DeliveredInFull(env: Outside, maxAttempts: nat, db: Db, filled: Db, b: Db, p: Parsed, n: nat, ok: bool)
    requires Kept(db, maxAttempts) && maxAttempts > 0 && LocateStored(db, p).None? && p.describable
    requires Persisted(env, maxAttempts, db, Inbound.Handle(db, p), filled, b, p, n, ok)
    requires forall i :: 0 <= i < |p.parts| && !p.parts[i].skipped ==> p.parts[i].hasContent && env.storage(i).Stores?
    ensures ok && |b.messages| == |db.messages| + 1
    ensures var row := b.messages[|db.messages|];
            && row.state.Ready? && row.messageId == p.messageId && row.scope == p.place.scope
            && |row.parts| == |p.parts|
            && forall i :: 0 <= i < |p.parts| ==>
                 row.parts[i] == if p.parts[i].skipped then SkippedPart else StoredPart(env.storage(i).file)
    ensures Effects.StartsFlow(b, |db.messages|) ==> Key(p.place.scope.domain, |db.messages|) in b.outbox
  {
    HandleKept(db, p, maxAttempts);
    Effects.HandleStores(db, p);
    if Inbound.Handle(db, p).Unfinished? {
      UploadedInFull(env, maxAttempts, db, Inbound.Handle(db, p).db, filled, b, p, Inbound.Handle(db, p).stored, n, ok);
    }
  }

  lemma UploadedInFull(env: Outside, maxAttempts: nat, db: Db, created: Db, filled: Db, b: Db, p: Parsed, s: Stored,
                       n: nat, ok: bool)
    requires Effects.Stores(db, created, p) && Effects.Snapshot(created, s, |db.messages|) && p.describable
    requires created.messages[s.id].state.Processing? && Completed(env, maxAttempts, created, filled, b, p, s, n, ok)
    requires forall i :: 0 <= i < |p.parts| && !p.parts[i].skipped ==> p.parts[i].hasContent && env.storage(i).Stores?
    ensures ok && |b.messages| == |created.messages| && b.messages[s.id].state.Ready?
    ensures var row := b.messages[s.id];
            && row.messageId == p.messageId && row.scope == p.place.scope && |row.parts| == |p.parts|
            && forall i :: 0 <= i < |p.parts| ==>
                 row.parts[i] == if p.parts[i].skipped then SkippedPart else StoredPart(env.storage(i).file)
    ensures Effects.StartsFlow(b, s.id) ==> Key(p.place.scope.domain, s.id) in b.outbox
  {
    var parts := created.messages[s.id].parts;
    assert forall i :: 0 <= i < |parts| ==> Uploadable(env, p, parts, i);
    assert n == |parts| && filled.messages[s.id].describable;
  }

  /** Undisturbed, the first n parts are uploaded. */
  ghost predicate Loading(env: Outside, db: Db, b: Db, p: Parsed, s: Stored, parts: seq<PartState>, n: nat)
    requires n <= |parts|
  {
    Calm(env) && Manifested(db, s.id, parts) ==>
      (forall i :: 0 <= i < n ==> Uploadable(env, p, parts, i)) && Filled(env, db, b, s.id, n)
  }

  /** Undisturbed, the loop has ended after n parts. */
  ghost predicate Loaded(env: Outside, maxAttempts: nat, db: Db, filled: Db, b: Db, p: Parsed, s: Stored,
                         parts: seq<PartState>, n: nat, goOn: bool, ok: bool) {
    Calm(env) && Manifested(db, s.id, parts) ==>
      && EndsAt(env, p, parts, n) && Filled(env, db, filled, s.id, n) && (goOn <==> n == |parts|)
      && (goOn ==> b == filled) && (!goOn ==> Ends(env, p, s, n, maxAttempts, filled, b, ok))
  }

  lemma LoadingNothing(env: Outside, db: Db, p: Parsed, s: Stored, parts: seq<PartState>)
    ensures Loading(env, db, db, p, s, parts, 0)
  {
    if s.id < |db.messages| {
      assert db.messages[s.id := db.messages[s.id]] == db.messages;
    }
  }

  lemma LoadedAll(env: Outside, maxAttempts: nat, db: Db, filled: Db, p: Parsed, s: Stored, parts: seq<PartState>,
                  ok: bool)
    requires Loading(env, db, filled, p, s, parts, |parts|)
    ensures Loaded(env, maxAttempts, db, filled, filled, p, s, parts, |parts|, true, ok)
  {
  }
}
