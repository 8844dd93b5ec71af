/** The handler of one delivery in its own control flow, on the tables it shares with other
    workers. Between any two of its steps the others may do whatever they can; and every
    delivery is a run of the interleaving. */
module InboundHandler {
  import opened Options
  import opened Messages
  import opened Threading
  import opened Inbound
  import opened Deliveries
  import Effects = InboundEffects
  import Runs = InboundRuns

  /** One row for each part; those without content to store are not pending. */
  method BuildAttachments(parts: seq<Part>) returns (manifest: seq<PartState>)
    ensures manifest == Manifest(parts)
    ensures |manifest| == |parts|
    ensures forall k :: 0 <= k < |parts| ==> manifest[k] == if parts[k].skipped then SkippedPart else PendingPart
  {
    manifest := [];
    for i := 0 to |parts|
      invariant |manifest| == i
      invariant forall k :: 0 <= k < i ==> manifest[k] == if parts[k].skipped then SkippedPart else PendingPart
    {
      if parts[i].skipped {
        manifest := manifest + [SkippedPart];
      } else {
        manifest := manifest + [PendingPart];
      }
    }
  }

  method HasPendingAttachments(manifest: seq<PartState>) returns (pending: bool)
    ensures pending <==> exists i :: 0 <= i < |manifest| && manifest[i].PendingPart?
  {
    for i := 0 to |manifest|
      invariant forall k :: 0 <= k < i ==> !manifest[k].PendingPart?
    {
      if manifest[i].PendingPart? {
        return true;
      }
    }
    return false;
  }

  class Tables {
    var threads: seq<Thread>
    var messages: seq<Message>
    var failures: set<Place>
    var outbox: seq<Key>
    var appended: set<nat>
    var gaveUp: set<(nat, Place)>

    constructor ()
      ensures Contents() == Db([], [], {}, [], {}, {})
    {
      threads, messages, failures, outbox, appended, gaveUp := [], [], {}, [], {}, {};
    }

    function Contents(): Db
      reads this
    {
      Db(threads, messages, failures, outbox, appended, gaveUp)
    }

    /** Rolls a transaction back, or lets others commit. */
    method Become(db: Db)
      modifies this
      ensures Contents() == db
    {
      threads, messages, failures, outbox, appended, gaveUp :=
        db.threads, db.messages, db.failures, db.outbox, db.appended, db.gaveUp;
    }

    method MarkReady(domain: nat, m: nat) returns (state: Option<MessageState>)
      modifies this
      ensures (Contents(), state) == Messages.MarkReady(old(Contents()), domain, m)
      ensures Contents() == old(Contents()).(messages := messages)
      ensures state.None? <==> !(m < |old(messages)| && old(messages)[m].scope.domain == domain)
      ensures state.None? ==> messages == old(messages)
      ensures state.Some? ==> messages == old(messages)[m := old(messages)[m].(state := state.value)]
      ensures state.Some? ==>
                var row := old(messages)[m];
                var left := exists i :: 0 <= i < |row.parts| && row.parts[i].PendingPart?;
                state.value == if row.state.Processing? && !left then Ready else row.state
    {
      if !IsMessage(Contents(), domain, m) {
        return None;
      }
      if messages[m].state.Processing? && NoPending(messages[m]) {
        messages := messages[m := messages[m].(state := Ready)];
      }
      return Some(messages[m].state);
    }

    method MarkFailed(domain: nat, m: nat) returns (failed: bool)
      modifies this
      ensures (Contents(), failed) == Messages.MarkFailed(old(Contents()), domain, m)
      ensures Contents() == old(Contents()).(messages := messages)
      ensures failed <==>
                m < |old(messages)| && old(messages)[m].scope.domain == domain && old(messages)[m].state.Processing?
      ensures messages == if failed then old(messages)[m := old(messages)[m].(state := Failed)] else old(messages)
    {
      failed := IsMessage(Contents(), domain, m) && messages[m].state.Processing?;
      if failed {
        messages := messages[m := messages[m].(state := Failed)];
      }
    }

    method IncrementAttempts(domain: nat, m: nat) returns (attempts: Option<nat>)
      modifies this
      ensures (Contents(), attempts) == Messages.IncrementAttempts(old(Contents()), domain, m)
      ensures Contents() == old(Contents()).(messages := messages)
      ensures attempts.Some? <==>
                m < |old(messages)| && old(messages)[m].scope.domain == domain && old(messages)[m].state.Processing?
      ensures attempts.Some? ==> attempts.value == old(messages)[m].attempts + 1
      ensures messages == if attempts.Some? then old(messages)[m := old(messages)[m].(attempts := attempts.value)]
                          else old(messages)
    {
      if !IsMessage(Contents(), domain, m) || !messages[m].state.Processing? {
        return None;
      }
      messages := messages[m := messages[m].(attempts := messages[m].attempts + 1)];
      return Some(messages[m].attempts);
    }

    method MarkStored(domain: nat, m: nat, position: nat, file: nat)
      modifies this
      ensures Contents() == Messages.MarkStored(old(Contents()), domain, m, position, file)
      ensures Contents() == old(Contents()).(messages := messages)
      ensures m < |old(messages)| && old(messages)[m].scope.domain == domain ==>
                var parts := old(messages)[m].parts;
                var waits := position < |parts| && parts[position].PendingPart?;
                messages == old(messages)[m := old(messages)[m].(parts :=
                  if waits then parts[position := StoredPart(file)] else parts)]
      ensures !(m < |old(messages)| && old(messages)[m].scope.domain == domain) ==> messages == old(messages)
    {
      if IsMessage(Contents(), domain, m) && position < |messages[m].parts|
        && messages[m].parts[position].PendingPart? {
        messages := messages[m := messages[m].(parts := messages[m].parts[position := StoredPart(file)])];
      }
    }

    method ResolveContact(domain: nat, t: nat, r: Resolution) returns (applied: bool)
      modifies this
      ensures Contents() == Messages.ResolveContact(old(Contents()), domain, t, r)
      ensures Contents() == old(Contents()).(threads := threads)
      ensures applied <==>
                t < |old(threads)| && old(threads)[t].scope.domain == domain && Effects.Undecided(old(threads)[t])
      ensures threads == if applied then old(threads)[t := old(threads)[t].(resolution := r)] else old(threads)
    {
      applied := IsThread(Contents(), domain, t) && threads[t].kind.RegularThread?
                 && (threads[t].resolution.Pending? || threads[t].resolution.Unavailable?);
      if applied {
        threads := threads[t := threads[t].(resolution := r)];
      }
    }

    method SetContactManually(domain: nat, t: nat, contact: Option<nat>) returns (applied: bool)
      modifies this
      ensures Contents() == Messages.SetContactManually(old(Contents()), domain, t, contact)
      ensures Contents() == old(Contents()).(threads := threads)
      ensures applied <==>
                t < |old(threads)| && old(threads)[t].scope.domain == domain && old(threads)[t].kind.RegularThread?
      ensures applied ==>
                threads == old(threads)[t := old(threads)[t].(
                  resolution := if contact.None? then Unlinked else Resolved(contact.value))]
      ensures !applied ==> threads == old(threads)
    {
      applied := IsThread(Contents(), domain, t) && threads[t].kind.RegularThread?;
      if applied {
        threads := threads[t := threads[t].(resolution := if contact.Some? then Resolved(contact.value) else Unlinked)];
      }
    }

    method AdvanceLastMessage(scope: Scope, t: nat, at: Time)
      modifies this
      ensures Contents() == Messages.AdvanceLastMessage(old(Contents()), scope, t, at)
      ensures Contents() == old(Contents()).(threads := threads)
      ensures t < |old(threads)| && old(threads)[t].scope == scope ==>
                && |threads| == |old(threads)|
                && threads == old(threads)[t := old(threads)[t].(lastMessageAt := threads[t].lastMessageAt)]
                && Effects.LaterOf(old(threads)[t].lastMessageAt, at, threads[t].lastMessageAt)
      ensures !(t < |old(threads)| && old(threads)[t].scope == scope) ==> threads == old(threads)
    {
      if t < |threads| && threads[t].scope == scope
        && (threads[t].lastMessageAt.None? || threads[t].lastMessageAt.value < at) {
        threads := threads[t := threads[t].(lastMessageAt := Some(at))];
      }
    }

    method Record(place: Place)
      modifies this
      ensures Contents() == Messages.Record(old(Contents()), place)
      ensures Contents() == old(Contents()).(failures := old(failures) + {place})
    {
      failures := failures + {place};
    }

    method WriteEvent(domain: nat, m: nat) returns (ok: bool)
      modifies this
      ensures ok == Messages.WriteEvent(old(Contents()), domain, m).Some?
      ensures Contents() == if ok then Messages.WriteEvent(old(Contents()), domain, m).value else old(Contents())
      ensures Contents() == old(Contents()).(outbox := outbox, appended := appended)
      ensures ok <==>
                && m < |messages| && messages[m].scope.domain == domain
                && (Effects.StartsFlow(old(Contents()), m) ==> messages[m].state.Ready? && messages[m].describable)
      ensures Effects.Announces(old(Contents()), Contents(), domain, m, ok && Effects.StartsFlow(old(Contents()), m))
    {
      if !IsMessage(Contents(), domain, m) {
        return false;
      }
      if !Eligible(threads, messages[m]) {
        return true;
      }
      if !messages[m].state.Ready? || Undescribable(threads, messages[m]) {
        return false;
      }
      if Key(domain, m) !in outbox {
        outbox := outbox + [Key(domain, m)];
        appended := appended + {m};
      }
      return true;
    }

    // -------------------------------------------------------------------------
    // Transactions.

    /** The thread of the email, opened if there is none. */
    method PlaceInThread(p: Parsed) returns (t: nat)
      modifies this
      ensures Contents() == old(Contents()).(threads := Placed(old(Contents()), p).0)
      ensures t == Placed(old(Contents()), p).1
    {
      var l := LookupOf(p);
      var ids := KeepLastOccurrence(Ancestry(p));
      var found := LocateByMessageIds(Contents(), l, ids);
      if found.None? {
        found := LocateByInReplyTo(Contents(), l, p.inReplyTo);
      }
      if found.None? && !p.generated {
        found := LocateByInReplyTo(Contents(), l, p.messageId);
      }
      if found.Some? {
        return found.value;
      }
      t := |threads|;
      threads := threads + [NewThread(p)];
    }

    method Persist(p: Parsed) returns (ok: bool, unfinished: Option<Stored>)
      modifies this
      ensures Handled(Inbound.Persist(old(Contents()), p), ok, unfinished, Contents())
      ensures ok ==> Effects.Stores(old(Contents()), Contents(), p)
      ensures ok ==> (unfinished.Some? <==> messages[|old(messages)|].state.Processing?)
      ensures ok && unfinished.Some? ==> Effects.Snapshot(Contents(), unfinished.value, |old(messages)|)
    {
      Effects.PersistStores(Contents(), p);
      var t := PlaceInThread(p);
      var manifest := BuildAttachments(p.parts);
      var pending := HasPendingAttachments(manifest);
      var left := Stored(|messages|, t, threads[t].kind, threads[t].resolution);
      var state := if pending || NeedsContact(left) then Processing else Ready;
      assert state == FirstState(p, threads[t]) by {
        assert pending ==> exists i :: 0 <= i < |p.parts| && !p.parts[i].skipped;
        assert forall i :: 0 <= i < |p.parts| ==> (manifest[i].PendingPart? <==> !p.parts[i].skipped);
      }
      var row := BuildMessage(p, t, state);
      if Conflicts(messages, row) {
        return false, None;
      }
      messages := messages + [row];
      if state.Processing? {
        return true, Some(left);
      }
      AdvanceLastMessage(p.place.scope, t, p.receivedAt);
      ok := WriteEvent(p.place.scope.domain, left.id);
      unfinished := None;
    }

    method Handle(p: Parsed) returns (ok: bool, unfinished: Option<Stored>)
      modifies this
      ensures Handled(Inbound.Handle(old(Contents()), p), ok, unfinished, Contents())
      ensures !ok ==> Contents() == old(Contents())
      ensures ok && LocateStored(old(Contents()), p).None? ==> Effects.Stores(old(Contents()), Contents(), p)
      ensures LocateStored(old(Contents()), p).Some? ==> ok && Contents() == old(Contents())
      ensures ok ==>
                var found := LocateStored(old(Contents()), p);
                var m := if found.Some? then found.value else |old(messages)|;
                && m < |messages| && (unfinished.Some? <==> messages[m].state.Processing?)
                && (unfinished.Some? ==> Effects.Snapshot(Contents(), unfinished.value, m))
    {
      var before := Contents();
      Effects.HandleStores(before, p);
      var stored := LocateStored(before, p);
      if stored.Some? {
        var row := messages[stored.value];
        if row.state.Processing? {
          return true, Some(Stored(stored.value, row.thread, threads[row.thread].kind, threads[row.thread].resolution));
        }
        return true, None;
      }
      ok, unfinished := Persist(p);
      if !ok {
        Become(before);
      }
    }

    method MakeReady(p: Parsed, s: Stored, r: Option<Resolution>) returns (ok: bool)
      modifies this
      ensures ok == Inbound.Complete(old(Contents()), p, s, r).Some?
      ensures Contents() == if ok then Inbound.Complete(old(Contents()), p, s, r).value else old(Contents())
      ensures ok && StoredKept(old(Contents()), p, s) ==> Effects.Completes(old(Contents()), Contents(), p, s, r)
    {
      var before := Contents();
      if StoredKept(before, p, s) {
        Effects.CompleteWrites(before, p, s, r);
      }
      if r.Some? {
        var applied := ResolveContact(p.place.scope.domain, s.thread, r.value);
      }
      var state := MarkReady(p.place.scope.domain, s.id);
      if state == Some(Processing) {
        Become(before);
        return false;
      }
      if state != Some(Ready) {
        return true;
      }
      AdvanceLastMessage(p.place.scope, s.thread, p.receivedAt);
      ok := WriteEvent(p.place.scope.domain, s.id);
      if !ok {
        Become(before);
      }
    }

    method GiveUp(p: Parsed, s: Stored)
      modifies this
      ensures Contents() == Inbound.GiveUp(old(Contents()), p, s)
      ensures StoredKept(old(Contents()), p, s) ==> Effects.GivesUp(old(Contents()), Contents(), p, s)
    {
      var failed := MarkFailed(p.place.scope.domain, s.id);
      if failed {
        Record(p.place);
        gaveUp := gaveUp + {(s.id, p.place)};
      }
    }

    /** Counts a failed upload, and fails the message with the last one; an error is a rollback. */
    method Spend(p: Parsed, s: Stored, maxAttempts: nat) returns (ok: bool, exhausted: bool)
      modifies this
      ensures ok == Inbound.Spend(old(Contents()), p, s, maxAttempts).Some?
      ensures ok ==> (Contents(), exhausted) == Inbound.Spend(old(Contents()), p, s, maxAttempts).value
      ensures !ok ==> Contents() == old(Contents()) && !exhausted
      ensures StoredKept(old(Contents()), p, s) ==> (ok <==> old(messages)[s.id].state.Processing?)
      ensures ok && StoredKept(old(Contents()), p, s) ==>
                Effects.Spends(old(Contents()), Contents(), p, s, maxAttempts, exhausted)
    {
      if StoredKept(Contents(), p, s) {
        Effects.SpendWrites(Contents(), p, s, maxAttempts);
      }
      var attempts := IncrementAttempts(p.place.scope.domain, s.id);
      if attempts.None? {
        return false, false;
      }
      if attempts.value < maxAttempts {
        return true, false;
      }
      GiveUp(p, s);
      return true, true;
    }
  }

  ghost predicate Handled(h: Handling, ok: bool, unfinished: Option<Stored>, db: Db) {
    match h
    case Refused => !ok
    case Confirmed(b) => ok && unfinished.None? && db == b
    case Unfinished(b, s) => ok && unfinished == Some(s) && db == b
  }

  // ---------------------------------------------------------------------------
  // One delivery from its arrival to its return.

  /** Any run in which the worker does nothing leaves it where it stands. */
  lemma {:induction false} OthersMayRun(s: Runs.State, run: seq<Runs.Action>, id: nat, maxAttempts: nat)
    requires Runs.Possible(s, run, maxAttempts)
    requires forall i :: 0 <= i < |run| && (run[i].Deliver? || run[i].Work? || run[i].Stop?) ==> run[i].w != id
    ensures Same(s, Runs.After(s, run, maxAttempts), id)
    decreases run
  {
    if run != [] {
      assert Same(s, Runs.Next(s, run[0], maxAttempts), id);
      OthersMayRun(Runs.Next(s, run[0], maxAttempts), run[1..], id, maxAttempts);
    }
  }

  predicate Same(a: Runs.State, b: Runs.State, id: nat) {
    (id in a.workers <==> id in b.workers) && (id in a.workers ==> b.workers[id] == a.workers[id])
  }

  class Worker {
    const id: nat
    const tables: Tables
    const env: Outside
    const maxAttempts: nat
    var calls: nat
    /** The state of the interleaving the worker takes part in. */
    ghost var world: Runs.State

    ghost predicate Valid()
      reads this, tables
    {
      && maxAttempts > 0 && tables.Contents() == world.db && Runs.Reachable(world, maxAttempts)
      && forall place :: env.parser(place).Some? ==> env.parser(place).value.place == place
    }

    ghost predicate At(f: Runs.Phase)
      reads this
    {
      id in world.workers && world.workers[id] == f
    }

    /** The worker has returned: nil only if the delivery is confirmed. */
    ghost predicate Returned(ok: bool, c: Runs.Confirmation)
      reads this
    {
      id !in world.workers && (ok ==> c in world.confirmed)
    }

    constructor (id: nat, tables: Tables, env: Outside, maxAttempts: nat, ghost world: Runs.State)
      requires maxAttempts > 0 && tables.Contents() == world.db && Runs.Reachable(world, maxAttempts)
      requires forall place :: env.parser(place).Some? ==> env.parser(place).value.place == place
      ensures Valid() && this.id == id && this.tables == tables && this.env == env && this.world == world
    {
      this.id, this.tables, this.env, this.maxAttempts, this.world := id, tables, env, maxAttempts, world;
      calls := 0;
    }

    /** Whether the next call fails: the worker is stopped, it has lost the profile, or the
        database reports an error. */
    method Ask() returns (bad: bool)
      modifies this`calls
      ensures Calm(env) ==> !bad
    {
      bad := env.fails(calls);
      calls := calls + 1;
    }

    /** Anything the others may do; nothing more is known to the caller. */
    method OthersRun()
      requires Valid()
      modifies this`world, tables
      ensures Valid() && Runs.Leads(old(world), world, maxAttempts) && Same(old(world), world, id)
      ensures env.quiet ==> world.db == old(world.db)
    {
      Runs.LeadsNowhere(world, maxAttempts);
    }

    /** The step of the interleaving that goes with a step of this worker. */
    ghost method Step(a: Runs.Action)
      requires Runs.Enabled(world, a, maxAttempts) && Runs.Reachable(world, maxAttempts)
      modifies this`world
      ensures world == Runs.Next(old(world), a, maxAttempts)
      ensures Runs.Leads(old(world), world, maxAttempts) && Runs.Reachable(world, maxAttempts)
    {
      Runs.LeadsOne(world, a, maxAttempts);
      world := Runs.Next(world, a, maxAttempts);
      Runs.LeadsOn(Runs.EMPTY, old(world), world, maxAttempts);
    }

    /** An error ends the delivery; whatever was committed stays. */
    method Quit()
      requires Valid() && id in world.workers
      modifies this`world
      ensures Valid() && Runs.Leads(old(world), world, maxAttempts) && id !in world.workers
      ensures world.db == old(world.db)
    {
      Step(Runs.Stop(id));
    }

    /** fail: nil once the message has failed, or was finished by another. */
    method Fail(p: Parsed, s: Stored) returns (ok: bool)
      requires Valid() && At(Runs.Failing(p, s))
      modifies this`world, this`calls, tables
      ensures Valid() && Runs.Leads(old(world), world, maxAttempts)
      ensures Returned(ok, Runs.Confirmation(p.place, Some(p)))
      ensures Calm(env) ==> ok && s.id < |old(world.db.messages)| && Effects.GivesUp(old(world.db), world.db, p, s)
    {
      OthersRun();
      ghost var before := world;
      Runs.PhaseReachable(world, id, maxAttempts);
      var interrupted := Ask();
      if interrupted {
        Quit();
      } else {
        tables.GiveUp(p, s);
        Step(Runs.Work(id, Runs.Proceeds));
      }
      Runs.LeadsOn(old(world), before, world, maxAttempts);
      ok := !interrupted;
    }

    /** A failed upload that is counted: nil if it was the last one allowed. */
    method CountFailure(p: Parsed, s: Stored) returns (ok: bool)
      requires Valid() && At(Runs.Spending(p, s))
      modifies this`world, this`calls, tables
      ensures Valid() && Runs.Leads(old(world), world, maxAttempts)
      ensures Returned(ok, Runs.Confirmation(p.place, Some(p)))
      ensures s.id < |old(world.db.messages)|
      ensures Calm(env) && old(world.db.messages)[s.id].state.Processing? ==>
                Effects.Spends(old(world.db), world.db, p, s, maxAttempts, ok)
    {
      Runs.PhaseReachable(world, id, maxAttempts);
      OthersRun();
      ghost var before := world;
      Runs.PhaseReachable(world, id, maxAttempts);
      var interrupted := Ask();
      var committed, exhausted := false, false;
      if !interrupted {
        committed, exhausted := tables.Spend(p, s, maxAttempts);
      }
      if committed {
        Step(Runs.Work(id, Runs.Proceeds));
      } else {
        Quit();
      }
      Runs.LeadsOn(old(world), before, world, maxAttempts);
      ok := exhausted;
    }

    /** uploadFailed: nothing is counted for an interruption, a rejected file is final, and
        every other failure is counted. */
    method UploadFailed(p: Parsed, s: Stored, ghost parts: seq<PartState>, ghost position: nat, rejected: bool)
      returns (ok: bool, interrupted: bool)
      requires Valid() && At(Runs.Uploading(p, s, parts, position))
      requires position < |parts| && parts[position].PendingPart? && Runs.HasContent(p, position)
      modifies this`world, this`calls, tables
      ensures Valid() && Runs.Leads(old(world), world, maxAttempts)
      ensures Returned(ok, Runs.Confirmation(p.place, Some(p)))
      ensures interrupted ==> !ok && world.db == old(world.db)
      ensures s.id < |old(world.db.messages)|
      ensures Calm(env) && rejected ==> ok && Effects.GivesUp(old(world.db), world.db, p, s)
      ensures Calm(env) && !rejected && old(world.db.messages)[s.id].state.Processing? ==>
                Effects.Spends(old(world.db), world.db, p, s, maxAttempts, ok)
    {
      Runs.PhaseReachable(world, id, maxAttempts);
      ok := false;
      interrupted := Ask();
      if interrupted {
        Quit();
        return;
      }
      Step(Runs.Work(id, if rejected then Runs.Rejects else Runs.Fails));
      ghost var before := world;
      if rejected {
        ok := Fail(p, s);
      } else {
        ok := CountFailure(p, s);
      }
      Runs.LeadsOn(old(world), before, world, maxAttempts);
    }

    /** One pending part; the loop goes on only after the part was uploaded. */
    method UploadPart(p: Parsed, s: Stored, ghost parts: seq<PartState>, position: nat) returns (goOn: bool, ok: bool)
      requires Valid() && At(Runs.Uploading(p, s, parts, position))
      requires position < |parts| && parts[position].PendingPart?
      modifies this`world, this`calls, tables
      ensures Valid() && Runs.Leads(old(world), world, maxAttempts)
      ensures goOn ==> !ok && At(Runs.Uploading(p, s, parts, position + 1))
      ensures !goOn ==> Returned(ok, Runs.Confirmation(p.place, Some(p)))
      ensures s.id < |old(world.db.messages)|
      ensures Calm(env) ==> (goOn <==> Uploadable(env, p, parts, position))
      ensures Calm(env) && goOn ==> PartStored(old(world.db), world.db, s.id, position, env.storage(position).file)
      ensures Calm(env) && !goOn && old(world.db.messages)[s.id].state.Processing? ==>
                Ends(env, p, s, position, maxAttempts, old(world.db), world.db, ok)
    {
      Runs.PhaseReachable(world, id, maxAttempts);
      goOn, ok := false, false;
      var interrupted := Ask();
      if interrupted {
        Quit();
        return;
      }
      if !Runs.HasContent(p, position) {
        Step(Runs.Work(id, Runs.Proceeds));
        ghost var before := world;
        ok := Fail(p, s);
        Runs.LeadsOn(old(world), before, world, maxAttempts);
        return;
      }
      OthersRun();
      ghost var called := world;
      var answer := env.storage(position);
      if answer.Stores? {
        goOn := Store(p, s, parts, position, answer.file);
      } else {
        var cancelled;
        ok, cancelled := UploadFailed(p, s, parts, position, answer.Rejects?);
      }
      Runs.LeadsOn(old(world), called, world, maxAttempts);
    }

    /** An upload that went well is recorded. */
    method Store(p: Parsed, s: Stored, ghost parts: seq<PartState>, position: nat, file: nat) returns (goOn: bool)
      requires Valid() && At(Runs.Uploading(p, s, parts, position))
      requires position < |parts| && parts[position].PendingPart? && Runs.HasContent(p, position)
      modifies this`world, this`calls, tables
      ensures Valid() && Runs.Leads(old(world), world, maxAttempts)
      ensures if goOn then At(Runs.Uploading(p, s, parts, position + 1)) else id !in world.workers
      ensures Calm(env) ==> goOn && PartStored(old(world.db), world.db, s.id, position, file)
    {
      Step(Runs.Work(id, Runs.Stores(file)));
      ghost var uploaded := world;
      goOn := MarkStored(p, s, parts, position, file);
      Runs.LeadsOn(old(world), uploaded, world, maxAttempts);
    }

    method MarkStored(p: Parsed, s: Stored, ghost parts: seq<PartState>, position: nat, file: nat) returns (goOn: bool)
      requires Valid() && At(Runs.Uploaded(p, s, parts, position, file))
      modifies this`world, this`calls, tables
      ensures Valid() && Runs.Leads(old(world), world, maxAttempts)
      ensures if goOn then At(Runs.Uploading(p, s, parts, position + 1)) else id !in world.workers
      ensures Calm(env) ==> goOn && PartStored(old(world.db), world.db, s.id, position, file)
    {
      OthersRun();
      ghost var before := world;
      Runs.PhaseReachable(world, id, maxAttempts);
      var failed := Ask();
      goOn := !failed;
      if goOn {
        tables.MarkStored(p.place.scope.domain, s.id, position, file);
        Step(Runs.Work(id, Runs.Proceeds));
      } else {
        Quit();
      }
      Runs.LeadsOn(old(world), before, world, maxAttempts);
    }

    /** resolveContact: an unreachable service is an answer, an interruption is not. */
    method FindContact(s: Stored) returns (ok: bool, r: Option<Resolution>)
      modifies this`calls
      ensures ok ==> Answers(s, r) && Resolves(env, s, r)
      ensures ok || NeedsContact(s)
      ensures Calm(env) ==> ok
    {
      if !NeedsContact(s) {
        return true, None;
      }
      var interrupted := Ask();
      if !env.hasSender && !interrupted {
        return true, Some(NotFound);
      }
      if env.search.None? {
        return !interrupted, Some(Unavailable);
      }
      var found := env.search.value;
      return !interrupted, Some(if found.Resolved? || found.Ambiguous? then found else NotFound);
    }

    ghost method SkipPart(p: Parsed, s: Stored, parts: seq<PartState>, position: nat)
      requires Valid() && At(Runs.Uploading(p, s, parts, position))
      requires position < |parts| && !parts[position].PendingPart?
      modifies this`world
      ensures Valid() && Runs.Leads(old(world), world, maxAttempts)
      ensures At(Runs.Uploading(p, s, parts, position + 1)) && world.db == old(world.db)
    {
      Step(Runs.Work(id, Runs.Proceeds));
    }

    /** One turn of the loop. */
    method NextPart(p: Parsed, s: Stored, parts: seq<PartState>, position: nat, ghost start: Runs.State)
      returns (goOn: bool, ok: bool)
      requires Valid() && position < |parts| && At(Runs.Uploading(p, s, parts, position))
      requires Runs.Leads(start, world, maxAttempts) && Loading(env, start.db, world.db, p, s, parts, position)
      modifies this`world, this`calls, tables
      ensures Valid() && Runs.Leads(start, world, maxAttempts)
      ensures goOn ==> !ok && At(Runs.Uploading(p, s, parts, position + 1))
      ensures goOn ==> Loading(env, start.db, world.db, p, s, parts, position + 1)
      ensures !goOn ==> Returned(ok, Runs.Confirmation(p.place, Some(p)))
      ensures !goOn ==> Loaded(env, maxAttempts, start.db, old(world.db), world.db, p, s, parts, position, false, ok)
    {
      ghost var before := world;
      if parts[position].PendingPart? {
        goOn, ok := UploadPart(p, s, parts, position);
      } else {
        SkipPart(p, s, parts, position);
        goOn, ok := true, false;
      }
      Runs.LeadsOn(start, before, world, maxAttempts);
      if goOn && Calm(env) && Manifested(start.db, s.id, parts) {
        FilledNext(env, start.db, before.db, world.db, s.id, position);
      }
    }

    /** The upload loop over the manifest as it was read. Undisturbed, it ends at the first
        part that cannot be uploaded. */
    method UploadAll(p: Parsed, s: Stored, parts: seq<PartState>)
      returns (goOn: bool, ok: bool, ghost n: nat, ghost filled: Db)
      requires Valid() && At(Runs.Uploading(p, s, parts, 0))
      modifies this`world, this`calls, tables
      ensures Valid() && Runs.Leads(old(world), world, maxAttempts)
      ensures goOn ==> At(Runs.Uploading(p, s, parts, |parts|))
      ensures !goOn ==> Returned(ok, Runs.Confirmation(p.place, Some(p)))
      ensures Loaded(env, maxAttempts, old(world.db), filled, world.db, p, s, parts, n, goOn, ok)
    {
      Runs.LeadsNowhere(world, maxAttempts);
      ghost var start := world;
      LoadingNothing(env, start.db, p, s, parts);
      goOn, ok, n, filled := Upload(p, s, parts, start);
      if goOn {
        LoadedAll(env, maxAttempts, start.db, filled, p, s, parts, ok);
      }
    }

    method Upload(p: Parsed, s: Stored, parts: seq<PartState>, ghost start: Runs.State)
      returns (goOn: bool, ok: bool, ghost n: nat, ghost filled: Db)
      requires Valid() && At(Runs.Uploading(p, s, parts, 0))
      requires Runs.Leads(start, world, maxAttempts) && Loading(env, start.db, world.db, p, s, parts, 0)
      modifies this`world, this`calls, tables
      ensures Valid() && Runs.Leads(start, world, maxAttempts)
      ensures goOn ==> At(Runs.Uploading(p, s, parts, |parts|)) && n == |parts| && filled == world.db
      ensures goOn ==> Loading(env, start.db, filled, p, s, parts, |parts|)
      ensures !goOn ==> Returned(ok, Runs.Confirmation(p.place, Some(p)))
      ensures !goOn ==> Loaded(env, maxAttempts, start.db, filled, world.db, p, s, parts, n, false, ok)
    {
      goOn, ok := true, false;
      for position := 0 to |parts|
        invariant Valid() && Runs.Leads(start, world, maxAttempts)
        invariant goOn && At(Runs.Uploading(p, s, parts, position))
        invariant Loading(env, start.db, world.db, p, s, parts, position)
      {
        n, filled := position, world.db;
        goOn, ok := NextPart(p, s, parts, position, start);
        if !goOn {
          return;
        }
      }
      n, filled := |parts|, world.db;
    }

    /** Complete: nil means that the message is finished, ready or failed. Undisturbed, the
        message is shown after its uploads, or given up, or has spent an attempt. */
    method Complete(p: Parsed, s: Stored) returns (ok: bool, ghost n: nat, ghost filled: Db)
      requires Valid() && At(Runs.Listing(p, s))
      modifies this`world, this`calls, tables
      ensures Valid() && Runs.Leads(old(world), world, maxAttempts)
      ensures Returned(ok, Runs.Confirmation(p.place, Some(p)))
      ensures Calm(env) ==> Completed(env, maxAttempts, old(world.db), filled, world.db, p, s, n, ok)
    {
      OthersRun();
      ghost var before := world;
      Runs.PhaseReachable(world, id, maxAttempts);
      var parts := tables.messages[s.id].parts;
      Step(Runs.Work(id, Runs.Proceeds));
      Runs.LeadsOn(old(world), before, world, maxAttempts);
      before := world;
      var goOn;
      goOn, ok, n, filled := UploadAll(p, s, parts);
      Runs.LeadsOn(old(world), before, world, maxAttempts);
      if goOn {
        before := world;
        if Calm(env) && world.db == filled && Manifested(old(world.db), s.id, parts) {
          FilledIsComplete(env, p, old(world.db), filled, s.id);
        }
        ok := Finish(p, s, parts);
        Runs.LeadsOn(old(world), before, world, maxAttempts);
      }
    }

    method Finish(p: Parsed, s: Stored, ghost parts: seq<PartState>) returns (ok: bool)
      requires Valid() && At(Runs.Uploading(p, s, parts, |parts|))
      modifies this`world, this`calls, tables
      ensures Valid() && Runs.Leads(old(world), world, maxAttempts)
      ensures Returned(ok, Runs.Confirmation(p.place, Some(p)))
      ensures s.id < |old(world.db.messages)| && s.thread < |old(world.db.threads)|
      ensures Calm(env) && AllFilled(old(world.db), s.id) ==> Shows(env, p, s, old(world.db), world.db, ok)
    {
      Runs.PhaseReachable(world, id, maxAttempts);
      Step(Runs.Work(id, Runs.Proceeds));
      ghost var before := world;
      var found, r := FindContact(s);
      if found {
        Step(Runs.Work(id, Runs.Finds(r)));
        Runs.LeadsOn(old(world), before, world, maxAttempts);
        before := world;
        ok := MarkReady(p, s, r);
      } else {
        Quit();
        ok := false;
      }
      Runs.LeadsOn(old(world), before, world, maxAttempts);
    }

    lemma WouldCommit(p: Parsed, s: Stored, r: Option<Resolution>)
      requires Valid() && At(Runs.Completing(p, s, r))
      ensures s.id < |world.db.messages|
      ensures var row := world.db.messages[s.id];
              Inbound.Complete(world.db, p, s, r).None? <==>
                row.state.Processing? && (!NoPending(row) || Undescribable(world.db.threads, row))
    {
      Runs.ReachableKept(world, maxAttempts);
      assert Runs.PhaseKept(world.db, world.workers[id]);
      CompleteCommits(world.db, p, s, r, maxAttempts);
    }

    method MarkReady(p: Parsed, s: Stored, r: Option<Resolution>) returns (ok: bool)
      requires Valid() && At(Runs.Completing(p, s, r))
      modifies this`world, this`calls, tables
      ensures Valid() && Runs.Leads(old(world), world, maxAttempts)
      ensures Returned(ok, Runs.Confirmation(p.place, Some(p)))
      ensures s.id < |old(world.db.messages)| && s.thread < |old(world.db.threads)|
      ensures Calm(env) && AllFilled(old(world.db), s.id) ==>
                && (ok <==> !(Effects.StartsFlow(old(world.db), s.id) && !old(world.db.messages)[s.id].describable))
                && (!ok ==> world.db == old(world.db))
                && (ok ==> Effects.Completes(old(world.db), world.db, p, s, r))
    {
      Runs.PhaseReachable(world, id, maxAttempts);
      OthersRun();
      ghost var before := world;
      Runs.PhaseReachable(world, id, maxAttempts);
      WouldCommit(p, s, r);
      var interrupted := Ask();
      ok := false;
      if !interrupted {
        ok := tables.MakeReady(p, s, r);
      }
      if ok {
        Step(Runs.Work(id, Runs.Proceeds));
      } else {
        Quit();
      }
      Runs.LeadsOn(old(world), before, world, maxAttempts);
    }

    /** The record of an email that is not parsed. */
    method Quarantine(place: Place) returns (ok: bool)
      requires Valid() && At(Runs.Broken(place))
      modifies this`world, this`calls, tables
      ensures Valid() && Runs.Leads(old(world), world, maxAttempts) && Returned(ok, Runs.Confirmation(place, None))
      ensures Calm(env) ==> ok && world.db == old(world.db).(failures := old(world.db.failures) + {place})
    {
      OthersRun();
      ghost var before := world;
      var failed := Ask();
      ok := !failed;
      if ok {
        tables.Record(place);
        Step(Runs.Work(id, Runs.Proceeds));
      } else {
        Quit();
      }
      Runs.LeadsOn(old(world), before, world, maxAttempts);
    }

    /** The first transaction. */
    method StoreEmail(p: Parsed) returns (ok: bool, unfinished: Option<Stored>, ghost first: Handling)
      requires Valid() && At(Runs.Read(p))
      modifies this`world, this`calls, tables
      ensures Valid() && Runs.Leads(old(world), world, maxAttempts)
      ensures if ok && unfinished.Some? then At(Runs.Listing(p, unfinished.value))
              else Returned(ok, Runs.Confirmation(p.place, Some(p)))
      ensures Calm(env) ==> first == Inbound.Handle(old(world.db), p) && Handled(first, ok, unfinished, world.db)
      ensures Calm(env) && !ok ==> world.db == old(world.db)
    {
      OthersRun();
      ghost var before := world;
      first := Inbound.Handle(world.db, p);
      var interrupted := Ask();
      ok, unfinished := false, None;
      if !interrupted {
        ok, unfinished := tables.Handle(p);
      }
      if ok {
        Step(Runs.Work(id, Runs.Proceeds));
      } else {
        Quit();
      }
      Runs.LeadsOn(old(world), before, world, maxAttempts);
    }

    /** PersistenceHandler.Handle. */
    method Persist(p: Parsed) returns (ok: bool, ghost n: nat, ghost filled: Db)
      requires Valid() && At(Runs.Read(p))
      modifies this`world, this`calls, tables
      ensures Valid() && Runs.Leads(old(world), world, maxAttempts)
      ensures Returned(ok, Runs.Confirmation(p.place, Some(p)))
      ensures Calm(env) ==>
                Persisted(env, maxAttempts, old(world.db), Inbound.Handle(old(world.db), p), filled, world.db, p, n, ok)
    {
      var unfinished;
      ghost var first;
      ok, unfinished, first := StoreEmail(p);
      n, filled := 0, world.db;
      if ok && unfinished.Some? {
        ghost var before := world;
        ok, n, filled := Complete(p, unfinished.value);
        Runs.LeadsOn(old(world), before, world, maxAttempts);
      }
    }

    /** The whole pipeline, from quarantine to completion, is a run of the interleaving; and
        when it returns nil, the delivery is settled, whatever other workers did meanwhile. */
    method HandleMessage(place: Place, tooLarge: bool)
      returns (ok: bool, ghost told: Runs.Confirmation, ghost n: nat, ghost filled: Db)
      requires Valid() && id !in world.workers
      modifies this`world, this`calls, tables
      ensures Valid() && Runs.Leads(old(world), world, maxAttempts) && Returned(ok, told)
      ensures told == Runs.Confirmation(place, if tooLarge then None else env.parser(place))
      ensures ok ==> Runs.Settled(tables.Contents(), told)
      ensures Calm(env) && told.parsed.None? ==>
                && (ok <==> tooLarge || env.permanent)
                && var db := old(world.db);
                   world.db == if ok then db.(failures := db.failures + {place}) else db
      ensures Calm(env) && told.parsed.Some? ==>
                var p := told.parsed.value;
                Persisted(env, maxAttempts, old(world.db), Inbound.Handle(old(world.db), p), filled, world.db, p, n, ok)
    {
      n, filled := 0, world.db;
      Step(Runs.Deliver(id, place, tooLarge));
      ghost var before := world;
      var parsed := if tooLarge then None else env.parser(place);
      told := Runs.Confirmation(place, parsed);
      if parsed.Some? {
        Step(Runs.Work(id, Runs.Parses(parsed.value)));
        Runs.LeadsOn(old(world), before, world, maxAttempts);
        before := world;
        ok, n, filled := Persist(parsed.value);
      } else if tooLarge || env.permanent {
        Step(Runs.Work(id, Runs.Breaks));
        Runs.LeadsOn(old(world), before, world, maxAttempts);
        before := world;
        ok := Quarantine(place);
      } else {
        Quit();
        ok := false;
      }
      Runs.LeadsOn(old(world), before, world, maxAttempts);
      if ok {
        Runs.SettledReachable(world, told, maxAttempts);
      }
    }
  }
}
