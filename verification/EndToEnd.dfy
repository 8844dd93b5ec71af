/** Polling and handling together: the polls of one mailbox run beside any number of
    handlers, and confirm what the handlers have confirmed. */
module EndToEnd {
  import opened Options
  import opened Search
  import PollingRuns
  import Messages
  import Inbound
  import InboundRuns

  datatype State = State(polling: PollingRuns.State, inbound: InboundRuns.State)

  datatype Action = Poll(poll: PollingRuns.Action) | Work(work: InboundRuns.Action)

  /** The mailbox of one profile. */
  datatype Source = Source(scope: Messages.Scope, mailbox: string)

  function PlaceOf(source: Source, v: Uid, u: Uid): Messages.Place {
    Messages.Place(source.scope, source.mailbox, v, u)
  }

  /** The handler has returned nil for a message of the mailbox. */
  ghost predicate Accepted(s: InboundRuns.State, place: Messages.Place) {
    exists c :: c in s.confirmed && c.place == place
  }

  /** What a poll takes as confirmed was accepted by the handler. */
  ghost predicate Enabled(s: State, a: Action, source: Source, maxAttempts: nat) {
    match a
    case Work(work) => InboundRuns.Enabled(s.inbound, work, maxAttempts)
    case Poll(poll) =>
      && PollingRuns.Enabled(s.polling, poll)
      && (poll.Confirms? ==> forall u :: u in poll.uids ==> Accepted(s.inbound, PlaceOf(source, poll.uidValidity, u)))
      && (poll.PollEnds? ==> forall u :: u in poll.uids ==>
           Accepted(s.inbound, PlaceOf(source, poll.begin.uidValidity, u)))
  }

  ghost function Next(s: State, a: Action, source: Source, maxAttempts: nat): State
    requires Enabled(s, a, source, maxAttempts)
  {
    match a
    case Work(work) => s.(inbound := InboundRuns.Next(s.inbound, work, maxAttempts))
    case Poll(poll) => s.(polling := PollingRuns.Next(s.polling, poll))
  }

  ghost predicate Possible(s: State, run: seq<Action>, source: Source, maxAttempts: nat)
    decreases run
  {
    run == [] || (Enabled(s, run[0], source, maxAttempts)
      && Possible(Next(s, run[0], source, maxAttempts), run[1..], source, maxAttempts))
  }

  ghost function After(s: State, run: seq<Action>, source: Source, maxAttempts: nat): State
    requires Possible(s, run, source, maxAttempts)
    decreases run
  {
    if run == [] then s else After(Next(s, run[0], source, maxAttempts), run[1..], source, maxAttempts)
  }

  ghost predicate Initial(s: State) {
    PollingRuns.Initial(s.polling) && s.polling.done == {} && s.inbound == InboundRuns.EMPTY
  }

  ghost predicate Invariant(s: State, source: Source, maxAttempts: nat) {
    && PollingRuns.Kept(s.polling) && InboundRuns.Invariant(s.inbound, maxAttempts)
    && forall v, u :: (v, u) in s.polling.done ==> Accepted(s.inbound, PlaceOf(source, v, u))
  }

  lemma AcceptedForever(s: InboundRuns.State, a: InboundRuns.Action, maxAttempts: nat, place: Messages.Place)
    requires InboundRuns.Enabled(s, a, maxAttempts) && Accepted(s, place)
    ensures Accepted(InboundRuns.Next(s, a, maxAttempts), place)
  {
    var c :| c in s.confirmed && c.place == place;
    assert c in InboundRuns.Next(s, a, maxAttempts).confirmed;
  }

  lemma StepKept(s: State, a: Action, source: Source, maxAttempts: nat)
    requires Invariant(s, source, maxAttempts) && Enabled(s, a, source, maxAttempts) && maxAttempts > 0
    ensures Invariant(Next(s, a, source, maxAttempts), source, maxAttempts)
  {
    match a
    case Work(work) =>
      InboundRuns.StepKept(s.inbound, work, maxAttempts);
      forall v, u | (v, u) in s.polling.done
        ensures Accepted(InboundRuns.Next(s.inbound, work, maxAttempts), PlaceOf(source, v, u))
      {
        AcceptedForever(s.inbound, work, maxAttempts, PlaceOf(source, v, u));
      }
    case Poll(poll) =>
      PollingRuns.StepKept(s.polling, poll);
  }

  lemma {:induction false} RunKept(s: State, run: seq<Action>, source: Source, maxAttempts: nat)
    requires Invariant(s, source, maxAttempts) && Possible(s, run, source, maxAttempts) && maxAttempts > 0
    ensures Invariant(After(s, run, source, maxAttempts), source, maxAttempts)
    decreases run
  {
    if run != [] {
      StepKept(s, run[0], source, maxAttempts);
      RunKept(Next(s, run[0], source, maxAttempts), run[1..], source, maxAttempts);
    }
  }

  /** The message of the mailbox at a position is settled: a ready or failed message shares
      one of its identities, or a quarantine record was committed. */
  ghost predicate Settled(s: InboundRuns.State, place: Messages.Place) {
    || place in s.db.failures
    || exists p: Messages.Parsed :: p.place == place && Inbound.Finished(s.db, p)
                                    && InboundRuns.Confirmation(place, Some(p)) in s.confirmed
  }

  /** Cursor safety end to end: over any sequence of polls, handler steps, failures,
      expunges, reassignments and crashes, every message that is still in the mailbox and
      that a cursor answers for and has passed is settled. */
  lemma CursorSafety(s: State, run: seq<Action>, source: Source, maxAttempts: nat, e: PollingRuns.Entry, u: Uid)
    requires Initial(s) && Possible(s, run, source, maxAttempts) && maxAttempts > 0
    requires After(s, run, source, maxAttempts).polling.history != []
               && e in After(s, run, source, maxAttempts).polling.entries
    requires var w := PollingRuns.Current(After(s, run, source, maxAttempts).polling);
             && e.cursor.uidValidity == w.uidValidity && u in w.messages && u <= e.cursor.lastUid
             && PollingRuns.Owed(e.lineage, u, w.messages[u])
    ensures Settled(After(s, run, source, maxAttempts).inbound, PlaceOf(source, e.cursor.uidValidity, u))
  {
    RunKept(s, run, source, maxAttempts);
    var t := After(s, run, source, maxAttempts);
    PollingRuns.EntryNow(t.polling, e);
    var place := PlaceOf(source, e.cursor.uidValidity, u);
    assert Accepted(t.inbound, place);
    var c :| c in t.inbound.confirmed && c.place == place;
    assert InboundRuns.Settled(t.inbound.db, c);
    assert c == InboundRuns.Confirmation(place, c.parsed);
  }
}
