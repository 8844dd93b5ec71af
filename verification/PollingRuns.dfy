/** Any number of polls of one mailbox: they fail, overlap, start from stale cursors, and
    the mailbox changes under them. */
module PollingRuns {
  import opened Options
  import opened Search
  import Fetch
  import opened Polling

  /** What a cursor answers for: everything above base, and with a floor also what is not
      older than it. A cursor that began at the end of the mailbox has no floor; one that
      began with a recovery has its checkpoint as the floor and its last UID as the base. */
  datatype Lineage = Lineage(base: Uid, floor: Option<Time>)

  predicate Owed(l: Lineage, u: Uid, date: Time) {
    u > l.base || (l.floor.Some? && l.floor.value <= date)
  }

  /** A cursor some poll computed, when the mailbox was at history[at]. */
  datatype Entry = Entry(cursor: Cursor, lineage: Lineage, at: nat)

  /** All states of the mailbox so far, the confirmed messages as pairs of UIDVALIDITY and
      UID, and all cursors computed so far. */
  datatype State = State(history: seq<World>, done: set<(Uid, Uid)>, entries: set<Entry>)

  datatype Action =
    | Changes(world: World)
    | Reassigns(world: World)
    | Confirms(uidValidity: Uid, uids: set<Uid>)
    | PollEnds(stored: Option<Entry>, name: string, lastReceivedAt: Option<Time>, begin: Cursor, next: Cursor,
               before: nat, asked: nat, after: nat, uids: set<Uid>)

  ghost function Pairs(v: Uid, uids: set<Uid>): set<(Uid, Uid)> {
    set u | u in uids :: (v, u)
  }

  function CursorOf(e: Option<Entry>): Option<Cursor> {
    if e.Some? then Some(e.value.cursor) else None
  }

  /** A poll may start from any cursor computed before it opened the mailbox, so from one
      that is no longer the stored one. */
  ghost predicate PollPossible(s: State, a: Action)
    requires a.PollEnds?
  {
    && a.before <= a.asked <= a.after < |s.history|
    && s.history[a.before].uidValidity == s.history[a.after].uidValidity
    && s.history[a.asked].uidValidity == s.history[a.after].uidValidity
    && (a.stored.Some? ==> a.stored.value in s.entries && a.stored.value.at <= a.before)
    && var p := PassageOf(s, a);
       && Begins(CursorOf(a.stored), a.name, a.begin, a.lastReceivedAt, p)
       && Progress(a.begin, a.next, p, a.uids)
  }

  ghost function PassageOf(s: State, a: Action): Passage
    requires a.PollEnds? && a.before <= a.asked <= a.after < |s.history|
  {
    Passage(s.history[a.before], s.history[a.asked], s.history[a.after])
  }

  ghost predicate Enabled(s: State, a: Action) {
    match a
    case Changes(world) => s.history != [] && Later(s.history[|s.history| - 1], world)
    case Reassigns(world) => WellFormed(world) && forall i :: 0 <= i < |s.history| ==>
      s.history[i].uidValidity != world.uidValidity
    case Confirms(_, _) => true
    case PollEnds(_, _, _, _, _, _, _, _, _) => PollPossible(s, a)
  }

  /** A poll that goes on from its stored cursor. */
  predicate Continues(a: Action)
    requires a.PollEnds?
  {
    a.stored.Some? && a.stored.value.cursor == a.begin
  }

  function LineageOf(c: Cursor): Lineage {
    if c.recovery.Some? then Lineage(c.recovery.value.toUid, Some(c.recovery.value.checkpoint))
      else Lineage(c.lastUid, None)
  }

  function Produced(a: Action): Entry
    requires a.PollEnds?
  {
    Entry(a.next, if Continues(a) then a.stored.value.lineage else LineageOf(a.begin), a.after)
  }

  ghost function Next(s: State, a: Action): State {
    match a
    case Changes(world) => s.(history := s.history + [world])
    case Reassigns(world) => s.(history := s.history + [world])
    case Confirms(v, uids) => s.(done := s.done + Pairs(v, uids))
    case PollEnds(_, _, _, begin, _, _, _, _, uids) =>
      s.(done := s.done + Pairs(begin.uidValidity, uids), entries := s.entries + {Produced(a)})
  }

  ghost predicate Possible(s: State, run: seq<Action>)
    decreases run
  {
    run == [] || (Enabled(s, run[0]) && Possible(Next(s, run[0]), run[1..]))
  }

  ghost function After(s: State, run: seq<Action>): State
    decreases run
  {
    if run == [] then s else After(Next(s, run[0]), run[1..])
  }

  ghost predicate Initial(s: State) {
    |s.history| == 1 && WellFormed(s.history[0]) && s.entries == {}
  }

  // ---------------------------------------------------------------------------
  // The invariant.

  ghost predicate HistoryKept(h: seq<World>) {
    && h != [] && (forall i :: 0 <= i < |h| ==> WellFormed(h[i]))
    && forall i, j :: 0 <= i <= j < |h| && h[i].uidValidity == h[j].uidValidity ==> Later(h[i], h[j])
  }

  /** The cursor and what it answers for agree; the range and the checkpoint of a recovery
      never change. */
  ghost predicate Fits(c: Cursor, l: Lineage) {
    && (c.recovery.Some? ==> l.floor.Some? && c.recovery.value == Recovery(l.floor.value - DAY, l.floor.value, l.base))
    && (c.recovery.None? ==> l.base <= c.lastUid)
    && (l.floor.Some? ==> l.floor.value != 0 && l.floor.value <= c.lastInternalDate)
  }

  /** Everything the cursor has passed and answers for is confirmed. */
  ghost predicate Passed(c: Cursor, l: Lineage, w: World, done: set<(Uid, Uid)>) {
    forall u :: u in w.messages && u <= c.lastUid && Owed(l, u, w.messages[u]) ==> (c.uidValidity, u) in done
  }

  ghost predicate EntryKept(e: Entry, h: seq<World>, done: set<(Uid, Uid)>) {
    e.at < |h| && WellKept(e.cursor, h[e.at]) && Fits(e.cursor, e.lineage) && Passed(e.cursor, e.lineage, h[e.at], done)
  }

  ghost predicate Kept(s: State) {
    HistoryKept(s.history) && forall e :: e in s.entries ==> EntryKept(e, s.history, s.done)
  }

  lemma LaterTransitive(a: World, b: World, c: World)
    requires Later(a, b) && Later(b, c)
    ensures Later(a, c)
  {
  }

  lemma GrowHistory(h: seq<World>, w: World)
    requires HistoryKept(h) && WellFormed(w)
    requires Later(h[|h| - 1], w) || forall i :: 0 <= i < |h| ==> h[i].uidValidity != w.uidValidity
    ensures HistoryKept(h + [w])
  {
    var g := h + [w];
    forall i, j | 0 <= i <= j < |g| && g[i].uidValidity == g[j].uidValidity ensures Later(g[i], g[j]) {
      if i < |h| && j == |h| {
        LaterTransitive(h[i], h[|h| - 1], w);
      }
    }
  }

  /** What was passed stays passed while the mailbox grows and loses messages. */
  lemma StillPassed(c: Cursor, l: Lineage, w: World, later: World, done: set<(Uid, Uid)>)
    requires WellKept(c, w) && Passed(c, l, w, done) && Later(w, later)
    ensures Passed(c, l, later, done)
  {
  }

  lemma StillWellKept(c: Cursor, w: World, later: World)
    requires WellKept(c, w) && Later(w, later)
    ensures WellKept(c, later)
  {
  }

  /** The cursor a poll begins with fits its lineage and has passed nothing unconfirmed. */
  lemma BeginKept(s: State, a: Action)
    requires Kept(s) && a.PollEnds? && PollPossible(s, a)
    ensures Fits(a.begin, Produced(a).lineage)
    ensures Passed(a.begin, Produced(a).lineage, s.history[a.after], s.done)
  {
    var p := PassageOf(s, a);
    if Continues(a) {
      var e := a.stored.value;
      assert EntryKept(e, s.history, s.done);
      assert e.cursor.uidValidity == s.history[e.at].uidValidity;
      assert Later(s.history[e.at], s.history[a.after]);
      StillPassed(e.cursor, e.lineage, s.history[e.at], s.history[a.after], s.done);
    } else {
      assert a.begin.recovery.Some? ==> a.begin.recovery.value.checkpoint != 0 && a.begin.lastUid == 0;
    }
  }

  /** Going on from there keeps it so. */
  lemma ProgressKept(c: Cursor, next: Cursor, l: Lineage, p: Passage, uids: set<Uid>, done: set<(Uid, Uid)>)
    requires WellKept(c, p.asked) && Later(p.asked, p.after) && Fits(c, l) && Passed(c, l, p.after, done)
    requires Progress(c, next, p, uids)
    ensures WellKept(next, p.after) && Fits(next, l)
    ensures Passed(next, l, p.after, done + Pairs(c.uidValidity, uids))
  {
    forall u | u in p.after.messages && u <= next.lastUid && Owed(l, u, p.after.messages[u])
      ensures (next.uidValidity, u) in done + Pairs(c.uidValidity, uids)
    {
      if c.lastUid < u {
        assert Wanted(c, u, p.after.messages[u]);
        assert u in uids;
      }
    }
  }

  lemma EntriesKept(s: State, h: seq<World>, done: set<(Uid, Uid)>)
    requires Kept(s) && s.history <= h && s.done <= done
    ensures forall e :: e in s.entries ==> EntryKept(e, h, done)
  {
    forall e | e in s.entries ensures EntryKept(e, h, done) {
      assert EntryKept(e, s.history, s.done);
    }
  }

  lemma StepKept(s: State, a: Action)
    requires Kept(s) && Enabled(s, a)
    ensures Kept(Next(s, a))
  {
    match a
    case Changes(world) =>
      GrowHistory(s.history, world);
      EntriesKept(s, s.history + [world], s.done);
    case Reassigns(world) =>
      GrowHistory(s.history, world);
      EntriesKept(s, s.history + [world], s.done);
    case Confirms(v, uids) =>
      EntriesKept(s, s.history, s.done + Pairs(v, uids));
    case PollEnds(_, _, _, begin, next, _, asked, after, uids) =>
      EntriesKept(s, s.history, s.done + Pairs(begin.uidValidity, uids));
      BeginKept(s, a);
      assert Later(s.history[asked], s.history[after]);
      ProgressKept(begin, next, Produced(a).lineage, PassageOf(s, a), uids, s.done);
  }

  lemma {:induction false} RunKept(s: State, run: seq<Action>)
    requires Kept(s) && Possible(s, run)
    ensures Kept(After(s, run))
    decreases run
  {
    if run != [] {
      StepKept(s, run[0]);
      RunKept(Next(s, run[0]), run[1..]);
    }
  }

  // ---------------------------------------------------------------------------
  // What every run gives.

  function Current(s: State): World
    requires s.history != []
  {
    s.history[|s.history| - 1]
  }

  lemma EntryNow(s: State, e: Entry)
    requires Kept(s) && e in s.entries && e.cursor.uidValidity == Current(s).uidValidity
    ensures WellKept(e.cursor, Current(s)) && Fits(e.cursor, e.lineage)
              && Passed(e.cursor, e.lineage, Current(s), s.done)
  {
    assert EntryKept(e, s.history, s.done);
    assert Later(s.history[e.at], Current(s));
    StillWellKept(e.cursor, s.history[e.at], Current(s));
    StillPassed(e.cursor, e.lineage, s.history[e.at], Current(s), s.done);
  }

  /** Cursor safety: in every run, no cursor has passed a message that it answers for, is
      still in the mailbox, and was not confirmed by the handler. */
  lemma CursorSafety(s: State, run: seq<Action>, e: Entry, u: Uid)
    requires Initial(s) && Possible(s, run)
    requires After(s, run).history != [] && e in After(s, run).entries
    requires var w := Current(After(s, run));
             e.cursor.uidValidity == w.uidValidity && u in w.messages && u <= e.cursor.lastUid
               && Owed(e.lineage, u, w.messages[u])
    ensures (e.cursor.uidValidity, u) in After(s, run).done
  {
    RunKept(s, run);
    EntryNow(After(s, run), e);
  }

  /** A cursor of the lineage has passed a message that is still there, unconfirmed. */
  ghost predicate Skips(s: State, e: Entry, l: Lineage, u: Uid, date: Time) {
    && s.history != [] && e in s.entries && e.lineage == l
    && e.cursor.uidValidity == Current(s).uidValidity && u <= e.cursor.lastUid
    && u in Current(s).messages && Current(s).messages[u] == date && (e.cursor.uidValidity, u) !in s.done
  }

  const NAME := "INBOX"

  /** A mailbox with one message, which ends at the base of the lineage. */
  function OneMessage(v: Uid, l: Lineage, u: Uid, date: Time): World {
    World(v, map[u := date], l.base + 1)
  }

  /** A first poll starts at the end of the mailbox and takes the message as read. */
  lemma StartSkips(l: Lineage, u: Uid, date: Time) returns (s: State, run: seq<Action>, e: Entry)
    requires 1 <= u <= l.base && l.floor.None?
    ensures Initial(s) && Possible(s, run) && Skips(After(s, run), e, l, u, date)
  {
    s := State([OneMessage(1, l, u, date)], {}, {});
    var end := Cursor(NAME, 1, l.base, 0, None);
    var first := PollEnds(None, NAME, None, end, end, 0, 0, 0, {});
    run := [first];
    e := Produced(first);
    assert Begins(None, NAME, end, None, PassageOf(s, first));
    assert run[1..] == [] && After(s, run) == Next(s, first);
  }

  /** The state before a recovery of the lineage: an empty mailbox was polled, then its
      UIDs were reassigned. */
  lemma BeforeRecovery(l: Lineage, u: Uid, date: Time) returns (s: State, run: seq<Action>, stored: Entry)
    requires 1 <= u <= l.base
    ensures Initial(s) && Possible(s, run) && stored.cursor == Cursor(NAME, 1, 0, 0, None) && stored.at == 0
    ensures After(s, run) == State([World(1, map[], 1), OneMessage(2, l, u, date)], {}, {stored})
  {
    var start := Cursor(NAME, 1, 0, 0, None);
    s := State([World(1, map[], 1)], {}, {});
    var first := PollEnds(None, NAME, None, start, start, 0, 0, 0, {});
    var second := Reassigns(OneMessage(2, l, u, date));
    stored := Produced(first);
    assert Begins(None, NAME, start, None, PassageOf(s, first));
    Extend(s, [], first);
    run := [] + [first];
    assert After(s, run) == State(s.history, {}, {stored});
    Extend(s, run, second);
    run := run + [second];
  }

  /** A recovery sets a message aside that is older than its checkpoint. */
  lemma RecoverySkips(l: Lineage, u: Uid, date: Time) returns (s: State, run: seq<Action>, e: Entry)
    requires 1 <= u <= l.base && l.floor.Some? && l.floor.value != 0 && date < l.floor.value
    ensures Initial(s) && Possible(s, run) && Skips(After(s, run), e, l, u, date)
  {
    var t := l.floor.value;
    var stored;
    s, run, stored := BeforeRecovery(l, u, date);
    var begin := Cursor(NAME, 2, 0, t, Some(Recovery(t - DAY, t, l.base)));
    var last := PollEnds(Some(stored), NAME, Some(t), begin, FinishRecovery(begin), 1, 1, 1, {});
    e := Produced(last);
    var before := After(s, run);
    assert FromCheckpoint(begin, t, PassageOf(before, last));
    assert Begins(Some(stored.cursor), NAME, begin, Some(t), PassageOf(before, last));
    Extend(s, run, last);
    run := run + [last];
  }

  /** A server that answers every question about a mailbox with one message at once. */
  function Answers(w: World, u: Uid, date: Time, lastReceivedAt: Option<Time>): Poll
    requires 1 <= w.uidNext <= MAX_UID
  {
    Poll(Some(Mailbox(NAME, w.uidValidity, w.uidNext)),
         (since: Time, from: Uid, upTo: Uid) =>
           Found(if InRange(u, from, upTo) && YoungEnough(since, date) then [u] else []),
         (i: nat) => false, (uids: seq<Uid>) => Some(map[u := date]),
         (uids: seq<Uid>) => Fetch.Stream([Fetch.Response(u, true)], false),
         (v: Uid) => Fetch.Stream([Fetch.Response(u, true)], false),
         (v: Uid) => date, (v: Uid) => false, lastReceivedAt)
  }

  lemma AnswersHonest(w: World, u: Uid, date: Time, lastReceivedAt: Option<Time>)
    requires WellFormed(w) && w.uidNext <= MAX_UID && w.messages == map[u := date]
    ensures Honest(Answers(w, u, date, lastReceivedAt), Passage(w, w, w))
  {
    var poll, p := Answers(w, u, date, lastReceivedAt), Passage(w, w, w);
    assert Fetch.Names(Fetch.Stream([Fetch.Response(u, true)], false), u) by {
      assert [Fetch.Response(u, true)][0].uid == u;
    }
    assert Shows(poll, p.after.messages.Keys);
    assert u in w.messages && 1 <= u < w.uidNext;
    forall since, from: Uid, v: Uid | v in poll.search(since, from, 0).uids ensures v < p.asked.uidNext {
      assert v == u;
    }
  }

  /** The first poll of StartSkips is what Sync does with an honest server. */
  method StartBySync(session: Fetch.Session, cfg: Config, l: Lineage, u: Uid, date: Time)
    returns (r: SyncResult, ghost s: State, ghost a: Action)
    requires Sound(cfg) && 1 <= u <= l.base < MAX_UID && l.floor.None?
    modifies session
    ensures Initial(s) && Enabled(s, a) && a.PollEnds? && r == SyncResult(Some(a.next), false, false, false)
    ensures Skips(Next(s, a), Produced(a), l, u, date)
  {
    var w := OneMessage(1, l, u, date);
    var poll := Answers(w, u, date, None);
    AnswersHonest(w, u, date, None);
    ghost var begin, done, report;
    r, begin, done, report := Sync(session, poll, cfg, None, Passage(w, w, w));
    s := State([w], {}, {});
    a := PollEnds(None, NAME, None, begin, begin, 0, 0, 0, done);
  }

  /** And so is the last poll of RecoverySkips. */
  method RecoveryBySync(session: Fetch.Session, cfg: Config, l: Lineage, u: Uid, date: Time)
    returns (r: SyncResult, ghost s: State, ghost run: seq<Action>, ghost a: Action)
    requires Sound(cfg) && 1 <= u <= l.base < MAX_UID
    requires l.floor.Some? && l.floor.value != 0 && l.floor.value != DAY && date < l.floor.value
    modifies session
    ensures Initial(s) && Possible(s, run) && Enabled(After(s, run), a) && a.PollEnds?
    ensures r == SyncResult(Some(a.next), false, false, false)
    ensures Skips(Next(After(s, run), a), Produced(a), l, u, date)
  {
    var w, t := OneMessage(2, l, u, date), l.floor.value;
    var poll := Answers(w, u, date, Some(t));
    AnswersHonest(w, u, date, Some(t));
    ghost var stored;
    s, run, stored := BeforeRecovery(l, u, date);
    ghost var begin, done, report;
    assert FindsNothing(poll, t - DAY);
    r, begin, done, report := Sync(session, poll, cfg, Some(Cursor(NAME, 1, 0, 0, None)), Passage(w, w, w));
    a := PollEnds(Some(stored), NAME, Some(t), begin, FinishRecovery(begin), 1, 1, 1, done);
  }

  lemma {:induction false} Extend(s: State, run: seq<Action>, a: Action)
    requires Possible(s, run) && Enabled(After(s, run), a)
    ensures Possible(s, run + [a]) && After(s, run + [a]) == Next(After(s, run), a)
    decreases run
  {
    if run == [] {
      assert run + [a] == [a] && [a][1..] == [];
    } else {
      assert (run + [a])[0] == run[0] && (run + [a])[1..] == run[1..] + [a];
      Extend(Next(s, run[0]), run[1..], a);
    }
  }

  /** What a lineage answers for is exact: a message is owed if and only if in no run a
      cursor of the lineage passes it unconfirmed. */
  lemma OwedExact(l: Lineage, u: Uid, date: Time)
    requires u >= 1 && l.floor != Some(0)
    ensures Owed(l, u, date) <==> forall s, e :: Reachable(s) ==> !Skips(s, e, l, u, date)
  {
    if Owed(l, u, date) {
      forall s, e | Reachable(s) ensures !Skips(s, e, l, u, date) {
        var start, run :| Initial(start) && Possible(start, run) && After(start, run) == s;
        if Skips(s, e, l, u, date) {
          CursorSafety(start, run, e, u);
        }
      }
    } else {
      var start, run, e;
      if l.floor.None? {
        start, run, e := StartSkips(l, u, date);
      } else {
        start, run, e := RecoverySkips(l, u, date);
      }
      assert Reachable(After(start, run)) && Skips(After(start, run), e, l, u, date);
    }
  }

  ghost predicate Reachable(s: State) {
    exists start, run :: Initial(start) && Possible(start, run) && After(start, run) == s
  }

  /** Recovery coverage: while a recovery lasts, its checkpoint and its range are those it
      began with; once it has ended, every message of that range that still exists and is
      not older than the checkpoint was confirmed. */
  lemma RecoveryCoverage(s: State, run: seq<Action>, e: Entry)
    requires Initial(s) && Possible(s, run)
    requires After(s, run).history != [] && e in After(s, run).entries && e.lineage.floor.Some?
    ensures e.cursor.recovery.Some? ==>
              e.cursor.recovery.value == Recovery(e.lineage.floor.value - DAY, e.lineage.floor.value, e.lineage.base)
    ensures var w := Current(After(s, run));
            e.cursor.recovery.None? && e.cursor.uidValidity == w.uidValidity ==>
            forall u :: u in w.messages && u <= e.lineage.base && e.lineage.floor.value <= w.messages[u] ==>
              (e.cursor.uidValidity, u) in After(s, run).done
  {
    RunKept(s, run);
    var t := After(s, run);
    assert EntryKept(e, t.history, t.done);
    if e.cursor.uidValidity == Current(t).uidValidity {
      EntryNow(t, e);
    }
  }

  /** The floor along a chain of polls never falls: another reassignment in the middle of a
      recovery keeps the checkpoint, one after it moves it up to the newest confirmed date. */
  lemma FloorNeverFalls(s: State, run: seq<Action>, a: Action)
    requires Initial(s) && Possible(s, run) && a.PollEnds? && Enabled(After(s, run), a)
    requires a.stored.Some? && a.stored.value.cursor.mailbox == a.name && a.stored.value.lineage.floor.Some?
    requires a.stored.value.lineage.floor.value > 0
    ensures Produced(a).lineage.floor.Some?
    ensures a.stored.value.lineage.floor.value <= Produced(a).lineage.floor.value <= a.next.lastInternalDate
    ensures a.stored.value.cursor.recovery.Some? ==> Produced(a).lineage.floor == a.stored.value.lineage.floor
    ensures a.stored.value.cursor.recovery.Some? && !Continues(a) ==> a.begin.lastUid == 0 && a.begin.recovery.Some?
  {
    RunKept(s, run);
    var t := After(s, run);
    assert EntryKept(a.stored.value, t.history, t.done);
    BeginKept(t, a);
  }

  /** In every run the next poll may begin: what Sync asks of a stored cursor holds, and
      whatever Sync returns is a step of the run. */
  lemma SyncMayBegin(s: State, run: seq<Action>, e: Entry, before: nat)
    requires Initial(s) && Possible(s, run)
    requires e in After(s, run).entries && e.at <= before < |After(s, run).history|
    requires e.cursor.uidValidity == After(s, run).history[before].uidValidity
    ensures WellKept(e.cursor, After(s, run).history[before])
  {
    RunKept(s, run);
    var t := After(s, run);
    assert EntryKept(e, t.history, t.done);
    assert Later(t.history[e.at], t.history[before]);
    StillWellKept(e.cursor, t.history[e.at], t.history[before]);
  }

  /** What Sync guarantees is what a step of the run assumes. */
  lemma SyncedIsPossible(s: State, a: Action, poll: Poll, r: SyncResult)
    requires a.PollEnds? && a.before <= a.asked <= a.after < |s.history|
    requires a.stored.Some? ==> a.stored.value in s.entries && a.stored.value.at <= a.before
    requires Honest(poll, PassageOf(s, a)) && poll.examine.Some? && poll.examine.value.name == a.name
    requires poll.lastReceivedAt == a.lastReceivedAt
    requires Synced(CursorOf(a.stored), poll, a.begin, r, PassageOf(s, a), a.uids) && r.cursor == Some(a.next)
    ensures Enabled(s, a)
  {
  }

  // ---------------------------------------------------------------------------
  // A mailbox at rest.

  /** Nobody touches the mailbox, the server answers and the handler accepts, at every poll. */
  ghost predicate AtRest(polls: nat -> Poll, w: World, name: string) {
    forall i :: 0 <= i ==>
      && Honest(polls(i), Passage(w, w, w)) && Steady(polls(i), Passage(w, w, w)) && Smooth(polls(i))
      && polls(i).examine.value.name == name
  }

  /** What the first cursor still owes: all above it, up to ToUID only what is not older
      than the checkpoint. */
  ghost predicate Due(first: Cursor, u: Uid, date: Time) {
    && first.lastUid < u
    && (first.recovery.Some? && u <= first.recovery.value.toUid ==> first.recovery.value.checkpoint <= date)
  }

  ghost predicate DueDone(first: Cursor, c: Cursor, w: World, done: set<Uid>) {
    forall u :: u in w.messages && Due(first, u, w.messages[u]) && u <= c.lastUid ==> u in done
  }

  ghost predicate Underway(first: Cursor, c: Cursor, w: World, done: set<Uid>) {
    && c.mailbox == first.mailbox && WellKept(c, w) && first.lastUid <= c.lastUid && DueDone(first, c, w, done)
    && (c.recovery.Some? ==> c.recovery == first.recovery)
  }

  lemma PollUnderway(first: Cursor, c: Cursor, next: Cursor, w: World, done: set<Uid>, more: set<Uid>)
    requires Underway(first, c, w, done) && Progress(c, next, Passage(w, w, w), more)
    ensures Underway(first, next, w, done + more)
  {
  }

  /** Polls that follow each other until one of them has nothing left, and none is needed
      for a recovery: there is such a poll, the last cursor has passed every message, and
      the handler has confirmed every one that was due. */
  method ReadToEnd(session: Fetch.Session, cfg: Config, polls: nat -> Poll, first: Cursor, ghost w: World)
    returns (c: Cursor, rounds: nat, ghost done: set<Uid>)
    requires Sound(cfg) && AtRest(polls, w, first.mailbox) && WellKept(first, w)
    modifies session
    ensures c.recovery.None? && forall u :: u in w.messages ==> u <= c.lastUid
    ensures forall u :: u in w.messages && Due(first, u, w.messages[u]) ==> u in done
  {
    c, rounds, done := first, 0, {};
    var left := true;
    while left
      invariant Underway(first, c, w, done)
      invariant !left ==> c.recovery.None? && forall u :: u in w.messages ==> u <= c.lastUid
      decreases left, c.recovery.Some?, w.uidNext - c.lastUid
    {
      var r;
      ghost var begin, confirmed, report;
      r, begin, confirmed, report := Sync(session, polls(rounds), cfg, Some(c), Passage(w, w, w));
      PollUnderway(first, c, r.cursor.value, w, done, confirmed);
      left := r.more || c.recovery.Some?;
      c, rounds, done := r.cursor.value, rounds + 1, done + confirmed;
    }
  }
}
